/** Replies, the common packet format and the encapsulation header as values: what is
    written, how long it says it is, and what is read back (section 2-6 of CIP Volume 2). */
module CpfSpec {
  import opened Words
  import opened Bytes
  import opened EPathSpec
  import opened ConnPathCodec
  import opened ForwardOpen

  // ----- Message router responses

  const MAX_ADDITIONAL := 2

  datatype Response = Response(service: byte, status: byte, additional: seq<nat>, data: seq<byte>)

  function ReplyService(service: byte): byte {
    if service < 128 then service + 128 else service
  }

  /** CipMessageRouterResponse::Serialize. */
  function PutResponse(r: Response): seq<byte> {
    [ReplyService(r.service), 0, r.status, U8(|r.additional|)] + PutWords(r.additional) + r.data
  }

  /** CipMessageRouterResponse::SerializedCount. */
  function CountResponse(r: Response): nat {
    4 + 2 * |r.additional| + |r.data|
  }

  /** DeserializeMRRes: more additional words than there is room for are refused. */
  function ReadResponse(s: seq<byte>): Option<Response> {
    if |s| < 4 || s[3] > MAX_ADDITIONAL then None
    else
      match ReadWords(s[4..], s[3])
      case Fail => None
      case Got(ws, rest) => Some(Response(s[0] % 128, s[2], ws, rest))
  }

  lemma ResponseRoundTrip(r: Response)
    requires |r.additional| <= MAX_ADDITIONAL && WordsOk(r.additional)
    ensures ReadResponse(PutResponse(r)) == Some(r.(service := r.service % 128))
    ensures |PutResponse(r)| == CountResponse(r)
  {
    hide PutWords;
    var s := PutResponse(r);
    assert s[4..] == PutWords(r.additional) + r.data;
    WordsRead(r.additional, r.data);
  }

  // ----- Items

  const NULL_ADDRESS := 0x0000
  const CONNECTED_ADDRESS := 0x00A1
  const SEQUENCED_ADDRESS := 0x8002
  const CONNECTED_DATA := 0x00B1
  const UNCONNECTED_DATA := 0x00B2
  const SOCKADDR_O_T := 0x8000
  const SOCKADDR_T_O := 0x8001

  datatype AddrType = NoAddress | NullAddress | ConnectedAddress | SequencedAddress

  datatype DataType = NoData | ConnectedData | UnconnectedData

  /** The address item; its numbers outlive a change of type. */
  datatype AddressItem = AddressItem(kind: AddrType, cid: nat, seqNum: nat)

  datatype Sock = Sock(family: nat, port: nat, addr: nat)

  /** Cpf to be sent: with a payload, or with the raw bytes `range`. */
  datatype Packet = Packet(addr: AddressItem, data: DataType, payload: Option<Response>, range: seq<byte>,
                           txOT: Option<Sock>, txTO: Option<Sock>)

  /** Cpf as received. */
  datatype Received = Received(addr: AddressItem, data: DataType, range: seq<byte>, rxOT: Option<Sock>, rxTO: Option<Sock>)

  function DataId(k: DataType): nat
    requires k != NoData
  {
    if k == ConnectedData then CONNECTED_DATA else UNCONNECTED_DATA
  }

  function PutAddr(a: AddressItem): seq<byte> {
    match a.kind
    case NoAddress => []
    case NullAddress => Put16(NULL_ADDRESS) + Put16(0)
    case ConnectedAddress => Put16(CONNECTED_ADDRESS) + Put16(4) + Put32(a.cid)
    case SequencedAddress => Put16(SEQUENCED_ADDRESS) + Put16(8) + (Put32(a.cid) + Put32(a.seqNum))
  }

  /** The bytes of the data item past its type and length. */
  function DataBytes(p: Packet): seq<byte> {
    if p.payload.None? then p.range
    else if p.data == ConnectedData then Put16(p.addr.seqNum) + PutResponse(p.payload.value)
    else PutResponse(p.payload.value)
  }

  /** The length field of the data item. */
  function DataLength(p: Packet): nat {
    if p.payload.None? then |p.range|
    else if p.data == ConnectedData then CountResponse(p.payload.value) + 2
    else CountResponse(p.payload.value)
  }

  function PutDataItem(p: Packet): seq<byte> {
    if p.data == NoData then [] else Put16(DataId(p.data)) + Put16(DataLength(p)) + DataBytes(p)
  }

  function PutSock(id: nat, s: Option<Sock>): seq<byte> {
    if s.None? then []
    else Put16(id) + Put16(16) + (Put16BE(s.value.family) + (Put16BE(s.value.port) + (Put32BE(s.value.addr) + Zeros(8))))
  }

  function One(b: bool): nat { if b then 1 else 0 }

  function Items(p: Packet): nat {
    One(p.addr.kind != NoAddress) + One(p.data != NoData) + One(p.txOT.Some?) + One(p.txTO.Some?)
  }

  /** Cpf::Serialize. */
  function PutPacket(p: Packet): seq<byte> {
    Put16(Items(p)) + (PutAddr(p.addr) + (PutDataItem(p) + (PutSock(SOCKADDR_O_T, p.txOT) + PutSock(SOCKADDR_T_O, p.txTO))))
  }

  /** Cpf::SerializedCount. Without a payload it counts the head of the data item twice. */
  function CountPacket(p: Packet): nat {
    2
    + (match p.addr.kind case NoAddress => 0 case NullAddress => 4 case ConnectedAddress => 8 case SequencedAddress => 12)
    + (if p.data == NoData then 0
       else 4 + (if p.payload.Some? then CountResponse(p.payload.value) + (if p.data == ConnectedData then 2 else 0)
                 else 4 + |p.range|))
    + 20 * One(p.txOT.Some?) + 20 * One(p.txTO.Some?)
  }

  // ----- Reading

  function ReadSock(s: seq<byte>): Parse<Sock> {
    if |s| < 16 then Fail else Got(Sock(Get16BE(s), Get16BE(s[2..]), Get32BE(s[4..])), s[16..])
  }

  /** The ids of an address item of that length. */
  function ReadAddr(a: AddressItem, length: nat, s: seq<byte>): Parse<AddressItem> {
    if length < 4 then Got(a, s)
    else
      match Take32(s)
      case Fail => Fail
      case Got(cid, s1) =>
        if length != 8 then Got(a.(cid := cid), s1)
        else
          match Take32(s1)
          case Fail => Fail
          case Got(n, s2) => Got(a.(cid := cid, seqNum := n), s2)
  }

  /** One item, past its type and length. */
  function ReadItem(r: Received, id: nat, length: nat, s: seq<byte>): Parse<Received> {
    if id == NULL_ADDRESS || id == CONNECTED_ADDRESS || id == SEQUENCED_ADDRESS then
      var kind := if id == NULL_ADDRESS then NullAddress else if id == CONNECTED_ADDRESS then ConnectedAddress else SequencedAddress;
      match ReadAddr(r.addr.(kind := kind), length, s)
      case Fail => Fail
      case Got(a, rest) => Got(r.(addr := a), rest)
    else if id == CONNECTED_DATA || id == UNCONNECTED_DATA then
      if |s| < length then Fail
      else Got(r.(data := if id == CONNECTED_DATA then ConnectedData else UnconnectedData, range := s[..length]), s[length..])
    else if (id == SOCKADDR_O_T || id == SOCKADDR_T_O) && length == 16 then
      match ReadSock(s)
      case Fail => Fail
      case Got(k, rest) => Got(if id == SOCKADDR_O_T then r.(rxOT := Some(k)) else r.(rxTO := Some(k)), rest)
    else Fail
  }

  function ReadItems(r: Received, n: nat, s: seq<byte>): Parse<Received>
    decreases n
  {
    if n == 0 then Got(r, s)
    else
      match Take16(s)
      case Fail => Fail
      case Got(id, s1) =>
        match Take16(s1)
        case Fail => Fail
        case Got(length, s2) =>
          match ReadItem(r, id, length, s2)
          case Fail => Fail
          case Got(r1, s3) => ReadItems(r1, n - 1, s3)
  }

  /** A fresh Cpf that receives: no items, ids zero. */
  const EMPTY := Received(AddressItem(NoAddress, 0, 0), NoData, [], None, None)

  /** Cpf::DeserializeCpf on a fresh object; Fail is its negative result. */
  function ReadPacket(s: seq<byte>): Parse<Received> {
    match Take16(s)
    case Fail => Fail
    case Got(n, rest) => ReadItems(EMPTY, n, rest)
  }
}
