/** The common packet format: lengths agree at every layer, and what was sent is received. */
module CpfCodec {
  import opened Words
  import opened Bytes
  import opened EPathSpec
  import opened ConnPathCodec
  import opened ForwardOpen
  import opened CpfSpec

  predicate SockOk(s: Option<Sock>) {
    s.Some? ==> s.value.family < TWO16 && s.value.port < TWO16 && s.value.addr < TWO32
  }

  /** What the fields of a packet can hold. */
  predicate PacketOk(p: Packet) {
    && p.addr.cid < TWO32 && p.addr.seqNum < TWO32 && SockOk(p.txOT) && SockOk(p.txTO)
    && (p.payload.Some? ==> |p.payload.value.additional| <= MAX_ADDITIONAL && WordsOk(p.payload.value.additional))
  }

  // ----- Lengths

  lemma ResponseLength(r: Response)
    ensures |PutResponse(r)| == CountResponse(r)
  {
  }

  lemma DataLengthCovers(p: Packet)
    ensures DataLength(p) == |DataBytes(p)|
  {
    hide PutResponse, Put16, CountResponse;
    if p.payload.Some? { ResponseLength(p.payload.value); }
  }

  /** SerializedCount is the number of bytes written exactly when the data item, if any,
      carries a payload; otherwise it is four too many. */
  lemma CountIsLength(p: Packet)
    ensures CountPacket(p) == |PutPacket(p)| <==> p.payload.Some? || p.data == NoData
    ensures CountPacket(p) == |PutPacket(p)| || CountPacket(p) == |PutPacket(p)| + 4
  {
    hide PutResponse, Put16, Put32, Put16BE, Put32BE, CountResponse, DataBytes, DataLength;
    DataLengthCovers(p);
    DataLengthIs(p);
    AddrLength(p.addr);
    SockLength(SOCKADDR_O_T, p.txOT);
    SockLength(SOCKADDR_T_O, p.txTO);
  }

  lemma DataLengthIs(p: Packet)
    ensures DataLength(p) == if p.payload.None? then |p.range| else CountResponse(p.payload.value) + (if p.data == ConnectedData then 2 else 0)
  {
    hide CountResponse;
  }

  lemma AddrLength(a: AddressItem)
    ensures |PutAddr(a)| == match a.kind case NoAddress => 0 case NullAddress => 4 case ConnectedAddress => 8 case SequencedAddress => 12
  {
    hide Put16, Put32;
  }

  lemma SockLength(id: nat, s: Option<Sock>)
    ensures |PutSock(id, s)| == if s.Some? then 20 else 0
  {
    hide Put16, Put16BE, Put32BE;
  }

  // ----- Items are read back

  lemma ItemRead(r: Received, n: nat, id: nat, body: seq<byte>, rest: seq<byte>)
    requires id < TWO16 && |body| < TWO16
    ensures ReadItems(r, n + 1, Put16(id) + Put16(|body|) + body + rest) ==
            match ReadItem(r, id, |body|, body + rest)
            case Fail => Fail
            case Got(r1, s) => ReadItems(r1, n, s)
  {
    hide Take16, Put16, ReadItem;
    assert Put16(id) + Put16(|body|) + body + rest == Put16(id) + (Put16(|body|) + (body + rest));
    Took16(id, Put16(|body|) + (body + rest));
    Took16(|body|, body + rest);
  }

  lemma AddrRead(r: Received, a: AddressItem, n: nat, rest: seq<byte>)
    requires a.cid < TWO32 && a.seqNum < TWO32 && a.kind != NoAddress
    ensures ReadItems(r, n + 1, PutAddr(a) + rest) ==
            ReadItems(r.(addr := AddressItem(a.kind, if a.kind == NullAddress then r.addr.cid else a.cid,
                                             if a.kind == SequencedAddress then a.seqNum else r.addr.seqNum)), n, rest)
  {
    hide Take16, Put16, Take32, Put32, ReadItems;
    match a.kind
    case NullAddress =>
      assert PutAddr(a) + rest == Put16(NULL_ADDRESS) + Put16(0) + [] + rest;
      assert [] + rest == rest;
      ItemRead(r, n, NULL_ADDRESS, [], rest);
    case ConnectedAddress =>
      Took32(a.cid, rest);
      ItemRead(r, n, CONNECTED_ADDRESS, Put32(a.cid), rest);
    case SequencedAddress =>
      var body := Put32(a.cid) + Put32(a.seqNum);
      Took32(a.cid, Put32(a.seqNum) + rest);
      Took32(a.seqNum, rest);
      assert body + rest == Put32(a.cid) + (Put32(a.seqNum) + rest);
      ItemRead(r, n, SEQUENCED_ADDRESS, body, rest);
  }

  lemma DataRead(r: Received, p: Packet, n: nat, rest: seq<byte>)
    requires p.data != NoData && |DataBytes(p)| < TWO16
    ensures ReadItems(r, n + 1, PutDataItem(p) + rest) == ReadItems(r.(data := p.data, range := DataBytes(p)), n, rest)
  {
    hide Put16, DataBytes, DataLength, ReadItems;
    var b := DataBytes(p);
    DataLengthCovers(p);
    ItemRead(r, n, DataId(p.data), b, rest);
    assert (b + rest)[..|b|] == b && (b + rest)[|b|..] == rest;
  }

  lemma SockBytesRead(s: Sock, rest: seq<byte>)
    requires SockOk(Some(s))
    ensures ReadSock(Put16BE(s.family) + (Put16BE(s.port) + (Put32BE(s.addr) + Zeros(8))) + rest) == Got(s, rest)
  {
    hide Put16BE, Put32BE, Get16BE, Get32BE;
    var t := Zeros(8) + rest;
    var b := Put16BE(s.family) + (Put16BE(s.port) + (Put32BE(s.addr) + Zeros(8))) + rest;
    assert b == Put16BE(s.family) + (Put16BE(s.port) + (Put32BE(s.addr) + t));
    assert b[2..] == Put16BE(s.port) + (Put32BE(s.addr) + t);
    assert b[4..] == Put32BE(s.addr) + t;
    assert b[16..] == rest;
    Got16(s.family, Put16BE(s.port) + (Put32BE(s.addr) + t));
    Got16(s.port, Put32BE(s.addr) + t);
    Got32(s.addr, t);
  }

  lemma SockRead(r: Received, id: nat, s: Sock, n: nat, rest: seq<byte>)
    requires SockOk(Some(s)) && (id == SOCKADDR_O_T || id == SOCKADDR_T_O)
    ensures ReadItems(r, n + 1, PutSock(id, Some(s)) + rest) ==
            ReadItems(if id == SOCKADDR_O_T then r.(rxOT := Some(s)) else r.(rxTO := Some(s)), n, rest)
  {
    hide Put16, Put16BE, Put32BE, ReadSock, ReadItems;
    var body := Put16BE(s.family) + (Put16BE(s.port) + (Put32BE(s.addr) + Zeros(8)));
    SockBytesRead(s, rest);
    ItemRead(r, n, id, body, rest);
  }

  /** What the other end receives. */
  function Delivered(p: Packet): Received {
    Received(AddressItem(p.addr.kind,
                         if p.addr.kind == ConnectedAddress || p.addr.kind == SequencedAddress then p.addr.cid else 0,
                         if p.addr.kind == SequencedAddress then p.addr.seqNum else 0),
             p.data, if p.data == NoData then [] else DataBytes(p), p.txOT, p.txTO)
  }

  lemma SocksRead(r: Received, p: Packet, rest: seq<byte>)
    requires PacketOk(p) && r.rxOT.None? && r.rxTO.None?
    ensures ReadItems(r, One(p.txOT.Some?) + One(p.txTO.Some?), PutSock(SOCKADDR_O_T, p.txOT) + PutSock(SOCKADDR_T_O, p.txTO) + rest)
            == Got(r.(rxOT := p.txOT, rxTO := p.txTO), rest)
  {
    hide PutSock, ReadItems;
    var a, b := PutSock(SOCKADDR_O_T, p.txOT), PutSock(SOCKADDR_T_O, p.txTO);
    var r1 := r.(rxOT := p.txOT);
    assert a + b + rest == a + (b + rest);
    if p.txOT.Some? {
      SockRead(r, SOCKADDR_O_T, p.txOT.value, One(p.txTO.Some?), b + rest);
    } else {
      NoSock(SOCKADDR_O_T);
      assert a + (b + rest) == b + rest;
    }
    if p.txTO.Some? {
      SockRead(r1, SOCKADDR_T_O, p.txTO.value, 0, rest);
    } else {
      NoSock(SOCKADDR_T_O);
      assert b + rest == rest;
    }
    NoItems(r1.(rxTO := p.txTO), rest);
  }

  lemma NoSock(id: nat)
    ensures PutSock(id, None) == []
  {
  }

  lemma NoItems(r: Received, s: seq<byte>)
    ensures ReadItems(r, 0, s) == Got(r, s)
  {
  }

  /** Packet round trip: address, data range and both socket addresses are received as sent,
      and nothing past the packet is touched. */
  lemma PacketRoundTrip(p: Packet, rest: seq<byte>)
    requires PacketOk(p) && (p.data != NoData ==> |DataBytes(p)| < TWO16)
    ensures ReadPacket(PutPacket(p) + rest) == Got(Delivered(p), rest)
  {
    hide PutAddr, PutDataItem, PutSock, ReadItems, DataBytes, Put16, Take16;
    var socks := PutSock(SOCKADDR_O_T, p.txOT) + PutSock(SOCKADDR_T_O, p.txTO);
    var data := PutDataItem(p) + (socks + rest);
    var addr := PutAddr(p.addr) + data;
    assert PutPacket(p) + rest == Put16(Items(p)) + addr;
    Took16(Items(p), addr);
    var m := One(p.txOT.Some?) + One(p.txTO.Some?);
    var r0 := EMPTY;
    var d := Delivered(p);
    var r1 := r0.(addr := d.addr);
    if p.addr.kind != NoAddress {
      AddrRead(r0, p.addr, m + One(p.data != NoData), data);
    } else {
      NoAddr(p.addr);
      assert addr == data;
    }
    if p.data != NoData {
      DataRead(r1, p, m, socks + rest);
    } else {
      NoDataItem(p);
      assert data == socks + rest;
    }
    SocksRead(r1.(data := d.data, range := d.range), p, rest);
  }

  lemma NoAddr(a: AddressItem)
    requires a.kind == NoAddress
    ensures PutAddr(a) == []
  {
  }

  lemma NoDataItem(p: Packet)
    requires p.data == NoData
    ensures PutDataItem(p) == []
  {
  }

  // ----- The encapsulation header

  const SEND_RR_DATA := 0x6F
  const SEND_UNIT_DATA := 0x70
  const HEADER := 24

  datatype Header = Header(command: nat, length: nat, session: nat, status: nat, context: seq<byte>, options: nat,
                           iface: nat, timeout: nat)

  /** The header includes an interface handle and a timeout. */
  predicate IsBig(command: nat) {
    command == SEND_RR_DATA || command == SEND_UNIT_DATA
  }

  function HeaderLength(command: nat): nat {
    if IsBig(command) then HEADER + 6 else HEADER
  }

  /** SetPayloadLength. */
  function WithPayloadLength(h: Header, n: nat): Header {
    h.(length := U16(if IsBig(h.command) then n + 6 else n))
  }

  function PutHeader(h: Header): seq<byte> {
    Put16(h.command) + (Put16(h.length) + (Put32(h.session) + (Put32(h.status) + (h.context + (Put32(h.options)
    + (if IsBig(h.command) then Put32(h.iface) + Put16(h.timeout) else []))))))
  }

  /** Encapsulation::Serialize with a Cpf as payload. */
  function PutEncap(h: Header, p: Packet): seq<byte> {
    PutHeader(WithPayloadLength(h, CountPacket(p))) + PutPacket(p)
  }

  /** DeserializeEncap, the part every header has. */
  function ReadHeader(s: seq<byte>): Parse<Header> {
    match Take16(s)
    case Fail => Fail
    case Got(command, s1) =>
      match Take16(s1)
      case Fail => Fail
      case Got(length, s2) =>
        match Take32(s2)
        case Fail => Fail
        case Got(session, s3) =>
          match Take32(s3)
          case Fail => Fail
          case Got(status, s4) =>
            if |s4| < 8 then Fail
            else
              match Take32(s4[8..])
              case Fail => Fail
              case Got(options, s5) => ReadBig(Header(command, length, session, status, s4[..8], options, 0, 0), s5)
  }

  function ReadBig(h: Header, s: seq<byte>): Parse<Header> {
    if !IsBig(h.command) then Got(h, s)
    else
      match Take32(s)
      case Fail => Fail
      case Got(i, s1) =>
        match Take16(s1)
        case Fail => Fail
        case Got(t, s2) => Got(h.(iface := i, timeout := t), s2)
  }

  predicate HeaderOk(h: Header) {
    && h.command < TWO16 && h.length < TWO16 && h.session < TWO32 && h.status < TWO32 && |h.context| == 8
    && h.options < TWO32 && h.iface < TWO32 && h.timeout < TWO16
    && (!IsBig(h.command) ==> h.iface == 0 && h.timeout == 0)
  }

  lemma HeaderRoundTrip(h: Header, rest: seq<byte>)
    requires HeaderOk(h)
    ensures ReadHeader(PutHeader(h) + rest) == Got(h, rest) && |PutHeader(h)| == HeaderLength(h.command)
  {
    hide Put16, Put32, Take16, Take32;
    var big := if IsBig(h.command) then Put32(h.iface) + Put16(h.timeout) else [];
    var s5 := big + rest;
    var s4 := h.context + (Put32(h.options) + s5);
    var s3 := Put32(h.status) + s4;
    var s2 := Put32(h.session) + s3;
    var s1 := Put16(h.length) + s2;
    assert PutHeader(h) + rest == Put16(h.command) + s1;
    Took16(h.command, s1);
    Took16(h.length, s2);
    Took32(h.session, s3);
    Took32(h.status, s4);
    assert s4[..8] == h.context && s4[8..] == Put32(h.options) + s5;
    Took32(h.options, s5);
    if IsBig(h.command) {
      assert s5 == Put32(h.iface) + (Put16(h.timeout) + rest);
      Took32(h.iface, Put16(h.timeout) + rest);
      Took16(h.timeout, rest);
    } else {
      assert s5 == rest;
    }
  }

  /** Nested lengths of a packet with a message router payload: the encapsulation length is
      the total less 24, and the receiver gets header and packet back from exactly the bytes
      sent. */
  lemma EncapRoundTrip(h: Header, p: Packet)
    requires HeaderOk(h) && PacketOk(p) && p.payload.Some? && |PutPacket(p)| + 6 < TWO16
    ensures var s := PutEncap(h, p);
            var h1 := WithPayloadLength(h, |PutPacket(p)|);
            && h1.length == |s| - HEADER
            && ReadHeader(s) == Got(h1, PutPacket(p))
            && ReadPacket(PutPacket(p)) == Got(Delivered(p), [])
  {
    hide PutHeader, ReadHeader, PutPacket, ReadPacket, CountPacket;
    CountIsLength(p);
    HeaderRoundTrip(WithPayloadLength(h, |PutPacket(p)|), PutPacket(p));
    if p.data != NoData { DataInPacket(p); }
    PacketRoundTrip(p, []);
    assert PutPacket(p) + [] == PutPacket(p);
  }

  lemma DataInPacket(p: Packet)
    requires p.data != NoData
    ensures |DataBytes(p)| < |PutPacket(p)|
  {
    hide PutAddr, DataBytes, PutSock;
  }

  /** The way a reply is framed: the payload is written first, behind the room for the
      header, whose length is then set from the bytes written; an error sends no payload. */
  function ReplyFrame(h: Header, payload: seq<byte>): seq<byte> {
    PutHeader(WithPayloadLength(h, |payload|)) + payload
  }

  lemma ReplyLength(h: Header, payload: seq<byte>)
    requires HeaderOk(h) && |payload| + 6 < TWO16
    ensures var s := ReplyFrame(h, payload);
            && WithPayloadLength(h, |payload|).length == |s| - HEADER
            && ReadHeader(s) == Got(WithPayloadLength(h, |payload|), payload)
  {
    hide PutHeader, ReadHeader;
    HeaderRoundTrip(WithPayloadLength(h, |payload|), payload);
  }
}
