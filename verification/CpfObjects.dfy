/** The reply, packet and encapsulation objects: fields filled in by a parsing loop, bytes put
    through a bounded writer. */
module CpfObjects {
  import opened Words
  import opened Bytes
  import opened EPathSpec
  import opened ForwardOpen
  import opened CpfSpec
  import opened CpfCodec

  class CipMessageRouterResponse {
    var service: byte
    var status: byte
    var additional: seq<nat>
    var data: seq<byte>

    ghost function Val(): Response
      reads this
    {
      Response(service, status, additional, data)
    }

    constructor (service: byte, status: byte)
      ensures Val() == Response(service, status, [], [])
    {
      this.service, this.status, additional, data := service, status, [], [];
    }

    function SerializedCount(): (n: nat)
      reads this
      ensures n == CountResponse(Val())
    {
      4 + 2 * |additional| + |data|
    }

    method Serialize(out: BufWriter)
      requires out.Valid()
      modifies out, out.buf
      ensures out.Valid() && Val() == old(Val()) && out.sent == old(out.sent) + PutResponse(Val())
    {
      hide PutWords, BufWriter.Valid;
      out.Put8(ReplyService(service));
      out.Put8(0);
      out.Put8(status);
      out.Put8(|additional|);
      SerializeAdditional(out);
      out.Append(data);
    }

    method SerializeAdditional(out: BufWriter)
      requires out.Valid()
      modifies out, out.buf
      ensures out.Valid() && Val() == old(Val()) && out.sent == old(out.sent) + PutWords(additional)
    {
      ghost var head := out.sent;
      var i := 0;
      while i < |additional|
        invariant 0 <= i <= |additional| && out.Valid() && Val() == old(Val())
        invariant out.sent + PutWords(additional[i..]) == head + PutWords(additional)
      {
        assert additional[i..][1..] == additional[i + 1..];
        out.PutLE16(additional[i]);
        i := i + 1;
      }
      assert out.sent + [] == out.sent;
    }
  }

  class Cpf {
    var addr: AddressItem
    var dataType: DataType
    var range: seq<byte>
    var payload: CipMessageRouterResponse?
    var rxOT: Option<Sock>
    var rxTO: Option<Sock>
    var txOT: Option<Sock>
    var txTO: Option<Sock>

    /** What would be sent. */
    ghost function Out(): Packet
      reads this, payload
    {
      Packet(addr, dataType, if payload == null then None else Some(payload.Val()), range, txOT, txTO)
    }

    /** What was received. */
    ghost function In(): Received
      reads this
    {
      Received(addr, dataType, range, rxOT, rxTO)
    }

    constructor ()
      ensures In() == EMPTY && payload == null
    {
      addr, dataType, range, payload := AddressItem(NoAddress, 0, 0), NoData, [], null;
      rxOT, rxTO, txOT, txTO := None, None, None, None;
    }

    constructor ToSend(addr: AddressItem, dataType: DataType)
      ensures Out() == Packet(addr, dataType, None, [], None, None)
    {
      this.addr, this.dataType, range, payload := addr, dataType, [], null;
      rxOT, rxTO, txOT, txTO := None, None, None, None;
    }

    // ----- Lengths and writing

    method SerializedCount() returns (count: nat)
      ensures count == CountPacket(Out())
    {
      hide CountResponse;
      count := 2;
      match addr.kind {
        case NullAddress => count := count + 4;
        case ConnectedAddress => count := count + 8;
        case SequencedAddress => count := count + 12;
        case NoAddress =>
      }
      if dataType != NoData {
        count := count + 4;
        if payload != null {
          if dataType == ConnectedData {
            count := count + payload.SerializedCount() + 2;
          } else {
            count := count + payload.SerializedCount();
          }
        } else {
          count := count + 4 + |range|;
        }
      }
      if txOT.Some? { count := count + 20; }
      if txTO.Some? { count := count + 20; }
    }

    method SerializeAddr(out: BufWriter)
      requires out.Valid()
      modifies out, out.buf
      ensures out.Valid() && out.sent == old(out.sent) + PutAddr(addr)
    {
      hide Put16, Put32, BufWriter.Valid;
      match addr.kind {
        case NullAddress =>
          out.PutLE16(NULL_ADDRESS);
          out.PutLE16(0);
        case ConnectedAddress =>
          out.PutLE16(CONNECTED_ADDRESS);
          out.PutLE16(4);
          out.PutLE32(addr.cid);
        case SequencedAddress =>
          out.PutLE16(SEQUENCED_ADDRESS);
          out.PutLE16(8);
          out.PutLE32(addr.cid);
          out.PutLE32(addr.seqNum);
        case NoAddress =>
      }
    }

    method SerializeData(out: BufWriter)
      requires out.Valid()
      modifies out, out.buf
      ensures out.Valid() && Out() == old(Out()) && out.sent == old(out.sent) + PutDataItem(Out())
    {
      hide Put16, PutResponse, CountResponse, BufWriter.Valid;
      if dataType == NoData { return; }
      out.PutLE16(DataId(dataType));
      if payload != null {
        if dataType == ConnectedData {
          out.PutLE16(payload.SerializedCount() + 2);
          out.PutLE16(addr.seqNum);
        } else {
          out.PutLE16(payload.SerializedCount());
        }
        payload.Serialize(out);
      } else {
        out.PutLE16(|range|);
        out.Append(range);
      }
    }

    static method SerializeSock(out: BufWriter, id: nat, s: Sock)
      requires out.Valid()
      modifies out, out.buf
      ensures out.Valid() && out.sent == old(out.sent) + PutSock(id, Some(s))
    {
      hide Put16, Put16BE, Put32BE, BufWriter.Valid;
      out.PutLE16(id);
      out.PutLE16(16);
      out.PutBE16(s.family);
      out.PutBE16(s.port);
      out.PutBE32(s.addr);
      out.Fill(8);
    }

    /** Cpf::Serialize. */
    method Serialize(out: BufWriter)
      requires out.Valid()
      modifies out, out.buf
      ensures out.Valid() && Out() == old(Out()) && out.sent == old(out.sent) + PutPacket(Out())
    {
      hide Put16, PutAddr, PutDataItem, PutSock, BufWriter.Valid;
      out.PutLE16(One(addr.kind != NoAddress) + One(dataType != NoData) + One(txOT.Some?) + One(txTO.Some?));
      SerializeAddr(out);
      SerializeData(out);
      NoSock(SOCKADDR_O_T);
      NoSock(SOCKADDR_T_O);
      if txOT.Some? { SerializeSock(out, SOCKADDR_O_T, txOT.value); }
      if txTO.Some? { SerializeSock(out, SOCKADDR_T_O, txTO.value); }
      Grouped(old(out.sent), Put16(Items(Out())), PutAddr(addr), PutDataItem(Out()), PutSock(SOCKADDR_O_T, txOT), PutSock(SOCKADDR_T_O, txTO));
    }

    static lemma Grouped(w: seq<byte>, a: seq<byte>, b: seq<byte>, c: seq<byte>, d: seq<byte>, e: seq<byte>)
      ensures w + a + b + c + d + e == w + (a + (b + (c + (d + e))))
    {
    }

    // ----- Reading

    /** The address item past its type and length. */
    method DeserializeAddr(kind: AddrType, length: nat, s: seq<byte>) returns (rest: Option<seq<byte>>)
      modifies this`addr
      ensures match ReadAddr(old(addr).(kind := kind), length, s)
              case Fail => rest.None?
              case Got(a, left) => rest == Some(left) && addr == a
    {
      var inp := s;
      addr := addr.(kind := kind);
      if length >= 4 {
        if |inp| < 4 { return None; }
        addr := addr.(cid := Get32(inp));
        inp := inp[4..];
      }
      if length == 8 {
        if |inp| < 4 { return None; }
        addr := addr.(seqNum := Get32(inp));
        inp := inp[4..];
      }
      rest := Some(inp);
    }

    method DeserializeSock(id: nat, s: seq<byte>) returns (rest: Option<seq<byte>>)
      requires id == SOCKADDR_O_T || id == SOCKADDR_T_O
      modifies this`rxOT, this`rxTO
      ensures match ReadSock(s)
              case Fail => rest.None?
              case Got(k, left) => rest == Some(left)
                                   && rxOT == (if id == SOCKADDR_O_T then Some(k) else old(rxOT))
                                   && rxTO == (if id == SOCKADDR_O_T then old(rxTO) else Some(k))
    {
      hide Get16BE, Get32BE;
      if |s| < 16 { return None; }
      var k := Sock(Get16BE(s), Get16BE(s[2..]), Get32BE(s[4..]));
      if id == SOCKADDR_O_T { rxOT := Some(k); } else { rxTO := Some(k); }
      rest := Some(s[16..]);
    }

    method DeserializeItem(id: nat, length: nat, s: seq<byte>) returns (rest: Option<seq<byte>>)
      modifies this`addr, this`dataType, this`range, this`rxOT, this`rxTO
      ensures match ReadItem(old(In()), id, length, s)
              case Fail => rest.None?
              case Got(r, left) => rest == Some(left) && In() == r
    {
      hide ReadAddr, ReadSock;
      if id == NULL_ADDRESS {
        rest := DeserializeAddr(NullAddress, length, s);
      } else if id == CONNECTED_ADDRESS {
        rest := DeserializeAddr(ConnectedAddress, length, s);
      } else if id == SEQUENCED_ADDRESS {
        rest := DeserializeAddr(SequencedAddress, length, s);
      } else if id == CONNECTED_DATA || id == UNCONNECTED_DATA {
        if |s| < length { return None; }
        dataType := if id == CONNECTED_DATA then ConnectedData else UnconnectedData;
        range := s[..length];
        rest := Some(s[length..]);
      } else if id == SOCKADDR_O_T || id == SOCKADDR_T_O {
        if length != 16 { return None; }
        rest := DeserializeSock(id, s);
      } else {
        rest := None;
      }
    }

    /** DeserializeCpf: the loop over the counted items. */
    method DeserializeCpf(s: seq<byte>) returns (rest: Option<seq<byte>>)
      requires In() == EMPTY
      modifies this`addr, this`dataType, this`range, this`rxOT, this`rxTO
      ensures match ReadPacket(s)
              case Fail => rest.None?
              case Got(r, left) => rest == Some(left) && In() == r
    {
      hide ReadItem, Take16;
      var t := Take16(s);
      if t.Fail? { return None; }
      var n := t.value;
      var inp := t.rest;
      while n > 0
        invariant ReadPacket(s) == ReadItems(In(), n, inp)
      {
        var id := Take16(inp);
        if id.Fail? { return None; }
        var length := Take16(id.rest);
        if length.Fail? { return None; }
        rest := DeserializeItem(id.value, length.value, length.rest);
        if rest.None? { return; }
        inp := rest.value;
        n := n - 1;
      }
      rest := Some(inp);
    }
  }
}
