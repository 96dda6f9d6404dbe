/** I/O data end to end: the datagram a producer builds, the packet the consumer parses, and
    the assembly bytes that arrive (sections 3-4.1 and 3-4.2 of CIP Volume 2). */
module IoFrame {
  import opened Words
  import opened Bytes
  import opened EPathSpec
  import opened CpfSpec
  import opened CpfCodec
  import opened CpfObjects
  import C = ConnSpec

  datatype Format = Modeless | Header32

  // ----- Producing

  /** What follows the length of the data item: the sequence count in class 1, the run/idle
      word in front of data, the data. */
  function Body(class1: bool, count: nat, fmt: Format, runIdle: nat, data: seq<byte>): seq<byte> {
    (if class1 then Put16(count) else [])
    + ((if fmt == Header32 && data != [] then Put32(runIdle) else []) + data)
  }

  /** A class 0 datagram has no place for the encapsulation sequence number. */
  function FramePacket(cls: nat, cid: nat, eipSeq: nat, body: seq<byte>): Packet {
    Packet(AddressItem(if cls == 0 then ConnectedAddress else SequencedAddress, cid, eipSeq), ConnectedData, None, body, None, None)
  }

  /** The datagram of CipConn::SendConnectedData. */
  function Frame(cls: nat, cid: nat, eipSeq: nat, count: nat, fmt: Format, runIdle: nat, data: seq<byte>): seq<byte> {
    PutPacket(FramePacket(cls, cid, eipSeq, Body(cls == 1, count, fmt, runIdle, data)))
  }

  // ----- Consuming

  /** What HandleReceivedIoConnectionData does with the bytes of a data item. */
  datatype Delivery =
    | Throws                        // too short for its header
    | Duplicate                     // the sequence count is not newer
    | Heartbeat                     // nothing behind the count
    | WrongAmount                   // not what the assembly takes
    | Stored(data: seq<byte>, runIdle: Option<nat>)

  /** AssemblyInstance::RecvData's check. */
  predicate Fits(fixed: bool, size: nat, n: nat) {
    if fixed then n == size else n <= size
  }

  function HandleData(fmt: Format, fixed: bool, size: nat, s: seq<byte>): Delivery {
    if s == [] then Heartbeat
    else if fmt == Header32 && |s| < 4 then Throws
    else
      var d := if fmt == Header32 then s[4..] else s;
      if !Fits(fixed, size, |d|) then WrongAmount
      else Stored(d, if fmt == Header32 then Some(Get32(s)) else None)
  }

  /** HandleReceivedIoConnectionData: `last` is the sequence count taken last. */
  function HandleIo(cls: nat, last: nat, fmt: Format, fixed: bool, size: nat, s: seq<byte>): Delivery {
    if cls != 1 then HandleData(fmt, fixed, size, s)
    else if |s| < 2 then Throws
    else if Diff16(Get16(s), last) <= 0 then Duplicate
    else HandleData(fmt, fixed, size, s[2..])
  }

  /** The count is newer than the one taken last, where there is a count. */
  predicate IsNewer(cls: nat, last: nat, s: seq<byte>)
    requires cls == 1 ==> |s| >= 2
  {
    cls == 1 ==> Diff16(Get16(s), last) > 0
  }

  /** When each thing happens to the bytes of a data item: they are too short for their count or
      their run/idle word, their count is not newer, there is nothing behind it, or the number of
      bytes behind both is not what the assembly takes. */
  lemma DeliveredExactly(cls: nat, last: nat, fmt: Format, fixed: bool, size: nat, s: seq<byte>)
    ensures var r := HandleIo(cls, last, fmt, fixed, size, s);
            var at := if cls == 1 then 2 else 0;
            var head := at + if fmt == Header32 then 4 else 0;
            && (|s| < at ==> r == Throws)
            && (|s| >= at ==>
                  && (r == Duplicate <==> !IsNewer(cls, last, s))
                  && (r == Heartbeat <==> IsNewer(cls, last, s) && |s| == at)
                  && (r == Throws <==> IsNewer(cls, last, s) && at < |s| < head)
                  && (r.Stored? <==> IsNewer(cls, last, s) && at < |s| && head <= |s|
                                     && if fixed then |s| - head == size else |s| - head <= size)
                  && (r.Stored? ==> r.data == s[head..] && r.runIdle == if fmt == Header32 then Some(Get32(s[at..])) else None))
  {
    hide Get16, Get32, Diff16;
    if cls == 1 && |s| >= 6 { assert s[2..][4..] == s[6..]; }
  }

  // ----- End to end

  lemma BodyHandled(cls: nat, count: nat, fmt: Format, runIdle: nat, data: seq<byte>, last: nat, fixed: bool, size: nat)
    requires count < TWO16 && runIdle < TWO32 && data != [] && Fits(fixed, size, |data|)
    ensures HandleIo(cls, last, fmt, fixed, size, Body(cls == 1, count, fmt, runIdle, data)) ==
            if cls == 1 && Diff16(count, last) <= 0 then Duplicate
            else Stored(data, if fmt == Header32 then Some(runIdle) else None)
  {
    hide Put16, Put32, Get16, Get32;
    var inner := (if fmt == Header32 then Put32(runIdle) else []) + data;
    var b := Body(cls == 1, count, fmt, runIdle, data);
    if cls == 1 {
      Got16(count, inner);
      assert b == Put16(count) + inner && b[2..] == inner;
    } else {
      assert b == inner;
    }
    if fmt == Header32 {
      Got32(runIdle, data);
      assert inner[4..] == data;
    } else {
      assert inner == data;
    }
  }

  lemma BodyLength(class1: bool, count: nat, fmt: Format, runIdle: nat, data: seq<byte>)
    ensures |Body(class1, count, fmt, runIdle, data)| <= |data| + 6
  {
    hide Put16, Put32;
  }

  /** I/O end to end: the datagram parses to the same connection id and, unless class 0, the
      same encapsulation sequence number; a consumer of the same class and format whose
      assembly takes that many bytes stores exactly the producer's bytes when the count is
      new. */
  lemma FrameEndToEnd(cls: nat, cid: nat, eipSeq: nat, count: nat, fmt: Format, runIdle: nat, data: seq<byte>,
                      last: nat, fixed: bool, size: nat)
    requires cid < TWO32 && eipSeq < TWO32 && count < TWO16 && runIdle < TWO32
    requires data != [] && |data| + 6 < TWO16 && Fits(fixed, size, |data|)
    ensures var r := ReadPacket(Frame(cls, cid, eipSeq, count, fmt, runIdle, data));
            && r.Got? && r.rest == [] && r.value.data == ConnectedData
            && r.value.addr == AddressItem(if cls == 0 then ConnectedAddress else SequencedAddress, cid, if cls == 0 then 0 else eipSeq)
            && HandleIo(cls, last, fmt, fixed, size, r.value.range) ==
               (if cls == 1 && Diff16(count, last) <= 0 then Duplicate
                else Stored(data, if fmt == Header32 then Some(runIdle) else None))
  {
    hide Body, HandleIo, PutPacket, ReadPacket;
    var b := Body(cls == 1, count, fmt, runIdle, data);
    var p := FramePacket(cls, cid, eipSeq, b);
    BodyLength(cls == 1, count, fmt, runIdle, data);
    PacketRoundTrip(p, []);
    assert PutPacket(p) + [] == PutPacket(p);
    BodyHandled(cls, count, fmt, runIdle, data, last, fixed, size);
  }

  /** Where the fields of a sequenced datagram are, in bytes from its start. */
  lemma FrameOffsets(class_: nat, cid: nat, eipSeq: nat, count: nat, fmt: Format, runIdle: nat, data: seq<byte>)
    requires class_ != 0
    ensures var s := Frame(class_, cid, eipSeq, count, fmt, runIdle, data);
            var body := Body(class_ == 1, count, fmt, runIdle, data);
            && |s| == 18 + |body|
            && s[0..2] == Put16(2) && s[2..4] == Put16(0x8002) && s[4..6] == Put16(8)
            && s[6..10] == Put32(cid) && s[10..14] == Put32(eipSeq)
            && s[14..16] == Put16(0xB1) && s[16..18] == Put16(|body|) && s[18..] == body
  {
    hide Put16, Put32, Body;
    var body := Body(class_ == 1, count, fmt, runIdle, data);
    assert Frame(class_, cid, eipSeq, count, fmt, runIdle, data)
        == Put16(2) + Put16(0x8002) + Put16(8) + Put32(cid) + Put32(eipSeq) + Put16(0xB1) + Put16(|body|) + body;
  }

  // ----- The encapsulation filter over a run of frames

  /** The connection after frames with these encapsulation sequence numbers, and which of them
      the filter of RecvConnectedData let through. */
  function FilterRun(c: C.Conn, nums: seq<nat>): (r: (C.Conn, seq<bool>))
    ensures |r.1| == |nums|
    decreases |nums|
  {
    if nums == [] then (c, [])
    else
      var (d, ok) := C.Filter(c, nums[0]);
      var (e, oks) := FilterRun(d, nums[1..]);
      (e, [ok] + oks)
  }

  /** Class 0 frames all parse to number 0, so of a whole run the filter takes the first one
      and no other: class 0 data are delivered once. */
  lemma {:induction false} ClassZeroOnce(c: C.Conn, nums: seq<nat>)
    requires forall k :: 0 <= k < |nums| ==> nums[k] == 0
    ensures c.eipFirst ==> forall k :: 0 <= k < |nums| ==> (FilterRun(c, nums).1[k] <==> k == 0)
    ensures !c.eipFirst && c.eipConsuming == 0 ==> forall k :: 0 <= k < |nums| ==> !FilterRun(c, nums).1[k]
    decreases |nums|
  {
    if nums != [] {
      var (d, ok) := C.Filter(c, 0);
      ClassZeroOnce(d, nums[1..]);
    }
  }

  // ----- The objects

  class AssemblyInstance {
    const buffer: array<byte>

    constructor (buffer: array<byte>)
      ensures this.buffer == buffer
    {
      this.buffer := buffer;
    }

    /** RecvData up to the application callback: copy into the assembly's own buffer. */
    method RecvData(fixed: bool, s: seq<byte>) returns (ok: bool)
      modifies buffer
      ensures ok == Fits(fixed, buffer.Length, |s|)
      ensures buffer[..] == if ok then s + old(buffer[..])[|s|..] else old(buffer[..])
    {
      if (fixed && buffer.Length != |s|) || (!fixed && buffer.Length < |s|) {
        return false;
      }
      forall i | 0 <= i < |s| { buffer[i] := s[i]; }
      ok := true;
    }
  }

  /** The I/O side of a CipConn. */
  class IoConn {
    var cls: nat
    var cid: nat
    var eipProducing: nat
    var seqProducing: nat
    var seqConsuming: nat
    var fmt: Format
    var fixed: bool
    var runIdle: nat

    /** The head of the packet up to the length of its data item. */
    static ghost function FrameHead(a: AddressItem): seq<byte> {
      Put16(2) + (PutAddr(a) + Put16(CONNECTED_DATA))
    }

    static lemma HeadAndItem(p: Packet)
      requires p.addr.kind != NoAddress && p.data == ConnectedData && p.payload == None && p.txOT == None && p.txTO == None
      ensures PutPacket(p) == FrameHead(p.addr) + (Put16(|p.range|) + p.range)
    {
      hide Put16, PutAddr;
    }

    static lemma HeadLength(a: AddressItem)
      requires a.kind == ConnectedAddress || a.kind == SequencedAddress
      ensures |FrameHead(a)| == if a.kind == ConnectedAddress then 12 else 16
    {
      hide Put16, Put32;
    }

    /** The packet with an empty data item. */
    method StartFrame(out: BufWriter, a: AddressItem)
      requires out.Valid() && (a.kind == ConnectedAddress || a.kind == SequencedAddress)
      modifies out, out.buf
      ensures out.Valid() && out.sent == old(out.sent) + FrameHead(a) + Put16(0)
    {
      hide PutPacket, FrameHead, BufWriter.Valid;
      var cpf := new Cpf.ToSend(a, ConnectedData);
      HeadAndItem(cpf.Out());
      cpf.Serialize(out);
      assert FrameHead(a) + (Put16(0) + []) == FrameHead(a) + Put16(0);
    }

    /** The length of the data item, over the one written as zero. */
    static method WriteLength(out: BufWriter, at: nat, n: nat, ghost head: seq<byte>)
      requires out.Valid() && out.sent == head + Put16(0) && at == |head|
      modifies out, out.buf
      ensures out.Valid() && |out.sent| == |head| + 2 && (!out.overrun ==> out.sent == head + Put16(n))
    {
      out.Patch(at, n);
      out.Patch(at + 1, n / 256);
    }

    /** With an empty assembly in class 1 the run/idle word is written, but not counted. */
    ghost function Uncounted(data: seq<byte>): seq<byte>
      reads this
    {
      if data == [] && cls == 1 && fmt == Header32 then Put32(runIdle) else []
    }

    method WriteBody(out: BufWriter, data: seq<byte>, n: nat)
      requires out.Valid()
      requires n == (if cls == 1 then 2 else 0) + (if fmt == Header32 && data != [] then 4 else 0) + |data|
      modifies out, out.buf
      ensures out.Valid() && out.sent == old(out.sent) + (Body(cls == 1, seqProducing, fmt, runIdle, data) + Uncounted(data))
      ensures n == |Body(cls == 1, seqProducing, fmt, runIdle, data)|
    {
      hide Put16, Put32, BufWriter.Valid;
      if cls == 1 { out.PutLE16(seqProducing); }
      if fmt == Header32 && n > 0 { out.PutLE32(runIdle); }
      out.Append(data);
    }

    /** The item's length is set over the zero, then the data follow. */
    method FillFrame(out: BufWriter, data: seq<byte>, a: AddressItem) returns (n: nat)
      requires out.Valid() && out.sent == [] && (a.kind == ConnectedAddress || a.kind == SequencedAddress)
      modifies out, out.buf
      ensures out.Valid()
      ensures var body := Body(cls == 1, seqProducing, fmt, runIdle, data);
              && n == |body|
              && |out.sent| == |FrameHead(a)| + 2 + n + |Uncounted(data)|
              && (!out.overrun ==> out.sent == FrameHead(a) + Put16(n) + (body + Uncounted(data)))
    {
      hide Put16, Put32, Body, FrameHead, PutPacket, Uncounted;
      StartFrame(out, a);
      HeadLength(a);
      assert out.sent == FrameHead(a) + Put16(0);
      n := |data|;
      if fmt == Header32 && n > 0 { n := n + 4; }
      if cls == 1 { n := n + 2; }
      WriteLength(out, if a.kind == ConnectedAddress then 12 else 16, n, FrameHead(a));
      WriteBody(out, data, n);
    }

    /** The datagram as sent; None when it does not fit the buffer. `changed` is the answer of
        BeforeAssemblyDataSend. */
    method SendConnectedData(assembly: AssemblyInstance, reply: array<byte>, changed: bool) returns (frame: Option<seq<byte>>)
      requires reply != assembly.buffer && assembly.buffer.Length + 6 < TWO16
      modifies this`eipProducing, this`seqProducing, reply
      ensures eipProducing == U32(old(eipProducing) + 1)
      ensures seqProducing == if changed then U16(old(seqProducing) + 1) else old(seqProducing)
      ensures var f := Frame(cls, cid, eipProducing, seqProducing, fmt, runIdle, assembly.buffer[..]);
              frame == if |f| + |Uncounted(assembly.buffer[..])| <= reply.Length then Some(f) else None
    {
      hide Put16, Put32, Body, FrameHead, PutPacket, Uncounted;
      eipProducing := U32(eipProducing + 1);
      if changed { seqProducing := U16(seqProducing + 1); }
      var data := assembly.buffer[..];
      var a := AddressItem(if cls == 0 then ConnectedAddress else SequencedAddress, cid, eipProducing);
      var out := new BufWriter(reply);
      var n := FillFrame(out, data, a);
      HeadLength(a);
      ghost var body := Body(cls == 1, seqProducing, fmt, runIdle, data);
      HeadAndItem(FramePacket(cls, cid, eipProducing, body));
      if out.overrun { return None; }
      Cut(FrameHead(a), Put16(n), body, Uncounted(data), out.sent);
      var length := (if cls == 0 then 14 else 18) + n;
      frame := Some(reply[..length]);
      assert reply[..length] == out.sent[..length];
    }

    static lemma Cut(head: seq<byte>, n: seq<byte>, body: seq<byte>, more: seq<byte>, sent: seq<byte>)
      ensures sent == head + n + (body + more) ==>
                |head| + |n| + |body| <= |sent| && sent[..|head| + |n| + |body|] == head + (n + body)
    {
    }

    /** HandleReceivedIoConnectionData. */
    method HandleReceivedIoConnectionData(s: seq<byte>, assembly: AssemblyInstance) returns (d: Delivery)
      modifies this`seqConsuming, this`runIdle, assembly.buffer
      ensures d == HandleIo(cls, old(seqConsuming), fmt, fixed, assembly.buffer.Length, s)
      ensures seqConsuming == if cls == 1 && |s| >= 2 && Diff16(Get16(s), old(seqConsuming)) > 0 then Get16(s) else old(seqConsuming)
      ensures assembly.buffer[..] == if d.Stored? then d.data + old(assembly.buffer[..])[|d.data|..] else old(assembly.buffer[..])
    {
      hide Get16, Get32;
      var inp := s;
      if cls == 1 {
        if |inp| < 2 { return Throws; }
        var count := Get16(inp);
        inp := inp[2..];
        if Diff16(count, seqConsuming) <= 0 { return Duplicate; }
        seqConsuming := count;
      }
      if |inp| == 0 { return Heartbeat; }
      var word: Option<nat> := None;
      if fmt == Header32 {
        if |inp| < 4 { return Throws; }
        runIdle := Get32(inp);
        word := Some(runIdle);
        inp := inp[4..];
      }
      var ok := assembly.RecvData(fixed, inp);
      d := if ok then Stored(inp, word) else WrongAmount;
    }
  }
}
