/** Where everything is on the wire, in bytes: headers, items, segments and requests at the
    offsets, with the codes and in the byte order that the protocol gives them. */
module WireFormat {
  import opened Words
  import opened Bytes
  import opened EPathSpec
  import opened EPathCodec
  import opened ConnPathCodec
  import opened CpfSpec
  import opened CpfCodec
  import ForwardOpen
  import MessageRouter
  import IoFrame
  import Negotiation

  // ----- Numbers

  /** Numbers have their low byte first; only socket addresses have it last. */
  lemma ByteOrder()
    ensures Put16(0x1234) == [0x34, 0x12] && Put32(0x12345678) == [0x78, 0x56, 0x34, 0x12]
    ensures Put16BE(0x1234) == [0x12, 0x34] && Put32BE(0x12345678) == [0x12, 0x34, 0x56, 0x78]
  {
  }

  // ----- The encapsulation header (section 2-3.1 of CIP Volume 2)

  /** Command, length, session handle, status, context and options, and for the two commands that
      carry data the interface handle and the timeout. */
  lemma HeaderOffsets(h: Header)
    requires |h.context| == 8
    ensures var s := PutHeader(h);
            && |s| == (if h.command == 0x6F || h.command == 0x70 then 30 else 24)
            && s[0..2] == Put16(h.command) && s[2..4] == Put16(h.length)
            && s[4..8] == Put32(h.session) && s[8..12] == Put32(h.status)
            && s[12..20] == h.context && s[20..24] == Put32(h.options)
            && (h.command == 0x6F || h.command == 0x70 ==> s[24..28] == Put32(h.iface) && s[28..30] == Put16(h.timeout))
  {
    hide Put16, Put32;
    var big := if IsBig(h.command) then Put32(h.iface) + Put16(h.timeout) else [];
    assert PutHeader(h) == Put16(h.command) + Put16(h.length) + Put32(h.session) + Put32(h.status) + h.context + Put32(h.options) + big;
  }

  // ----- The items of a common packet (section 2-6 of CIP Volume 2)

  lemma AddressBytes(a: AddressItem)
    ensures PutAddr(a) == match a.kind
            case NoAddress => []
            case NullAddress => [0, 0, 0, 0]
            case ConnectedAddress => [0xA1, 0, 4, 0] + Put32(a.cid)
            case SequencedAddress => [2, 0x80, 8, 0] + Put32(a.cid) + Put32(a.seqNum)
  {
    hide Put32;
    assert Put16(0) == [0, 0] && Put16(0xA1) == [0xA1, 0] && Put16(4) == [4, 0] && Put16(0x8002) == [2, 0x80] && Put16(8) == [8, 0];
  }

  /** The data item: connected 0xB1, with the sequence count in front of a reply, or unconnected
      0xB2, and the number of bytes that follow. */
  lemma DataItemBytes(p: Packet)
    requires p.data != NoData && (p.payload.Some? ==> |p.payload.value.additional| <= MAX_ADDITIONAL && WordsOk(p.payload.value.additional))
    ensures var body := if p.payload.None? then p.range
                        else if p.data == ConnectedData then Put16(p.addr.seqNum) + PutResponse(p.payload.value)
                        else PutResponse(p.payload.value);
            PutDataItem(p) == [if p.data == ConnectedData then 0xB1 else 0xB2, 0] + Put16(|body|) + body
  {
    hide PutResponse;
    if p.payload.Some? { ResponseRoundTrip(p.payload.value); }
    assert Put16(0xB1) == [0xB1, 0] && Put16(0xB2) == [0xB2, 0];
  }

  /** A socket address item is 16 bytes: family, port and address, high bytes first, and zeros. */
  lemma SocketBytes(id: nat, k: Sock)
    ensures var s := PutSock(id, Some(k));
            && |s| == 20 && s[0..2] == Put16(id) && s[2..4] == [16, 0]
            && s[4..6] == Put16BE(k.family) && s[6..8] == Put16BE(k.port) && s[8..12] == Put32BE(k.addr)
            && s[12..20] == [0, 0, 0, 0, 0, 0, 0, 0]
  {
    hide Put16, Put16BE, Put32BE;
    assert PutSock(id, Some(k)) == Put16(id) + Put16(16) + Put16BE(k.family) + Put16BE(k.port) + Put32BE(k.addr) + Zeros(8);
    assert Put16(16) == [16, 0] by { Sixteen(); }
  }

  lemma Sixteen()
    ensures Put16(16) == [16, 0]
  {
  }

  /** A packet: the number of items, the address, the data, then O->T (0x8000) and T->O (0x8001)
      socket addresses, each if it is there. */
  lemma PacketOffsets(p: Packet)
    ensures var s := PutPacket(p);
            var n := (if p.addr.kind == NoAddress then 0 else 1) + (if p.data == NoData then 0 else 1)
                     + (if p.txOT.Some? then 1 else 0) + (if p.txTO.Some? then 1 else 0);
            var a := 2 + |PutAddr(p.addr)|;
            var d := a + |PutDataItem(p)|;
            var o := d + if p.txOT.Some? then 20 else 0;
            && |s| == o + (if p.txTO.Some? then 20 else 0)
            && s[0..2] == [n, 0] && s[2..a] == PutAddr(p.addr) && s[a..d] == PutDataItem(p)
            && (p.txOT.Some? ==> s[d..o] == PutSock(0x8000, p.txOT))
            && (p.txTO.Some? ==> s[o..] == PutSock(0x8001, p.txTO))
  {
    hide Put16, Put16BE, Put32BE, PutAddr, PutDataItem, PutSock;
    SmallCount(Items(p));
    SockLength(0x8000, p.txOT);
    SockLength(0x8001, p.txTO);
    Consecutive(Put16(Items(p)), PutAddr(p.addr), PutDataItem(p), PutSock(0x8000, p.txOT), PutSock(0x8001, p.txTO));
  }

  lemma Consecutive(a: seq<byte>, b: seq<byte>, c: seq<byte>, d: seq<byte>, e: seq<byte>)
    ensures var s := a + (b + (c + (d + e)));
            var i := |a| + |b|;
            var j := i + |c|;
            var k := j + |d|;
            && |s| == k + |e|
            && s[0..|a|] == a && s[|a|..i] == b && s[i..j] == c && s[j..k] == d && s[k..] == e
  {
    assert a + (b + (c + (d + e))) == a + b + c + d + e;
  }

  lemma SmallCount(n: nat)
    requires n < 256
    ensures Put16(n) == [n, 0]
  {
  }

  lemma SockLength(id: nat, k: Option<Sock>)
    ensures |PutSock(id, k)| == if k.Some? then 20 else 0
  {
    hide Put16, Put16BE, Put32BE;
  }

  // ----- Message router messages (section 2-4 of CIP Volume 1)

  /** A reply: the service with its reply bit, a reserved byte, the status, the additional words
      behind their number, the data. */
  lemma ResponseOffsets(r: Response)
    requires |r.additional| < 256
    ensures var s := PutResponse(r);
            var n := |r.additional|;
            && |s| == 4 + 2 * n + |r.data|
            && s[0] % 128 == r.service % 128 && s[0] >= 128 && s[1] == 0 && s[2] == r.status && s[3] == n
            && (forall k :: 0 <= k < n ==> s[4 + 2 * k..6 + 2 * k] == Put16(r.additional[k]))
            && s[4 + 2 * n..] == r.data
  {
    hide Put16, PutWords;
    var w := PutWords(r.additional);
    var s := PutResponse(r);
    assert s[4..4 + |w|] == w;
    forall k | 0 <= k < |r.additional| ensures s[4 + 2 * k..6 + 2 * k] == Put16(r.additional[k]) {
      WordAt(r.additional, k);
      assert s[4 + 2 * k..6 + 2 * k] == w[2 * k..2 * k + 2];
    }
  }

  lemma {:induction false} WordAt(ws: seq<nat>, k: nat)
    requires k < |ws|
    ensures PutWords(ws)[2 * k..2 * k + 2] == Put16(ws[k])
  {
    hide Put16;
    if k > 0 {
      WordAt(ws[1..], k - 1);
      assert PutWords(ws)[2 * k..2 * k + 2] == PutWords(ws[1..])[2 * (k - 1)..2 * (k - 1) + 2];
    }
  }

  /** A request: the service, the path behind the number of its words, the data. */
  lemma RequestOffsets(r: MessageRouter.Request)
    requires r.path.tag.Some? ==> |r.path.tag.value| <= MAX_TAG
    ensures var s := MessageRouter.PutRequest(r);
            var path := PutApp(r.path, Plain(false));
            && s[0] == r.service && |path| == 2 * s[1] as int && s[2..2 + |path|] == path && s[2 + |path|..] == r.data
  {
    hide PutApp;
    MessageRouter.PathEven(r.path, Plain(false));
  }

  /** A request whose path starts with an electronic key is read as if the key were not there. */
  lemma KeyIsSkipped(service: byte, key: seq<byte>, path: seq<byte>, data: seq<byte>)
    requires |key| == 10 && key[0] == 0x34 && key[1] == 4 && path != [] && path[0] != 0x34
    requires |path| % 2 == 0 && |path| <= 400
    ensures var plain := [service, U8(|path| / 2)] + path + data;
            var keyed := [service, U8(|key + path| / 2)] + (key + path) + data;
            MessageRouter.ReadRequest(keyed) == MessageRouter.ReadRequest(plain)
  {
    hide ReadApp, MessageRouter.ReadRequest, MessageRouter.SkipKey;
    RequestIsRead(service, path, data);
    RequestIsRead(service, key + path, data);
    KeyGoes(key, path);
  }

  lemma KeyGoes(key: seq<byte>, path: seq<byte>)
    requires |key| == 10 && key[0] == 0x34 && key[1] == 4 && path != [] && path[0] != 0x34
    ensures MessageRouter.SkipKey(key + path) == MessageRouter.SkipKey(path) == Some(path)
  {
    assert (key + path)[10..] == path;
  }

  /** How a request is taken apart. */
  lemma RequestIsRead(service: byte, path: seq<byte>, data: seq<byte>)
    requires |path| % 2 == 0 && |path| <= 510
    ensures MessageRouter.ReadRequest([service, U8(|path| / 2)] + path + data) ==
            match MessageRouter.SkipKey(path)
            case None => None
            case Some(rest) =>
              match ReadApp(rest, None, false)
              case Fail => None
              case Got(p, left) => Some(MessageRouter.Request(service, p, left + data))
  {
    hide ReadApp, MessageRouter.SkipKey;
    var s := [service, U8(|path| / 2)] + path + data;
    assert s[2..2 + |path|] == path && s[2 + |path|..] == data;
  }

  /** A forward close: priority and ticks, the triad, the number of words of the path, a reserved
      byte, the path (Table 3-5.21 of CIP Volume 1). */
  lemma CloseOffsets(d: ForwardOpen.ConnData, p: Path, compressed: bool)
    requires PutPath(p, false, compressed).Some?
    ensures var s := ForwardOpen.PutForwardClose(d, p, compressed).value;
            var path := PutPath(p, false, compressed).value;
            && |s| == 12 + |path|
            && s[0] == U8(d.priority) && s[1] == U8(d.ticks) && s[2..4] == Put16(d.serial) && s[4..6] == Put16(d.vendor)
            && s[6..10] == Put32(d.originator) && s[10] == U8(|path| / 2) && s[11] == 0 && s[12..] == path
  {
    hide Put16, Put32, PutPath;
  }

  // ----- I/O data (section 3-4.1 of CIP Volume 2)

  /** Class 1 data have their sequence count in front, then the run/idle word if there is one. */
  lemma BodyOffsets(class1: bool, count: nat, fmt: IoFrame.Format, runIdle: nat, data: seq<byte>)
    ensures var s := IoFrame.Body(class1, count, fmt, runIdle, data);
            var at := if class1 then 2 else 0;
            var word := fmt == IoFrame.Header32 && data != [];
            && (class1 ==> s[0..2] == Put16(count))
            && (word ==> s[at..at + 4] == Put32(runIdle) && s[at + 4..] == data)
            && (!word ==> s[at..] == data)
  {
    hide Put16, Put32;
  }

  // ----- Segments of paths (appendix C of CIP Volume 1)

  /** The codes of the logical segments. */
  lemma SegmentCodes()
    ensures SegmentOf(CLASS) == 0x20 && SegmentOf(INSTANCE) == 0x24 && SegmentOf(MEMBER1) == SegmentOf(MEMBER2) == SegmentOf(MEMBER3) == 0x28
    ensures SegmentOf(CONN_PT) == 0x2C && SegmentOf(ATTRIBUTE) == 0x30
  {
  }

  /** A logical segment in its three forms; padding follows the code in the wider ones. */
  lemma SegmentBytes(seg: byte, v: nat, packed: bool)
    requires seg <= 0x30 && v < TWO32
    ensures var pad := if packed then [] else [0];
            PutLogical(seg, v, packed) == if v < 0x100 then [seg, v]
                                          else if v < 0x1_0000 then [seg + 1] + pad + Put16(v)
                                          else [seg + 2] + pad + Put32(v)
  {
    hide Put16, Put32;
  }

  /** The segments of a whole path, in order: class, instance, attribute. */
  lemma AttributePath(c: byte, i: byte, a: byte, packed: bool)
    requires c != ASSEMBLY
    ensures PutApp(App(map[CLASS := c, INSTANCE := i, ATTRIBUTE := a], None), Plain(packed)) == [0x20, c, 0x24, i, 0x30, a]
  {
    hide PutFields, PutLogical, SegmentOf;
    var p := App(map[CLASS := c, INSTANCE := i, ATTRIBUTE := a], None);
    assert LogicalFields(p, Plain(packed)) == [CLASS, INSTANCE] + [ATTRIBUTE];
    Three(p, CLASS, INSTANCE, ATTRIBUTE, packed);
    SegmentCodes();
    SegmentBytes(0x20, c, packed);
    SegmentBytes(0x24, i, packed);
    SegmentBytes(0x30, a, packed);
  }

  lemma Three(p: App, f: nat, g: nat, h: nat, packed: bool)
    ensures PutFields(p, [f, g] + [h], packed)
         == PutLogical(SegmentOf(f), Get(p, f), packed) + (PutLogical(SegmentOf(g), Get(p, g), packed)
            + PutLogical(SegmentOf(h), Get(p, h), packed))
  {
    hide PutLogical;
    assert ([f, g] + [h])[1..] == [g, h];
    Two(p, g, h, packed);
  }

  /** A symbol: its code, its length, its characters, padding to an even number. */
  lemma SymbolBytes(tag: seq<byte>)
    requires |tag| <= MAX_TAG
    ensures PutSymbol(tag) == [0x91, |tag|] + tag + (if |tag| % 2 == 1 then [0] else [])
  {
  }

  /** The short form of a symbol, which is read but never written. */
  lemma ShortSymbolRead(tag: seq<byte>, rest: seq<byte>)
    requires |tag| < 32 && forall k :: 0 <= k < |tag| ==> tag[k] != 0
    ensures ReadSymbol([0x60 + |tag|] + tag + (if |tag| % 2 == 0 then [0] else []) + rest) == Got(Some(tag), rest)
  {
    hide CString;
    var s := [0x60 + |tag|] + tag + (if |tag| % 2 == 0 then [0] else []) + rest;
    assert s[0] / 32 == 3 && s[0] % 32 == |tag|;
    assert s[1..1 + |tag|] == tag;
    CStringWhole(tag);
  }

  /** An electronic key: its code and format, vendor, device type, product code, revision. */
  lemma KeyBytes(k: Key)
    ensures var s := PutKey(k);
            && |s| == 10 && s[0] == 0x34 && s[1] == 4 && s[2..4] == Put16(k.vendor) && s[4..6] == Put16(k.device)
            && s[6..8] == Put16(k.product) && s[8] == U8(k.major) && s[9] == U8(k.minor)
  {
    hide Put16;
  }

  /** A port: its number in the low four bits of the first byte, or 15 and then the number; bit
      four says that the length of the link address follows. */
  lemma PortBytes(p: Port)
    requires p.port < TWO16 && |p.link| <= 255
    ensures PutPortBytes(p) ==
            match (|p.link| == 1, p.port <= 15)
            case (true, true) => [p.port] + p.link
            case (true, false) => [0x0F] + Put16(p.port) + p.link
            case (false, true) => [0x10 + p.port, |p.link|] + p.link
            case (false, false) => [0x1F, |p.link|] + Put16(p.port) + p.link
  {
    hide Put16;
  }

  /** A group: key, inhibit time in microseconds (0x51), in milliseconds (0x43), port. */
  lemma GroupBytes(g: Group, packed: bool)
    requires PutGroup(g, packed).Some?
    ensures PutGroup(g, packed).value ==
            (if g.key.Some? then PutKey(g.key.value) else [])
            + (if g.inUsecs then [0x51, 2] + Put32(g.pit) else [])
            + (if g.inMsecs then [0x43, U8(g.pit / 1000)] else [])
            + (if g.port.Some? then PutPort(g.port.value, packed).value else [])
  {
    hide Put32, PutKey, PutPort;
  }

  /** The 16 bit form of the inhibit time, which is read but never written. */
  lemma ShortInhibitRead(v: nat, rest: seq<byte>)
    requires v < TWO16
    ensures ReadUsecs([0x51, 1] + Put16(v) + rest) == Got(v, rest)
  {
    hide Put16, Get16;
    var s := [0x51, 1] + Put16(v) + rest;
    assert s[2..] == Put16(v) + rest;
    Got16(v, rest);
    assert s[4..] == s[2..][2..];
  }

  /** A data segment: its code, the number of its words, the words. */
  lemma DataSegmentBytes(words: seq<nat>)
    requires |words| <= 255
    ensures PutData(words) == Some([0x80, |words|] + PutWords(words))
    ensures forall k :: 0 <= k < |words| ==> PutWords(words)[2 * k..2 * k + 2] == Put16(words[k])
  {
    hide Put16, PutWords;
    forall k | 0 <= k < |words| ensures PutWords(words)[2 * k..2 * k + 2] == Put16(words[k]) {
      WordAt(words, k);
    }
  }

  /** What compression leaves out: a class, an instance and a connection point that the path before
      has too, the latter two only in front of an attribute or a connection point. */
  lemma CompressedBytes(packed: bool)
    ensures var first := App(map[CLASS := ASSEMBLY, INSTANCE := 100], None);
            var next := App(map[CLASS := ASSEMBLY, INSTANCE := 101], None);
            PutApp(next, CtlAfter(Some(first), next, packed)) == [0x24, 101]
    ensures var first := App(map[CLASS := 6, INSTANCE := 1, ATTRIBUTE := 2], None);
            var next := App(map[CLASS := 6, INSTANCE := 1, ATTRIBUTE := 3], None);
            PutApp(next, CtlAfter(Some(first), next, packed)) == [0x30, 3]
    ensures var first := App(map[CLASS := ASSEMBLY, CONN_PT := 9], None);
            var next := App(map[CLASS := ASSEMBLY, CONN_PT := 9, ATTRIBUTE := 3], None);
            PutApp(next, CtlAfter(Some(first), next, packed)) == [0x30, 3]
  {
    hide PutLogical, PutFields, SegmentOf;
    SegmentCodes();
    SegmentBytes(0x24, 101, packed);
    SegmentBytes(0x30, 3, packed);
    var a := App(map[CLASS := ASSEMBLY, INSTANCE := 101], None);
    var b := App(map[CLASS := 6, INSTANCE := 1, ATTRIBUTE := 3], None);
    var c := App(map[CLASS := ASSEMBLY, CONN_PT := 9, ATTRIBUTE := 3], None);
    assert LogicalFields(a, CtlAfter(Some(App(map[CLASS := ASSEMBLY, INSTANCE := 100], None)), a, packed)) == [INSTANCE];
    assert LogicalFields(b, CtlAfter(Some(App(map[CLASS := 6, INSTANCE := 1, ATTRIBUTE := 2], None)), b, packed)) == [ATTRIBUTE];
    assert LogicalFields(c, CtlAfter(Some(App(map[CLASS := ASSEMBLY, CONN_PT := 9], None)), c, packed)) == [ATTRIBUTE];
    OneField(a, INSTANCE, packed);
    OneField(b, ATTRIBUTE, packed);
    OneField(c, ATTRIBUTE, packed);
  }

  lemma OneField(p: App, f: nat, packed: bool)
    ensures PutFields(p, [f], packed) == PutLogical(SegmentOf(f), Get(p, f), packed)
  {
    hide PutLogical;
    assert [f][1..] == [];
    assert PutFields(p, [], packed) == [];
  }

  // ----- What paths mean

  /** The object a path is about: the instance, and for an assembly without one the connection
      point. A path is enough for it if it has a class and one of these. */
  lemma ObjectOfPath(c: byte, i: nat, pt: nat)
    requires c != ASSEMBLY
    ensures var both := App(map[CLASS := ASSEMBLY, INSTANCE := i, CONN_PT := pt], None);
            GetInstanceOrConnPt(both) == i && IsSufficient(both)
    ensures var point := App(map[CLASS := ASSEMBLY, CONN_PT := pt], None);
            GetInstanceOrConnPt(point) == pt && IsSufficient(point)
    ensures var other := App(map[CLASS := c, CONN_PT := pt], None);
            GetInstanceOrConnPt(other) == 0 && !IsSufficient(other)
    ensures var plain := App(map[CLASS := c, INSTANCE := i, CONN_PT := pt], None);
            GetInstanceOrConnPt(plain) == i && IsSufficient(plain)
    ensures !IsSufficient(App(map[INSTANCE := i], None)) && !IsSufficient(App(map[CLASS := ASSEMBLY], None))
  {
  }

  /** With another class, too, an instance is left out in front of a connection point. */
  lemma CompressedPoint(packed: bool)
    ensures var first := App(map[CLASS := 6, INSTANCE := 1], None);
            var next := App(map[CLASS := 6, INSTANCE := 1, CONN_PT := 2], None);
            PutApp(next, CtlAfter(Some(first), next, packed)) == [0x2C, 2]
  {
    hide PutLogical, PutFields, SegmentOf;
    SegmentCodes();
    SegmentBytes(0x2C, 2, packed);
    var next := App(map[CLASS := 6, INSTANCE := 1, CONN_PT := 2], None);
    assert LogicalFields(next, CtlAfter(Some(App(map[CLASS := 6, INSTANCE := 1], None)), next, packed)) == [CONN_PT];
    OneField(next, CONN_PT, packed);
  }

  /** How many slots of a connection path are filled, wherever they are; the first always counts. */
  lemma CountOfPaths(a: App, b: App, c: App)
    ensures Negotiation.PathCount([a, b, c]) ==
            match (HasAny(b), HasAny(c)) case (false, false) => 1 case (true, true) => 3 case _ => 2
  {
  }

  // ----- Forms that are read but never written

  /** The 32 bit form of a logical segment: a byte is skipped in front of the id, one more than is
      written, and the id is signed. */
  lemma WideIdRead(v: nat, x: byte, rest: seq<byte>, packed: bool)
    requires v < TWO32
    ensures ReadValue((if packed then [] else [0]) + ([x] + (Put32(v) + rest)), 2, packed)
         == Got(if v < TWO31 then v else v - TWO32, rest)
  {
    hide Put32, Get32;
    var pad: seq<byte> := if packed then [] else [0];
    var s := pad + ([x] + (Put32(v) + rest));
    assert s[|pad| + 1..] == Put32(v) + rest;
    Got32(v, rest);
    assert s[|pad| + 5..] == s[|pad| + 1..][4..];
  }

  /** A symbol ends at its first zero byte. */
  lemma {:induction false} SymbolEndsAtZero(a: seq<byte>, b: seq<byte>)
    requires forall k :: 0 <= k < |a| ==> a[k] != 0
    ensures CString(a + [0] + b) == a
  {
    if a != [] {
      assert (a + [0] + b)[1..] == a[1..] + [0] + b;
      SymbolEndsAtZero(a[1..], b);
    } else {
      assert ([] + [0] + b)[0] == 0;
    }
  }

  /** An address item of any length from 4 on sets the connection id, one of 8 the sequence number
      as well; a shorter one sets neither. */
  lemma AddressOfLength(a: AddressItem, length: nat, cid: nat, n: nat, rest: seq<byte>)
    requires cid < TWO32 && n < TWO32
    ensures ReadAddr(a, length, Put32(cid) + (Put32(n) + rest)) ==
            if length < 4 then Got(a, Put32(cid) + (Put32(n) + rest))
            else if length == 8 then Got(a.(cid := cid, seqNum := n), rest)
            else Got(a.(cid := cid), Put32(n) + rest)
  {
    hide Put32, ForwardOpen.Take32;
    ForwardOpen.Took32(cid, Put32(n) + rest);
    ForwardOpen.Took32(n, rest);
  }

  // ----- What is refused

  /** A key of another format, and one that is cut short. */
  lemma KeysRefused(s: seq<byte>)
    requires s != [] && s[0] == 0x34 && (|s| < 10 || s[1] != 4)
    ensures ReadKey(s) == Fail && MessageRouter.SkipKey(s) == None
  {
  }

  /** A group cannot be written exactly when its time in milliseconds does not fit a byte or its
      link address is too long; a data segment when it has too many words. */
  lemma NotWritable(g: Group, words: seq<nat>, packed: bool)
    ensures PutGroup(g, packed).None? <==> (g.inMsecs && g.pit > 255999) || (g.port.Some? && |g.port.value.link| > 255)
    ensures PutData(words).None? <==> |words| > 255
  {
    hide PutPort, PutKey, Put32, PutWords;
  }

  /** A reply with more additional words than there is room for, or cut short. */
  lemma RepliesRefused(s: seq<byte>)
    requires |s| < 4 || s[3] > 2 || |s| < 4 + 2 * s[3] as int
    ensures ReadResponse(s) == None
  {
    if |s| >= 4 { WordsCutShort(s[4..], s[3]); }
  }

  lemma {:induction false} WordsCutShort(s: seq<byte>, n: nat)
    ensures ReadWords(s, n).Fail? <==> |s| < 2 * n
    decreases n
  {
    if n > 0 && |s| >= 2 {
      WordsCutShort(s[2..], n - 1);
    }
  }

  /** A socket address item of any length but 16, an item of any other id, and data that are cut
      short. */
  lemma ItemsRefused(r: Received, id: nat, length: nat, s: seq<byte>)
    ensures (id == 0x8000 || id == 0x8001) && (length != 16 || |s| < 16) ==> ReadItem(r, id, length, s) == Fail
    ensures (id == 0xB1 || id == 0xB2) && |s| < length ==> ReadItem(r, id, length, s) == Fail
    ensures id !in {0, 0xA1, 0x8002, 0xB1, 0xB2, 0x8000, 0x8001} ==> ReadItem(r, id, length, s) == Fail
  {
  }

  /** A forward open is too short for its fields, or its words do not account for the bytes that are
      left, or its path does not parse. */
  lemma OpensRefused(s: seq<byte>, large: bool)
    ensures var r := ForwardOpen.ReadForwardOpen(s, large);
            match ForwardOpen.ReadFields(s, large)
            case Fail => r == ForwardOpen.NoReply
            case Got(_, left) =>
              if left == [] then r == ForwardOpen.NoReply
              else
                var announced, there := 2 * left[0] as int, |left| - 1;
                && (r == ForwardOpen.TooMuchData <==> announced < there)
                && (r == ForwardOpen.NotEnoughData <==> announced > there)
                && (r == ForwardOpen.BadPath <==> announced == there && ReadPath(left[1..], false).None?)
  {
    hide ForwardOpen.ReadFields, ReadPath;
  }

  /** Likewise a forward close; too short for its fields means fewer than twelve bytes. */
  lemma ClosesRefused(s: seq<byte>)
    ensures var r := ForwardOpen.ReadForwardClose(s);
            && (r == ForwardOpen.CloseNoReply <==> |s| < 12)
            && (|s| >= 12 ==>
                  && (r == ForwardOpen.CloseTooMuchData <==> 2 * s[10] as int < |s| - 12)
                  && (r == ForwardOpen.CloseNotEnoughData <==> 2 * s[10] as int > |s| - 12))
  {
    hide Get16, Get32;
    if |s| >= 10 {
      assert s[2..][2..][2..][4..] == s[10..];
    }
  }
}
