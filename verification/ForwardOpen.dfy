/** Forward_Open requests, normal and large (Table 3-5.17 of CIP Volume 1): what an originator
    writes and what the target makes of it, with the two directions swapped. */
module ForwardOpen {
  import opened Words
  import opened Bytes
  import opened EPathSpec
  import opened EPathCodec
  import opened ConnPathCodec
  import opened PathChain
  import opened EPath
  import opened MessageRouter

  /** Network connection parameters: 16 bits, or 32 in the large form. */
  datatype Ncp = Ncp(bits: nat, large: bool)

  /** The connection data in the view of the end that holds them: consuming means consumed
      here. */
  datatype ConnData = ConnData(
    priority: nat, ticks: nat, consumingCid: nat, producingCid: nat,
    serial: nat, vendor: nat, originator: nat, multiplier: nat,
    consumingRpi: nat, consumingNcp: Ncp, producingRpi: nat, producingNcp: Ncp, trigger: nat)

  /** The same connection seen from the other end. */
  function Mirror(d: ConnData): ConnData {
    d.(consumingCid := d.producingCid, producingCid := d.consumingCid,
       consumingRpi := d.producingRpi, producingRpi := d.consumingRpi,
       consumingNcp := d.producingNcp, producingNcp := d.consumingNcp)
  }

  predicate NcpInRange(n: Ncp) {
    n.bits < (if n.large then TWO32 else TWO16)
  }

  predicate InRange(d: ConnData) {
    && d.priority < 256 && d.ticks < 256 && d.consumingCid < TWO32 && d.producingCid < TWO32
    && d.serial < TWO16 && d.vendor < TWO16 && d.originator < TWO32 && d.multiplier < 256
    && d.consumingRpi < TWO32 && d.producingRpi < TWO32 && d.trigger < 256
    && NcpInRange(d.consumingNcp) && NcpInRange(d.producingNcp)
  }

  // ----- Writing, in front of what follows

  function PutNcp(n: Ncp): seq<byte> {
    if n.large then Put32(n.bits) else Put16(n.bits)
  }

  function PutTriad(d: ConnData, rest: seq<byte>): seq<byte> {
    Put16(d.serial) + (Put16(d.vendor) + (Put32(d.originator) + rest))
  }

  /** An originator produces O->T and consumes T->O. */
  function PutRates(d: ConnData, rest: seq<byte>): seq<byte> {
    Put32(d.producingRpi) + (PutNcp(d.producingNcp)
    + (Put32(d.consumingRpi) + (PutNcp(d.consumingNcp) + ([U8(d.trigger)] + rest))))
  }

  function PutFieldsOf(d: ConnData, rest: seq<byte>): seq<byte> {
    [U8(d.priority), U8(d.ticks)] + (Put32(d.producingCid) + (Put32(d.consumingCid)
    + PutTriad(d, [U8(d.multiplier)] + (Zeros(3) + PutRates(d, rest)))))
  }

  /** ConnectionData::Serialize for a forward open, with its connection path. */
  function PutForwardOpen(d: ConnData, p: Path, compressed: bool): Option<seq<byte>> {
    match PutPath(p, false, compressed)
    case None => None
    case Some(b) => Some(PutFieldsOf(d, [U8(|b| / 2)] + b))
  }

  // ----- Reading

  function Take8(s: seq<byte>): Parse<nat> {
    if |s| < 1 then Fail else Got(s[0], s[1..])
  }

  function Take16(s: seq<byte>): Parse<nat> {
    if |s| < 2 then Fail else Got(Get16(s), s[2..])
  }

  function Take32(s: seq<byte>): Parse<nat> {
    if |s| < 4 then Fail else Got(Get32(s), s[4..])
  }

  function TakeNcp(s: seq<byte>, large: bool): Parse<Ncp> {
    match if large then Take32(s) else Take16(s)
    case Fail => Fail
    case Got(b, rest) => Got(Ncp(b, large), rest)
  }

  datatype Triad = Triad(serial: nat, vendor: nat, originator: nat)

  function TakeTriad(s: seq<byte>): Parse<Triad> {
    match Take16(s)
    case Fail => Fail
    case Got(a, s1) =>
      match Take16(s1)
      case Fail => Fail
      case Got(b, s2) =>
        match Take32(s2)
        case Fail => Fail
        case Got(c, s3) => Got(Triad(a, b, c), s3)
  }

  /** One direction: interval and parameters. */
  datatype Rate = Rate(rpi: nat, ncp: Ncp)

  function TakeRate(s: seq<byte>, large: bool): Parse<Rate> {
    match Take32(s)
    case Fail => Fail
    case Got(r, s1) =>
      match TakeNcp(s1, large)
      case Fail => Fail
      case Got(n, s2) => Got(Rate(r, n), s2)
  }

  /** What comes before the two directions; O->T is what the target consumes. */
  datatype Ids = Ids(priority: nat, ticks: nat, consumingCid: nat, producingCid: nat, triad: Triad, multiplier: nat)

  function ReadIds(s: seq<byte>): Parse<Ids> {
    if |s| < 2 then Fail
    else
      match Take32(s[2..])
      case Fail => Fail
      case Got(o2t, s1) =>
        match Take32(s1)
        case Fail => Fail
        case Got(t2o, s2) =>
          match TakeTriad(s2)
          case Fail => Fail
          case Got(t, s3) => if |s3| < 4 then Fail else Got(Ids(s[0], s[1], o2t, t2o, t, s3[0]), s3[4..])
  }

  /** DeserializeForwardOpenRequest. */
  function ReadFields(s: seq<byte>, large: bool): Parse<ConnData> {
    match ReadIds(s)
    case Fail => Fail
    case Got(i, s1) =>
      match TakeRate(s1, large)
      case Fail => Fail
      case Got(o, s2) =>
        match TakeRate(s2, large)
        case Fail => Fail
        case Got(p, s3) =>
          match Take8(s3)
          case Fail => Fail
          case Got(trigger, s4) =>
            Got(ConnData(i.priority, i.ticks, i.consumingCid, i.producingCid,
                         i.triad.serial, i.triad.vendor, i.triad.originator, i.multiplier,
                         o.rpi, o.ncp, p.rpi, p.ncp, trigger), s4)
  }

  /** What the target makes of the bytes. A request too short for the fields gets no reply;
      the path must be exactly as long as its count of words says. */
  datatype Outcome = NoReply | TooMuchData | NotEnoughData | BadPath | Parsed(data: ConnData, path: Path)

  function ReadForwardOpen(s: seq<byte>, large: bool): Outcome {
    match ReadFields(s, large)
    case Fail => NoReply
    case Got(d, s1) =>
      match Take8(s1)
      case Fail => NoReply
      case Got(words, s2) =>
        if 2 * words < |s2| then TooMuchData
        else if 2 * words > |s2| then NotEnoughData
        else match ReadPath(s2, false) case None => BadPath case Some(p) => Parsed(d, p)
  }

  // ----- Forward_Close (Table 3-5.21 of CIP Volume 1)

  /** ConnectionData::Serialize for a forward close. */
  function PutForwardClose(d: ConnData, p: Path, compressed: bool): Option<seq<byte>> {
    match PutPath(p, false, compressed)
    case None => None
    case Some(b) => Some([U8(d.priority), U8(d.ticks)] + PutTriad(d, [U8(|b| / 2), 0] + b))
  }

  /** What the target makes of it: it does not parse the path, but the path must be exactly as
      long as its count of words says. */
  datatype CloseOutcome = CloseNoReply | CloseTooMuchData | CloseNotEnoughData | CloseParsed(priority: nat, ticks: nat, triad: Triad)

  function ReadForwardClose(s: seq<byte>): CloseOutcome {
    if |s| < 2 then CloseNoReply
    else match TakeTriad(s[2..])
      case Fail => CloseNoReply
      case Got(t, s1) =>
        if |s1| < 2 then CloseNoReply
        else if 2 * s1[0] as nat < |s1| - 2 then CloseTooMuchData
        else if 2 * s1[0] as nat > |s1| - 2 then CloseNotEnoughData
        else CloseParsed(s[0], s[1], t)
  }

  // ----- Each part is read back

  lemma Took16(v: nat, rest: seq<byte>)
    requires v < TWO16
    ensures Take16(Put16(v) + rest) == Got(v, rest)
  {
    hide Get16, Put16;
    Got16(v, rest);
  }

  lemma Took32(v: nat, rest: seq<byte>)
    requires v < TWO32
    ensures Take32(Put32(v) + rest) == Got(v, rest)
  {
    hide Get32, Put32;
    Got32(v, rest);
  }

  lemma TookNcp(n: Ncp, rest: seq<byte>)
    requires NcpInRange(n)
    ensures TakeNcp(PutNcp(n) + rest, n.large) == Got(n, rest)
  {
    hide Take16, Take32, Put16, Put32;
    if n.large { Took32(n.bits, rest); } else { Took16(n.bits, rest); }
  }

  lemma TookTriad(d: ConnData, rest: seq<byte>)
    requires InRange(d)
    ensures TakeTriad(PutTriad(d, rest)) == Got(Triad(d.serial, d.vendor, d.originator), rest)
  {
    hide Take16, Take32, Put16, Put32;
    Took16(d.serial, Put16(d.vendor) + (Put32(d.originator) + rest));
    Took16(d.vendor, Put32(d.originator) + rest);
    Took32(d.originator, rest);
  }

  lemma TookRate(rpi: nat, n: Ncp, rest: seq<byte>)
    requires rpi < TWO32 && NcpInRange(n)
    ensures TakeRate(Put32(rpi) + (PutNcp(n) + rest), n.large) == Got(Rate(rpi, n), rest)
  {
    hide Take32, TakeNcp, Put32, PutNcp;
    Took32(rpi, PutNcp(n) + rest);
    TookNcp(n, rest);
  }

  lemma TookLast(v: byte, rest: seq<byte>)
    ensures Take8([v] + rest) == Got(v as nat, rest)
  {
    assert ([v] + rest)[1..] == rest;
  }

  lemma FieldsRead(d: ConnData, rest: seq<byte>)
    requires InRange(d) && d.consumingNcp.large == d.producingNcp.large
    ensures ReadFields(PutFieldsOf(d, rest), d.producingNcp.large) == Got(Mirror(d), rest)
  {
    hide Take8, Take32, TakeTriad, TakeRate, Put32, PutNcp, PutTriad;
    var last := [U8(d.trigger)] + rest;
    var second := Put32(d.consumingRpi) + (PutNcp(d.consumingNcp) + last);
    var first := PutRates(d, rest);
    var middle := [U8(d.multiplier)] + (Zeros(3) + first);
    var triad := PutTriad(d, middle);
    var s := PutFieldsOf(d, rest);
    assert s[2..] == Put32(d.producingCid) + (Put32(d.consumingCid) + triad);
    Took32(d.producingCid, Put32(d.consumingCid) + triad);
    Took32(d.consumingCid, triad);
    TookTriad(d, middle);
    assert middle[4..] == first;
    TookRate(d.producingRpi, d.producingNcp, second);
    TookRate(d.consumingRpi, d.consumingNcp, last);
    TookLast(d.trigger, rest);
  }

  /** Where Table 3-5.17 puts the fields, in bytes from the start of the request data. */
  lemma FieldOffsets(d: ConnData, rest: seq<byte>)
    ensures var s := PutFieldsOf(d, rest);
            var w := if d.producingNcp.large then 4 else 2;
            var v := if d.consumingNcp.large then 4 else 2;
            && |s| == 31 + w + v + |rest|
            && s[0] == U8(d.priority) && s[1] == U8(d.ticks)
            && s[2..6] == Put32(d.producingCid) && s[6..10] == Put32(d.consumingCid)
            && s[10..12] == Put16(d.serial) && s[12..14] == Put16(d.vendor) && s[14..18] == Put32(d.originator)
            && s[18] == U8(d.multiplier) && s[19..22] == [0, 0, 0]
            && s[22..26] == Put32(d.producingRpi) && s[26..26 + w] == PutNcp(d.producingNcp)
            && s[26 + w..30 + w] == Put32(d.consumingRpi) && s[30 + w..30 + w + v] == PutNcp(d.consumingNcp)
            && s[30 + w + v] == U8(d.trigger) && s[31 + w + v..] == rest
  {
    hide Put16, Put32;
  }

  // ----- Padded connection paths have whole words

  lemma GroupEven(g: Group)
    ensures var b := PutGroup(g, false); b.Some? ==> |b.value| % 2 == 0
  {
    hide Put16, Put32, PutPortBytes;
  }

  lemma {:induction false} AppsEven(apps: seq<App>, prev: Option<App>, compressed: bool)
    requires forall k :: 0 <= k < |apps| ==> apps[k].tag.Some? ==> |apps[k].tag.value| <= MAX_TAG
    ensures |PutApps(apps, prev, false, compressed)| % 2 == 0
    decreases |apps|
  {
    hide PutApp, CtlAfter;
    if apps != [] {
      AppsEven(apps[1..], prev, compressed);
      AppsEven(apps[1..], Some(apps[0]), compressed);
      CtlPacked(prev, apps[0], false, compressed);
      PathEven(apps[0], CtlOf(prev, apps[0], false, compressed));
    }
  }

  lemma ConnPathEven(p: Path, used: nat, compressed: bool)
    requires PathInRange(p, used) && PutPath(p, false, compressed).Some?
    ensures |PutPath(p, false, compressed).value| % 2 == 0
  {
    hide PutGroup, PutApps, PutWords;
    GroupEven(p.group);
    var apps := p.apps[..used];
    assert p.apps == apps + seq(SLOTS - used, _ => NO_APP);
    SkipEmpty(apps, SLOTS - used, None, false, compressed);
    AppsEven(apps, None, compressed);
  }

  // ----- The round trip

  /** Forward_Open mirror: the target reads what the originator wrote with the two directions
      swapped, exactly when the path's words can be counted in a byte and its application
      paths are well linked; and the count then accounts for exactly the bytes left. */
  lemma MirrorRoundTrip(d: ConnData, p: Path, used: nat, compressed: bool)
    requires InRange(d) && d.consumingNcp.large == d.producingNcp.large
    requires PathInRange(p, used) && PutPath(p, false, compressed).Some?
    ensures var b := PutPath(p, false, compressed).value;
            var r := ReadForwardOpen(PutForwardOpen(d, p, compressed).value, d.producingNcp.large);
            && (r == Parsed(Mirror(d), p) <==> |b| <= 510 && ChainOk(None, p.apps[..used], compressed))
            && (|b| > 510 <==> r == TooMuchData)
            && (|b| <= 510 ==> 2 * U8(|b| / 2) == |b|)
  {
    hide PutPath, ReadPath, ReadFields, PutFieldsOf, ChainOk, PathInRange, Take8;
    var b := PutPath(p, false, compressed).value;
    FieldsRead(d, [U8(|b| / 2)] + b);
    TookLast(U8(|b| / 2), b);
    ConnPathEven(p, used, compressed);
    PathRoundTrip(p, used, false, compressed);
  }

  /** A forward close names the connection it was written for, whatever its path, exactly when
      the words of the path can be counted in a byte. */
  lemma CloseRoundTrip(d: ConnData, p: Path, used: nat, compressed: bool)
    requires InRange(d) && PathInRange(p, used) && PutPath(p, false, compressed).Some?
    ensures var b := PutPath(p, false, compressed).value;
            var r := ReadForwardClose(PutForwardClose(d, p, compressed).value);
            && (r == CloseParsed(d.priority, d.ticks, Triad(d.serial, d.vendor, d.originator)) <==> |b| <= 510)
            && (|b| > 510 <==> r == CloseTooMuchData)
  {
    hide PutPath, PathInRange, TakeTriad, PutTriad;
    var b := PutPath(p, false, compressed).value;
    ConnPathEven(p, used, compressed);
    var rest := [U8(|b| / 2), 0] + b;
    var s := PutForwardClose(d, p, compressed).value;
    assert s[2..] == PutTriad(d, rest);
    TookTriad(d, rest);
  }

  // ----- The object

  class ConnectionData {
    var priority: nat
    var ticks: nat
    var consumingCid: nat
    var producingCid: nat
    var serial: nat
    var vendor: nat
    var originator: nat
    var multiplier: nat
    var consumingRpi: nat
    var consumingNcp: Ncp
    var producingRpi: nat
    var producingNcp: Ncp
    var trigger: nat
    const connPath: ConnectionPath

    ghost function Val(): ConnData
      reads this
    {
      ConnData(priority, ticks, consumingCid, producingCid, serial, vendor, originator, multiplier,
               consumingRpi, consumingNcp, producingRpi, producingNcp, trigger)
    }

    constructor ()
      ensures connPath.Valid() && fresh(connPath)
    {
      priority, ticks, consumingCid, producingCid, serial, vendor, originator := 0, 0, 0, 0, 0, 0, 0;
      multiplier, consumingRpi, producingRpi, trigger := 0, 0, 0, 0;
      consumingNcp, producingNcp := Ncp(0, false), Ncp(0, false);
      connPath := new ConnectionPath();
    }

    // ----- Writing; `rest` is what will follow

    static lemma Assoc(a: seq<byte>, b: seq<byte>, c: seq<byte>)
      ensures (a + b) + c == a + (b + c)
    {
    }

    static method SerializeNcp(out: BufWriter, n: Ncp)
      requires out.Valid()
      modifies out, out.buf
      ensures out.Valid() && out.sent == old(out.sent) + PutNcp(n)
    {
      if n.large { out.PutLE32(n.bits); } else { out.PutLE16(n.bits); }
    }

    method SerializeTriad(out: BufWriter, ghost rest: seq<byte>)
      requires out.Valid()
      modifies out, out.buf
      ensures out.Valid() && out.sent + rest == old(out.sent) + PutTriad(Val(), rest)
    {
      hide Put16, Put32, BufWriter.Valid;
      ghost var w := out.sent;
      Assoc(w, Put16(serial), Put16(vendor) + (Put32(originator) + rest));
      out.PutLE16(serial);
      Assoc(out.sent, Put16(vendor), Put32(originator) + rest);
      out.PutLE16(vendor);
      Assoc(out.sent, Put32(originator), rest);
      out.PutLE32(originator);
    }

    method SerializeRates(out: BufWriter, ghost rest: seq<byte>)
      requires out.Valid()
      modifies out, out.buf
      ensures out.Valid() && out.sent + rest == old(out.sent) + PutRates(Val(), rest)
    {
      hide Put32, PutNcp, BufWriter.Valid;
      ghost var r3 := [U8(trigger)] + rest;
      ghost var r2 := PutNcp(consumingNcp) + r3;
      ghost var r1 := PutNcp(producingNcp) + (Put32(consumingRpi) + r2);
      Assoc(out.sent, Put32(producingRpi), r1);
      out.PutLE32(producingRpi);
      Assoc(out.sent, PutNcp(producingNcp), Put32(consumingRpi) + r2);
      SerializeNcp(out, producingNcp);
      Assoc(out.sent, Put32(consumingRpi), r2);
      out.PutLE32(consumingRpi);
      Assoc(out.sent, PutNcp(consumingNcp), r3);
      SerializeNcp(out, consumingNcp);
      Assoc(out.sent, [U8(trigger)], rest);
      out.Put8(trigger);
    }

    method SerializeFields(out: BufWriter, ghost rest: seq<byte>)
      requires out.Valid()
      modifies out, out.buf
      ensures out.Valid() && out.sent + rest == old(out.sent) + PutFieldsOf(Val(), rest)
    {
      hide Put32, PutTriad, PutRates, BufWriter.Valid;
      ghost var rates := PutRates(Val(), rest);
      ghost var middle := [U8(multiplier)] + (Zeros(3) + rates);
      ghost var triad := PutTriad(Val(), middle);
      ghost var ids := Put32(producingCid) + (Put32(consumingCid) + triad);
      assert out.sent + [U8(priority)] + [U8(ticks)] + ids == out.sent + ([U8(priority), U8(ticks)] + ids);
      out.Put8(priority);
      out.Put8(ticks);
      Assoc(out.sent, Put32(producingCid), Put32(consumingCid) + triad);
      out.PutLE32(producingCid);  // O->T
      Assoc(out.sent, Put32(consumingCid), triad);
      out.PutLE32(consumingCid);  // T->O
      SerializeTriad(out, middle);
      Assoc(out.sent, [U8(multiplier)], Zeros(3) + rates);
      out.Put8(multiplier);
      Assoc(out.sent, Zeros(3), rates);
      out.Fill(3);
      SerializeRates(out, rest);
    }

    /** ConnectionData::Serialize for a forward open: the place of the word count is skipped
        and set once the path is written. */
    method Serialize(out: BufWriter, compressed: bool) returns (ok: bool)
      requires connPath.Valid() && out.Valid()
      modifies out, out.buf
      ensures connPath.Valid() && Val() == old(Val()) && connPath.Val() == old(connPath.Val()) && out.Valid()
      ensures ok == PutForwardOpen(Val(), connPath.Val(), compressed).Some?
      ensures ok ==> |out.sent| == |old(out.sent)| + |PutForwardOpen(Val(), connPath.Val(), compressed).value|
      ensures ok && !out.overrun ==> out.sent == old(out.sent) + PutForwardOpen(Val(), connPath.Val(), compressed).value
    {
      hide PutFieldsOf, PutPath;
      ghost var w := out.sent;
      SerializeFields(out, []);
      ghost var f := out.sent;
      assert f + [] == f;
      var at := out.start;
      out.Put8(0);
      var from := out.start;
      ok := connPath.Serialize(out, false, compressed);
      if ok {
        ghost var b := PutPath(connPath.Val(), false, compressed).value;
        FieldsFirst(Val(), w, f, [U8(|b| / 2)] + b);
        var bytes := if out.overrun || out.start < from then 0 else out.start - from;
        assert out.sent == f + [0] + b;
        out.Patch(at, bytes / 2);
        assert !out.overrun ==> out.sent == f + ([U8(|b| / 2)] + b);
      }
    }

    /** The fields do not depend on what follows them. */
    static lemma FieldsFirst(d: ConnData, w: seq<byte>, f: seq<byte>, rest: seq<byte>)
      requires f == w + PutFieldsOf(d, [])
      ensures f + rest == w + PutFieldsOf(d, rest) && |PutFieldsOf(d, rest)| == |f| - |w| + |rest|
    {
      hide PutNcp, Put16, Put32;
      assert PutRates(d, []) + rest == PutRates(d, rest);
      assert PutTriad(d, [U8(d.multiplier)] + (Zeros(3) + PutRates(d, []))) + rest
          == PutTriad(d, [U8(d.multiplier)] + (Zeros(3) + PutRates(d, rest)));
      assert PutFieldsOf(d, []) + rest == PutFieldsOf(d, rest);
    }

    /** The fields of a forward close, in front of the word count. */
    method SerializeCloseFields(out: BufWriter)
      requires out.Valid()
      modifies out, out.buf
      ensures out.Valid()
      ensures forall rest :: out.sent + rest == old(out.sent) + ([U8(priority), U8(ticks)] + PutTriad(Val(), rest))
    {
      hide PutTriad, BufWriter.Valid;
      ghost var w := out.sent;
      out.Put8(priority);
      out.Put8(ticks);
      ghost var v := out.sent;
      SerializeTriad(out, []);
      assert out.sent + [] == out.sent;
      forall rest ensures out.sent + rest == w + ([U8(priority), U8(ticks)] + PutTriad(Val(), rest)) {
        TriadFirst(Val(), v, out.sent, rest);
        assert v + PutTriad(Val(), rest) == w + ([U8(priority), U8(ticks)] + PutTriad(Val(), rest));
      }
    }

    /** The triad does not depend on what follows it. */
    static lemma TriadFirst(d: ConnData, w: seq<byte>, f: seq<byte>, rest: seq<byte>)
      requires f == w + PutTriad(d, [])
      ensures f + rest == w + PutTriad(d, rest)
    {
      hide Put16, Put32;
      assert PutTriad(d, []) + rest == PutTriad(d, rest);
    }

    /** ConnectionData::Serialize for a forward close. */
    method SerializeClose(out: BufWriter, compressed: bool) returns (ok: bool)
      requires connPath.Valid() && out.Valid()
      modifies out, out.buf
      ensures connPath.Valid() && Val() == old(Val()) && connPath.Val() == old(connPath.Val()) && out.Valid()
      ensures ok == PutForwardClose(Val(), connPath.Val(), compressed).Some?
      ensures ok && !out.overrun ==> out.sent == old(out.sent) + PutForwardClose(Val(), connPath.Val(), compressed).value
    {
      hide PutTriad, PutPath;
      SerializeCloseFields(out);
      ghost var f := out.sent;
      var at := out.start;
      out.Put8(0);
      out.Put8(0);
      var from := out.start;
      ok := connPath.Serialize(out, false, compressed);
      if ok {
        ghost var b := PutPath(connPath.Val(), false, compressed).value;
        var bytes := if out.overrun || out.start < from then 0 else out.start - from;
        assert out.sent == f + [0] + ([0] + b);
        out.Patch(at, bytes / 2);
        assert !out.overrun ==> out.sent == f + ([U8(|b| / 2), 0] + b);
      }
    }

    // ----- Reading

    /** The parsing part of CipConnMgrClass::forward_close_service. */
    method ReceiveForwardClose(s: seq<byte>) returns (o: CloseOutcome)
      modifies this
      ensures o == ReadForwardClose(s)
      ensures o.CloseParsed? ==> o == CloseParsed(priority, ticks, Triad(serial, vendor, originator))
    {
      hide TakeTriad;
      if |s| < 2 { return CloseNoReply; }
      priority, ticks := s[0], s[1];
      var t := TakeTriad(s[2..]);
      if t.Fail? { return CloseNoReply; }
      serial, vendor, originator := t.value.serial, t.value.vendor, t.value.originator;
      if |t.rest| < 2 { return CloseNoReply; }
      var bytes := 2 * t.rest[0] as nat;
      if bytes < |t.rest| - 2 { return CloseTooMuchData; }
      if bytes > |t.rest| - 2 { return CloseNotEnoughData; }
      o := CloseParsed(priority, ticks, t.value);
    }

    method DeserializeIds(s: seq<byte>) returns (rest: Option<seq<byte>>)
      modifies this
      ensures match ReadIds(s)
              case Fail => rest.None?
              case Got(i, left) =>
                rest == Some(left)
                && i == Ids(priority, ticks, consumingCid, producingCid, Triad(serial, vendor, originator), multiplier)
    {
      hide TakeTriad, Take32;
      if |s| < 2 { return None; }
      priority, ticks := s[0], s[1];
      var a := Take32(s[2..]);
      if a.Fail? { return None; }
      consumingCid := a.value;
      a := Take32(a.rest);
      if a.Fail? { return None; }
      producingCid := a.value;
      var t := TakeTriad(a.rest);
      if t.Fail? || |t.rest| < 4 { return None; }
      serial, vendor, originator, multiplier := t.value.serial, t.value.vendor, t.value.originator, t.rest[0];
      rest := Some(t.rest[4..]);
    }

    /** DeserializeForwardOpenRequest. */
    method DeserializeForwardOpenRequest(s: seq<byte>, large: bool) returns (rest: Option<seq<byte>>)
      modifies this
      ensures match ReadFields(s, large)
              case Fail => rest.None?
              case Got(d, left) => rest == Some(left) && Val() == d
    {
      hide Take8, TakeRate, ReadIds;
      rest := DeserializeIds(s);
      if rest.None? { return None; }
      var r := TakeRate(rest.value, large);
      if r.Fail? { return None; }
      consumingRpi, consumingNcp := r.value.rpi, r.value.ncp;
      r := TakeRate(r.rest, large);
      if r.Fail? { return None; }
      producingRpi, producingNcp := r.value.rpi, r.value.ncp;
      var a := Take8(r.rest);
      if a.Fail? { return None; }
      trigger := a.value;
      rest := Some(a.rest);
    }

    /** The parsing part of CipConnMgrClass::forward_open. */
    method ReceiveForwardOpen(s: seq<byte>, large: bool) returns (ghost o: Outcome, parsed: bool)
      requires connPath.Valid()
      modifies this, connPath.portSegs, connPath.app, connPath.dataSeg
      ensures connPath.Valid() && o == ReadForwardOpen(s, large) && parsed == o.Parsed?
      ensures parsed ==> o == Parsed(Val(), connPath.Val())
    {
      hide Take8, ReadFields, ReadPath;
      o, parsed := ReadForwardOpen(s, large), false;
      var rest := DeserializeForwardOpenRequest(s, large);
      if rest.None? { return; }
      var words := Take8(rest.value);
      if words.Fail? { return; }
      if 2 * words.value != |words.rest| { return; }
      parsed := connPath.Deserialize(words.rest, false);
    }
  }
}
