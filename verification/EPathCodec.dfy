/** Reading back what was written: segments, single paths, the group, the data segment, and
    whole connection paths, compressed or not. */
module EPathCodec {
  import opened Words
  import opened Bytes
  import opened EPathSpec

  // ----- One logical segment

  lemma SegmentFields(f: nat)
    requires f < LOGICAL_END
    ensures FieldOf(SegmentOf(f)) == Some(f)
    ensures forall b: byte :: b / 4 * 4 == SegmentOf(f) ==> FieldOf(b) == Some(f)
  {
  }

  lemma FirstByteParts(seg: byte, k: nat)
    requires seg % 4 == 0 && k < 4
    ensures U8(seg + k) as int == seg + k && (seg + k) / 4 * 4 == seg && (seg + k) % 4 == k
  {
  }

  lemma Narrow(seg: byte, v: byte, packed: bool, rest: seq<byte>)
    ensures var s := [seg, v] + rest; s[0] == seg && ReadValue(s[1..], 0, packed) == Got(v as int, rest)
  {
    var s := [seg, v] + rest;
    assert s[1..] == [v] + rest;
    assert ([v] + rest)[1..] == rest;
  }

  /** The parts of a written segment: type and format in the first byte, then the value. */
  lemma SegmentRead(seg: byte, v: int, packed: bool, rest: seq<byte>)
    requires seg % 4 == 0 && 0 <= v < TWO16
    ensures var s := PutLogical(seg, v, packed) + rest;
            s[0] / 4 * 4 == seg && ReadValue(s[1..], s[0] % 4, packed) == Got(v, rest)
  {
    hide ReadValue, Put16, PadTo16;
    var s := PutLogical(seg, v, packed) + rest;
    assert U32(v) == v;
    if v < 256 {
      Narrow(seg, v, packed, rest);
      FirstByteParts(seg, 0);
    } else {
      assert s == [U8(seg + 1)] + (PadTo16(packed) + (Put16(v) + rest));
      assert s[1..] == PadTo16(packed) + (Put16(v) + rest);
      FirstByteParts(seg, 1);
      Wide(v, rest, packed);
    }
  }

  lemma Wide(v: nat, rest: seq<byte>, packed: bool)
    requires v < TWO16
    ensures ReadValue(PadTo16(packed) + (Put16(v) + rest), 1, packed) == Got(v, rest)
  {
    hide Put16, Get16;
    Got16(v, rest);
    var t := PadTo16(packed) + (Put16(v) + rest);
    if packed {
      assert t == Put16(v) + rest;
    } else {
      assert t[1..] == Put16(v) + rest;
      assert t[3..] == (Put16(v) + rest)[2..];
    }
  }

  /** Where writer and reader agree: an id that needs the 32 bit form is never read back,
      whatever follows it. */
  lemma SegmentRoundTrip(seg: byte, v: int, packed: bool, rest: seq<byte>)
    requires seg % 4 == 0 && 0 <= v < TWO32
    ensures var s := PutLogical(seg, v, packed) + rest;
            ReadValue(s[1..], s[0] % 4, packed) == Got(v, rest) <==> v < TWO16
  {
    var s := PutLogical(seg, v, packed) + rest;
    if v < TWO16 {
      SegmentRead(seg, v, packed, rest);
    } else {
      assert s[0] % 4 == 2;
      match ReadValue(s[1..], 2, packed)
      case Fail =>
      case Got(_, r) => assert |r| == |rest| - 1;
    }
  }

  lemma PutLogicalHead(seg: byte, v: int, packed: bool, rest: seq<byte>)
    requires seg % 4 == 0 && 0 <= v < TWO16
    ensures (PutLogical(seg, v, packed) + rest)[0] / 4 * 4 == seg
  {
    SegmentRead(seg, v, packed, rest);
  }

  // ----- Runs of logical segments

  predicate Small(p: App) {
    forall f :: f in p.stuff ==> 0 <= p.stuff[f] < TWO16
  }

  /** The reader takes one written segment that does not stop it. */
  lemma ReadStep(q: App, last: nat, p: App, f: nat, rest: seq<byte>, packed: bool)
    requires f < last <= LOGICAL_END && 0 <= Get(p, f) < TWO16 && !Stops(q, last, Some(f))
    ensures ReadLogical(q, last, PutLogical(SegmentOf(f), Get(p, f), packed) + rest, packed)
            == ReadLogical(Set(q, f, Get(p, f)), f, rest, packed)
  {
    SegmentRead(SegmentOf(f), Get(p, f), packed, rest);
    SegmentFields(f);
  }

  /** The path with just these fields of p. */
  function Only(p: App, fields: seq<nat>): App {
    App(map f | f in fields :: Get(p, f), None)
  }

  function Last(last: nat, fields: seq<nat>): nat {
    if fields == [] then last else fields[|fields| - 1]
  }

  /** Written one after the other, the fields do not stop the reader. */
  predicate Runs(p: App, done: seq<nat>, last: nat, fields: seq<nat>)
    decreases |fields|
  {
    fields == [] ||
    (fields[0] < last <= LOGICAL_END && !Stops(Only(p, done), last, Some(fields[0]))
     && Runs(p, done + [fields[0]], fields[0], fields[1..]))
  }

  lemma PutFieldsStep(p: App, fields: seq<nat>, rest: seq<byte>, packed: bool)
    ensures PutFields(p, fields, packed) + rest ==
            if fields == [] then rest
            else PutLogical(SegmentOf(fields[0]), Get(p, fields[0]), packed) + (PutFields(p, fields[1..], packed) + rest)
  {
    hide PutLogical;
    if fields != [] {
      var a, b := PutLogical(SegmentOf(fields[0]), Get(p, fields[0]), packed), PutFields(p, fields[1..], packed);
      assert (a + b) + rest == a + (b + rest);
    }
  }

  lemma {:induction false} ReadRun(p: App, done: seq<nat>, last: nat, fields: seq<nat>, rest: seq<byte>, packed: bool)
    requires Small(p) && Runs(p, done, last, fields)
    ensures ReadLogical(Only(p, done), last, PutFields(p, fields, packed) + rest, packed)
            == ReadLogical(Only(p, done + fields), Last(last, fields), rest, packed)
    decreases |fields|
  {
    hide ReadLogical, PutLogical, Stops, PutFields;
    PutFieldsStep(p, fields, rest, packed);
    if fields == [] {
      assert done + fields == done;
    } else {
      var f := fields[0];
      var more := PutFields(p, fields[1..], packed) + rest;
      ReadStep(Only(p, done), last, p, f, more, packed);
      assert Set(Only(p, done), f, Get(p, f)) == Only(p, done + [f]);
      ReadRun(p, done + [f], f, fields[1..], rest, packed);
      assert done + [f] + fields[1..] == done + fields;
    }
  }

  /** Whatever more is read, no field is lost. */
  lemma {:induction false} ReadKeeps(q: App, last: nat, s: seq<byte>, packed: bool)
    ensures var r := ReadLogical(q, last, s, packed);
            r.Got? ==> forall f :: f in q.stuff ==> f in r.value.path.stuff
    decreases |s|
  {
    if !Stops(q, last, Head(s)) {
      match ReadValue(s[1..], s[0] % 4, packed)
      case Fail =>
      case Got(v, rest) => ReadKeeps(Set(q, Head(s).value, v), Head(s).value, rest, packed);
    }
  }

  /** Where a run is followed by a segment that does not stop it, the reader swallows it. */
  lemma Swallows(q: App, last: nat, s: seq<byte>, packed: bool)
    requires !Stops(q, last, Head(s))
    ensures var r := ReadLogical(q, last, s, packed);
            r.Got? ==> Head(s).value in r.value.path.stuff
  {
    match ReadValue(s[1..], s[0] % 4, packed)
    case Fail =>
    case Got(v, rest) => ReadKeeps(Set(q, Head(s).value, v), Head(s).value, rest, packed);
  }

  /** The first byte of a run names its first field; it is no symbol. */
  lemma FirstByte(p: App, fields: seq<nat>, rest: seq<byte>, packed: bool)
    requires Small(p) && fields != [] && fields[0] < LOGICAL_END
    ensures var s := PutFields(p, fields, packed) + rest;
            s != [] && Head(s) == Some(fields[0]) && ReadSymbol(s) == Got(None, s)
  {
    hide PutFields, PutLogical, ReadValue;
    var s := PutFields(p, fields, packed) + rest;
    var more := PutFields(p, fields[1..], packed) + rest;
    PutFieldsStep(p, fields, rest, packed);
    PutLogicalHead(SegmentOf(fields[0]), Get(p, fields[0]), packed, more);
    SegmentFields(fields[0]);
  }

  // ----- One logical path

  lemma LogicalRuns(p: App, ctl: Ctl)
    ensures Runs(p, [], LOGICAL_END, LogicalFields(p, ctl))
  {
    hide Runs;
    var fs := LogicalFields(p, ctl);
    assert fs[..|fs|] == fs && fs[|fs|..] == [] && fs[..0] == [] && fs[0..] == fs;
    NoneRuns(p, fs, Last(LOGICAL_END, fs));
    if |fs| >= 3 { RunsFrom(p, fs, 2); }
    if |fs| >= 2 { RunsFrom(p, fs, 1); }
    if |fs| >= 1 { RunsFrom(p, fs, 0); }
  }

  lemma NoneRuns(p: App, done: seq<nat>, last: nat)
    ensures Runs(p, done, last, [])
  {
  }

  lemma RunsFrom(p: App, fields: seq<nat>, k: nat)
    requires k < |fields|
    ensures Runs(p, fields[..k], Last(LOGICAL_END, fields[..k]), fields[k..]) <==>
            fields[k] < Last(LOGICAL_END, fields[..k]) <= LOGICAL_END
            && !Stops(Only(p, fields[..k]), Last(LOGICAL_END, fields[..k]), Some(fields[k]))
            && Runs(p, fields[..k + 1], fields[k], fields[k + 1..])
  {
    assert fields[..k] + [fields[k]] == fields[..k + 1];
    assert fields[k..][1..] == fields[k + 1..];
    assert fields[k..][0] == fields[k];
  }

  /** A written path is read as the fields written, when what follows stops the reader. */
  lemma LogicalRead(p: App, ctl: Ctl, rest: seq<byte>)
    requires Small(p) && p.tag.None? && LogicalFields(p, ctl) != []
    ensures var fs := LogicalFields(p, ctl);
            var s := PutApp(p, ctl) + rest;
            && s != [] && |rest| < |s| && Head(s) == Some(fs[0]) && ReadSymbol(s) == Got(None, s)
            && ReadLogical(NO_APP, LOGICAL_END, s, ctl.packed) == ReadLogical(Only(p, fs), Last(LOGICAL_END, fs), rest, ctl.packed)
            && (Stops(Only(p, fs), Last(LOGICAL_END, fs), Head(rest)) ==>
                  ReadLogical(NO_APP, LOGICAL_END, s, ctl.packed) == Got(Partial(Only(p, fs), Last(LOGICAL_END, fs)), rest))
  {
    hide Runs, ReadSymbol, PutFields;
    var fs := LogicalFields(p, ctl);
    LogicalRuns(p, ctl);
    assert Only(p, []) == NO_APP;
    assert [] + fs == fs;
    ReadRun(p, [], LOGICAL_END, fs, rest, ctl.packed);
    FirstByte(p, fs, rest, ctl.packed);
    PutFieldsLong(p, fs, ctl.packed);
  }

  lemma PutFieldsLong(p: App, fields: seq<nat>, packed: bool)
    requires fields != []
    ensures |PutFields(p, fields, packed)| > 0
  {
  }

  /** The logical paths the two ends agree on: an assembly has an instance or a connection
      point, any other class a connection point or an attribute. */
  predicate WellFormedLogical(p: App) {
    && p.tag.None? && p.stuff != map[] && (forall f :: f in p.stuff ==> f < LOGICAL_END)
    && (if GetClass(p) == ASSEMBLY then !(INSTANCE in p.stuff && CONN_PT in p.stuff)
        else !(CONN_PT in p.stuff && ATTRIBUTE in p.stuff))
  }

  lemma OnlyIsAll(p: App, fields: seq<nat>)
    requires p.tag.None?
    ensures Only(p, fields) == p <==> (forall f :: f in p.stuff <==> f in fields)
  {
    if forall f :: f in p.stuff <==> f in fields {
      assert Only(p, fields).stuff == p.stuff;
    }
    assert forall f :: f in Only(p, fields).stuff <==> f in fields;
  }

  lemma WrittenFields(p: App, packed: bool)
    requires p.tag.None?
    ensures var fs := LogicalFields(p, Plain(packed));
            && (forall f :: f in fs ==> f in p.stuff && f < LOGICAL_END)
            && (CLASS in p.stuff ==> CLASS in fs)
            && (CONN_PT in fs <==> CONN_PT in p.stuff && !(GetClass(p) == ASSEMBLY && INSTANCE in p.stuff))
            && (INSTANCE in p.stuff ==> INSTANCE in fs)
            && (ATTRIBUTE in fs <==> ATTRIBUTE in p.stuff && !(GetClass(p) != ASSEMBLY && CONN_PT in p.stuff))
  {
  }

  /** Well formed is what is written without loss. */
  lemma WellFormedIsWritten(p: App, packed: bool)
    requires p.tag.None?
    ensures var fs := LogicalFields(p, Plain(packed));
            WellFormedLogical(p) <==> fs != [] && forall f :: f in p.stuff <==> f in fs
  {
    hide LogicalFields;
    var fs := LogicalFields(p, Plain(packed));
    WrittenFields(p, packed);
    if p.stuff != map[] {
      var f :| f in p.stuff;
      assert f < LOGICAL_END ==> f == CLASS || f == INSTANCE || f == CONN_PT || f == ATTRIBUTE;
    }
    if fs != [] && forall f :: f in p.stuff <==> f in fs {
      assert fs[0] in p.stuff;
    }
  }

  /** A single logical path, padded or packed, comes back exactly when it is well formed. */
  lemma LogicalRoundTrip(p: App, packed: bool)
    requires Small(p) && p.tag.None?
    ensures ReadApp(PutApp(p, Plain(packed)), None, packed) == Got(p, []) <==> WellFormedLogical(p)
  {
    hide ReadLogical, ReadSymbol, PutFields, LogicalFields, WellFormedLogical, Only;
    var fs := LogicalFields(p, Plain(packed));
    var s := PutApp(p, Plain(packed));
    WellFormedIsWritten(p, packed);
    OnlyIsAll(p, fs);
    if fs == [] {
      PutFieldsStep(p, fs, [], packed);
      assert s + [] == s;
      NoSymbol();
    } else {
      LogicalRead(p, Plain(packed), []);
      assert s + [] == s;
    }
  }

  lemma NoSymbol()
    ensures ReadSymbol([]) == Fail
  {
  }

  // ----- One symbolic path

  predicate TagOk(t: seq<byte>) {
    |t| <= MAX_TAG && forall k :: 0 <= k < |t| ==> t[k] != 0
  }

  lemma {:induction false} CStringWhole(t: seq<byte>)
    requires forall k :: 0 <= k < |t| ==> t[k] != 0
    ensures CString(t) == t
  {
    if t != [] {
      CStringWhole(t[1..]);
    }
  }

  lemma SymbolRead(t: seq<byte>, rest: seq<byte>)
    requires TagOk(t)
    ensures ReadSymbol(PutSymbol(t) + rest) == Got(Some(t), rest)
  {
    hide CString;
    var s := PutSymbol(t) + rest;
    var pad: seq<byte> := if |t| % 2 == 1 then [0] else [];
    assert s == [0x91, |t|] + (t + (pad + rest));
    assert s[2..] == t + (pad + rest);
    assert s[2..2 + |t|] == t;
    assert s[2 + |t| + |t| % 2..] == rest;
    CStringWhole(t);
  }

  /** What a symbolic path may carry besides its symbol: a connection point and members
      without gaps. */
  predicate WellFormedSymbolic(p: App) {
    && p.tag.Some?
    && (forall f :: f in p.stuff ==> f == CONN_PT || MEMBER1 <= f <= MEMBER3)
    && (MEMBER2 in p.stuff ==> MEMBER1 in p.stuff) && (MEMBER3 in p.stuff ==> MEMBER2 in p.stuff)
  }

  /** The path with its symbol and just these fields. */
  function Symbolic(p: App, fields: seq<nat>): App {
    App(map f | f in fields :: Get(p, f), p.tag)
  }

  /** n members from m on are read into the fields they came from. */
  lemma {:induction false} MembersRead(p: App, done: seq<nat>, m: nat, fields: seq<nat>, packed: bool)
    requires Small(p) && m + |fields| <= MEMBER3 + 1 && m >= MEMBER1
    requires forall k :: 0 <= k < |fields| ==> fields[k] == m + k
    ensures ReadMembers(Symbolic(p, done), m, PutFields(p, fields, packed), packed) == Got(Symbolic(p, done + fields), [])
    decreases |fields|
  {
    hide PutLogical, ReadValue, PutFields;
    PutFieldsStep(p, fields, [], packed);
    assert PutFields(p, fields, packed) + [] == PutFields(p, fields, packed);
    if fields == [] {
      assert done + fields == done;
    } else {
      var more := PutFields(p, fields[1..], packed);
      assert more + [] == more;
      SegmentRead(SegmentOf(m), Get(p, m), packed, more);
      assert Set(Symbolic(p, done), m, Get(p, m)) == Symbolic(p, done + [m]);
      MembersRead(p, done + [m], m + 1, fields[1..], packed);
      assert done + [m] + fields[1..] == done + fields;
    }
  }

  lemma WithConnPt(p: App, packed: bool)
    requires Small(p) && p.tag.Some? && CONN_PT in p.stuff
    ensures ReadAfterSymbol(App(map[], p.tag), PutFields(p, SymbolFields(p), packed), packed) == Got(Symbolic(p, SymbolFields(p)), [])
  {
    hide PutLogical, ReadValue, PutFields, ReadMembers;
    var ms, fs := MemberFields(p), SymbolFields(p);
    var more := PutFields(p, ms, packed);
    PutFieldsStep(p, fs, [], packed);
    assert PutFields(p, fs, packed) + [] == PutFields(p, fs, packed);
    assert more + [] == more;
    assert fs[1..] == ms;
    SegmentRead(SegmentOf(CONN_PT), Get(p, CONN_PT), packed, more);
    assert Set(App(map[], p.tag), CONN_PT, Get(p, CONN_PT)) == Symbolic(p, [CONN_PT]);
    MembersRead(p, [CONN_PT], MEMBER1, ms, packed);
  }

  lemma WithoutConnPt(p: App, packed: bool)
    requires Small(p) && p.tag.Some? && CONN_PT !in p.stuff
    ensures ReadAfterSymbol(App(map[], p.tag), PutFields(p, SymbolFields(p), packed), packed) == Got(Symbolic(p, SymbolFields(p)), [])
  {
    hide PutLogical, ReadValue, PutFields, ReadMembers;
    var ms := MemberFields(p);
    assert Symbolic(p, []) == App(map[], p.tag);
    assert [] + ms == ms;
    MembersRead(p, [], MEMBER1, ms, packed);
    PutFieldsStep(p, ms, [], packed);
    assert PutFields(p, ms, packed) + [] == PutFields(p, ms, packed);
    if ms != [] {
      var more := PutFields(p, ms[1..], packed);
      assert more + [] == more;
      SegmentRead(SegmentOf(MEMBER1), Get(p, MEMBER1), packed, more);
    }
  }

  lemma SymbolicIsAll(p: App)
    requires p.tag.Some?
    ensures Symbolic(p, SymbolFields(p)) == p <==> WellFormedSymbolic(p)
  {
    var fs := SymbolFields(p);
    assert forall f :: f in Symbolic(p, fs).stuff <==> f in fs;
    if WellFormedSymbolic(p) {
      assert Symbolic(p, fs).stuff == p.stuff;
    }
  }

  /** A single symbolic path comes back exactly when it is well formed. */
  lemma SymbolicRoundTrip(p: App, packed: bool)
    requires Small(p) && p.tag.Some? && TagOk(p.tag.value)
    ensures ReadApp(PutApp(p, Plain(packed)), None, packed) == Got(p, []) <==> WellFormedSymbolic(p)
  {
    hide ReadSymbol, PutFields, ReadAfterSymbol, PutSymbol, Symbolic, SymbolFields, WellFormedSymbolic;
    SymbolRead(p.tag.value, PutFields(p, SymbolFields(p), packed));
    if CONN_PT in p.stuff { WithConnPt(p, packed); } else { WithoutConnPt(p, packed); }
    SymbolicIsAll(p);
  }

  /** Bytes of the standard's own kind of example: assembly instance 0x65, connection point
      0x12C of the assembly class, padded and packed. */
  lemma Examples()
    ensures PutApp(App(map[CLASS := ASSEMBLY, INSTANCE := 0x65], None), Plain(false)) == [0x20, 0x04, 0x24, 0x65]
    ensures PutApp(App(map[CLASS := ASSEMBLY, CONN_PT := 0x12C], None), Plain(false)) == [0x20, 0x04, 0x2D, 0x00, 0x2C, 0x01]
    ensures PutApp(App(map[CLASS := ASSEMBLY, CONN_PT := 0x12C], None), Plain(true)) == [0x20, 0x04, 0x2D, 0x2C, 0x01]
  {
    var i := App(map[CLASS := ASSEMBLY, INSTANCE := 0x65], None);
    var c := App(map[CLASS := ASSEMBLY, CONN_PT := 0x12C], None);
    assert LogicalFields(i, Plain(false)) == [CLASS, INSTANCE];
    assert LogicalFields(c, Plain(false)) == LogicalFields(c, Plain(true)) == [CLASS, CONN_PT];
    Two(i, CLASS, INSTANCE, false);
    Two(c, CLASS, CONN_PT, false);
    Two(c, CLASS, CONN_PT, true);
    assert Put16(0x12C) == [0x2C, 0x01];
  }

  lemma Two(p: App, f: nat, g: nat, packed: bool)
    ensures PutFields(p, [f, g], packed)
            == PutLogical(SegmentOf(f), Get(p, f), packed) + PutLogical(SegmentOf(g), Get(p, g), packed)
  {
    hide PutLogical;
    assert [f, g][1..] == [g] && [g][1..] == [];
    assert PutFields(p, [g], packed) == PutLogical(SegmentOf(g), Get(p, g), packed) + PutFields(p, [], packed);
  }
}
