/** When a connection path comes back: each application path must follow one it can inherit
    from, and must not be swallowed by the one before it. */
module PathChain {
  import opened Words
  import opened Bytes
  import opened EPathSpec
  import opened EPathCodec
  import opened ConnPathCodec

  // ----- The three kinds of application path

  predicate Sets(a: App, fields: set<nat>) {
    a.tag.None? && a.stuff.Keys == fields
  }

  predicate IsInstance(a: App) { Sets(a, {CLASS, INSTANCE}) }

  predicate IsAttribute(a: App) { Sets(a, {CLASS, INSTANCE, ATTRIBUTE}) }

  predicate IsConnPt(a: App) { Sets(a, {CLASS, CONN_PT}) && a.stuff[CLASS] == ASSEMBLY }

  predicate Shaped(a: App) {
    Small(a) && (IsInstance(a) || IsAttribute(a) || IsConnPt(a))
  }

  /** Inheriting from prev restores what was left out, and adds nothing. */
  predicate Fits(prev: Option<App>, cur: App) {
    && (IsConnPt(cur) ==> prev.None? || GetClass(prev.value) == ASSEMBLY)
    && (IsAttribute(cur) ==> prev.None? || !IsConnPt(prev.value))
  }

  predicate OmitsClass(prev: Option<App>, cur: App, compressed: bool) {
    compressed && prev.Some? && GetClass(prev.value) == GetClass(cur)
  }

  /** cur, written after prev, ends where next begins: no bare attribute is left of next, and
      no bare connection point follows an instance whose class was left out. */
  predicate Ends(prev: Option<App>, cur: App, next: App, compressed: bool) {
    compressed && GetClass(cur) == GetClass(next) ==>
      && !(IsAttribute(next) && !IsAttribute(cur) && Get(cur, INSTANCE) == Get(next, INSTANCE))
      && !(IsConnPt(next) && IsInstance(cur) && OmitsClass(prev, cur, true))
  }

  predicate ChainOk(prev: Option<App>, apps: seq<App>, compressed: bool)
    decreases |apps|
  {
    apps == [] ||
    (Fits(prev, apps[0]) && (|apps| > 1 ==> Ends(prev, apps[0], apps[1], compressed))
     && ChainOk(Some(apps[0]), apps[1..], compressed))
  }

  function CtlOf(prev: Option<App>, cur: App, packed: bool, compressed: bool): Ctl {
    if compressed then CtlAfter(prev, cur, packed) else Plain(packed)
  }

  /** The fields of cur that are written after prev. */
  function Left(prev: Option<App>, cur: App, compressed: bool): seq<nat> {
    LogicalFields(cur, CtlOf(prev, cur, true, compressed))
  }

  lemma LeftIs(prev: Option<App>, cur: App, packed: bool, compressed: bool)
    requires Shaped(cur) && (prev.Some? ==> Shaped(prev.value))
    ensures LogicalFields(cur, CtlOf(prev, cur, packed, compressed)) == Left(prev, cur, compressed)
    ensures var c := if OmitsClass(prev, cur, compressed) then [] else [CLASS];
            var i := if IsAttribute(cur) && compressed && prev.Some? && Get(prev.value, INSTANCE) == Get(cur, INSTANCE) then [] else [INSTANCE];
            Left(prev, cur, compressed) ==
            if IsConnPt(cur) then c + [CONN_PT] else if IsInstance(cur) then c + [INSTANCE] else c + i + [ATTRIBUTE]
  {
  }

  /** The last field of cur, and whether its class is among those read. */
  lemma ReadSoFar(prev: Option<App>, cur: App, compressed: bool)
    requires Shaped(cur) && (prev.Some? ==> Shaped(prev.value))
    ensures var fs := Left(prev, cur, compressed);
            && Last(LOGICAL_END, fs) == (if IsConnPt(cur) then CONN_PT else if IsInstance(cur) then INSTANCE else ATTRIBUTE)
            && GetClass(Only(cur, fs)) == (if OmitsClass(prev, cur, compressed) then 0 else GetClass(cur))
  {
    hide LogicalFields, Left;
    LeftIs(prev, cur, true, compressed);
  }

  /** The reader stops after cur exactly when Ends says so. */
  lemma StopsWhenEnds(prev: Option<App>, cur: App, next: App, compressed: bool)
    requires Shaped(cur) && Shaped(next) && (prev.Some? ==> Shaped(prev.value))
    ensures var fs := Left(prev, cur, compressed);
            var g := Left(Some(cur), next, compressed)[0];
            && (Stops(Only(cur, fs), Last(LOGICAL_END, fs), Some(g)) <==> Ends(prev, cur, next, compressed))
            && (!Ends(prev, cur, next, compressed) ==> g !in cur.stuff)
  {
    hide LogicalFields, Left, Only, Last;
    ReadSoFar(prev, cur, compressed);
    LeftIs(Some(cur), next, true, compressed);
  }

  lemma InheritAt(p: App, start: nat, from: App)
    ensures var r := Inherit(p, start, from);
            && r.tag == p.tag
            && (forall f :: f in r.stuff <==> f in p.stuff || Takes(p, start, from, f))
            && (forall f :: f in r.stuff ==> r.stuff[f] == if f in p.stuff then p.stuff[f] else from.stuff[f])
  {
  }

  /** Inheriting the class alone. */
  lemma ClassRestored(p: App, start: nat, prev: App, cur: App)
    requires p.tag.None? && cur.tag.None? && start <= CLASS
    requires forall f :: f in p.stuff <==> (f in cur.stuff && f != CLASS) || (f == CLASS && CLASS in p.stuff)
    requires forall f :: f in p.stuff ==> f in cur.stuff && p.stuff[f] == cur.stuff[f]
    requires CLASS in cur.stuff && CLASS in prev.stuff && (CLASS !in p.stuff ==> prev.stuff[CLASS] == cur.stuff[CLASS])
    requires start == CLASS || (start == INSTANCE && (INSTANCE !in prev.stuff || GetClass(prev) == ASSEMBLY))
    ensures Inherit(p, start, prev) == cur
  {
    var r := Inherit(p, start, prev);
    assert r.stuff.Keys == cur.stuff.Keys;
    assert r.stuff == cur.stuff;
  }

  lemma FitsInstance(prev: App, cur: App, compressed: bool)
    requires Shaped(cur) && Shaped(prev) && IsInstance(cur)
    ensures var fs := Left(Some(prev), cur, compressed);
            Inherit(Only(cur, fs), Last(LOGICAL_END, fs) + 1, prev) == cur
  {
    hide Left, LogicalFields, Inherit;
    LeftIs(Some(prev), cur, true, compressed);
    var fs := Left(Some(prev), cur, compressed);
    assert Last(LOGICAL_END, fs) == INSTANCE && INSTANCE in fs;
    assert CLASS !in fs ==> prev.stuff[CLASS] == cur.stuff[CLASS];
    ClassRestored(Only(cur, fs), CLASS, prev, cur);
  }

  lemma FitsConnPt(prev: App, cur: App, compressed: bool)
    requires Shaped(cur) && Shaped(prev) && IsConnPt(cur)
    ensures var fs := Left(Some(prev), cur, compressed);
            Inherit(Only(cur, fs), Last(LOGICAL_END, fs) + 1, prev) == cur <==> GetClass(prev) == ASSEMBLY
  {
    hide Left, Inherit, LogicalFields;
    LeftIs(Some(prev), cur, true, compressed);
    var fs := Left(Some(prev), cur, compressed);
    assert Last(LOGICAL_END, fs) == CONN_PT && CONN_PT in fs;
    if GetClass(prev) == ASSEMBLY {
      assert CLASS !in fs ==> prev.stuff[CLASS] == cur.stuff[CLASS];
      ClassRestored(Only(cur, fs), INSTANCE, prev, cur);
    } else {
      InheritAt(Only(cur, fs), INSTANCE, prev);
      assert INSTANCE in prev.stuff && INSTANCE !in cur.stuff;
      assert INSTANCE in Inherit(Only(cur, fs), INSTANCE, prev).stuff;
    }
  }

  /** A path without a connection point restores the fields a part of cur lacks. */
  lemma Restored(p: App, prev: App, cur: App)
    requires p.tag.None? && ATTRIBUTE in p.stuff && IsAttribute(cur) && CONN_PT !in prev.stuff
    requires forall f :: f in p.stuff ==> f in cur.stuff && p.stuff[f] == cur.stuff[f]
    requires CLASS in prev.stuff && (CLASS !in p.stuff ==> prev.stuff[CLASS] == cur.stuff[CLASS])
    requires INSTANCE in prev.stuff && (INSTANCE !in p.stuff ==> prev.stuff[INSTANCE] == cur.stuff[INSTANCE])
    ensures Inherit(p, ATTRIBUTE + 1, prev) == cur
  {
    var r := Inherit(p, ATTRIBUTE + 1, prev);
    assert r.stuff.Keys == {CLASS, INSTANCE, ATTRIBUTE};
    assert r.stuff == cur.stuff;
  }

  lemma AttributeFits(prev: App, cur: App, compressed: bool)
    requires Shaped(cur) && Shaped(prev) && IsAttribute(cur) && !IsConnPt(prev)
    ensures var fs := Left(Some(prev), cur, compressed);
            Inherit(Only(cur, fs), Last(LOGICAL_END, fs) + 1, prev) == cur
  {
    hide Left, LogicalFields, Inherit;
    LeftIs(Some(prev), cur, true, compressed);
    var fs := Left(Some(prev), cur, compressed);
    assert ATTRIBUTE in fs && Last(LOGICAL_END, fs) == ATTRIBUTE;
    assert CLASS !in fs ==> prev.stuff[CLASS] == cur.stuff[CLASS];
    assert INSTANCE !in fs ==> prev.stuff[INSTANCE] == cur.stuff[INSTANCE];
    Restored(Only(cur, fs), prev, cur);
  }

  lemma FitsAttribute(prev: App, cur: App, compressed: bool)
    requires Shaped(cur) && Shaped(prev) && IsAttribute(cur)
    ensures var fs := Left(Some(prev), cur, compressed);
            Inherit(Only(cur, fs), Last(LOGICAL_END, fs) + 1, prev) == cur <==> !IsConnPt(prev)
  {
    hide Left, Inherit, LogicalFields;
    LeftIs(Some(prev), cur, true, compressed);
    var fs := Left(Some(prev), cur, compressed);
    if IsConnPt(prev) {
      InheritAt(Only(cur, fs), Last(LOGICAL_END, fs) + 1, prev);
      assert CONN_PT in Inherit(Only(cur, fs), Last(LOGICAL_END, fs) + 1, prev).stuff && CONN_PT !in cur.stuff;
    } else {
      AttributeFits(prev, cur, compressed);
    }
  }

  /** What is read, completed from prev, is cur exactly when cur fits. */
  lemma InheritsWhenFits(prev: App, cur: App, compressed: bool)
    requires Shaped(cur) && Shaped(prev)
    ensures var fs := Left(Some(prev), cur, compressed);
            Inherit(Only(cur, fs), Last(LOGICAL_END, fs) + 1, prev) == cur <==> Fits(Some(prev), cur)
  {
    hide Left, Inherit, Only;
    if IsConnPt(cur) { FitsConnPt(prev, cur, compressed); }
    else if IsInstance(cur) { FitsInstance(prev, cur, compressed); }
    else { FitsAttribute(prev, cur, compressed); }
  }

  // ----- Reading a chain of paths

  lemma WholeFirst(cur: App, compressed: bool)
    requires Shaped(cur)
    ensures Only(cur, Left(None, cur, compressed)) == cur && Fits(None, cur)
  {
    hide Left;
    LeftIs(None, cur, true, compressed);
    assert Only(cur, Left(None, cur, compressed)).stuff == cur.stuff;
  }

  /** One path written after prev: it comes back if it fits, when what follows stops the
      reader; otherwise it comes back with a field too many. */
  lemma SlotRead(prev: Option<App>, cur: App, rest: seq<byte>, packed: bool, compressed: bool)
    requires Shaped(cur) && (prev.Some? ==> Shaped(prev.value))
    ensures var fs := Left(prev, cur, compressed);
            var s := PutApp(cur, CtlOf(prev, cur, packed, compressed)) + rest;
            var r := ReadApp(s, prev, packed);
            && s != [] && Head(s) == Some(fs[0])
            && (if Stops(Only(cur, fs), Last(LOGICAL_END, fs), Head(rest)) then
                  r.Got? && r.rest == rest && (r.value == cur <==> Fits(prev, cur))
                else r.Got? ==> Head(rest).value in r.value.stuff)
  {
    hide PutApp, ReadLogical, ReadSymbol, Left, LogicalFields, Inherit, Only, CtlOf;
    var ctl := CtlOf(prev, cur, packed, compressed);
    var fs := Left(prev, cur, compressed);
    var s := PutApp(cur, ctl) + rest;
    CtlPacked(prev, cur, packed, compressed);
    LeftIs(prev, cur, packed, compressed);
    LogicalRead(cur, ctl, rest);
    if prev.Some? {
      InheritsWhenFits(prev.value, cur, compressed);
    } else {
      WholeFirst(cur, compressed);
    }
    if !Stops(Only(cur, fs), Last(LOGICAL_END, fs), Head(rest)) {
      Swallows(Only(cur, fs), Last(LOGICAL_END, fs), rest, packed);
      var q := ReadLogical(NO_APP, LOGICAL_END, s, packed);
      if q.Got? && prev.Some? { InheritAt(q.value.path, q.value.last + 1, prev.value); }
    }
  }

  lemma CtlPacked(prev: Option<App>, cur: App, packed: bool, compressed: bool)
    ensures CtlOf(prev, cur, packed, compressed).packed == packed
  {
  }

  function Slots(apps: seq<App>, n: nat): seq<App>
    requires |apps| <= n
  {
    apps + seq(n - |apps|, _ => NO_APP)
  }

  /** What follows the application paths: nothing, a data segment, or padding. */
  predicate Tail(s: seq<byte>) {
    s == [] || s[0] == 0x80 || s[0] == 0
  }

  lemma {:induction false} EmptySlots(tail: seq<byte>, prev: Option<App>, n: nat, packed: bool)
    requires Tail(tail)
    ensures ReadApps(tail, prev, n, packed) == Got(Slots([], n), tail)
    decreases n
  {
    if n == 0 {
      assert Slots([], n) == [];
    } else {
      if tail != [] { assert ReadApp(tail, prev, packed) == Got(NO_APP, tail); }
      EmptySlots(tail, Some(NO_APP), n - 1, packed);
      assert [NO_APP] + Slots([], n - 1) == Slots([], n);
    }
  }

  lemma PutAppsStep(prev: Option<App>, apps: seq<App>, tail: seq<byte>, packed: bool, compressed: bool)
    requires apps != [] && Shaped(apps[0])
    ensures PutApps(apps, prev, packed, compressed) + tail
            == PutApp(apps[0], CtlOf(prev, apps[0], packed, compressed)) + (PutApps(apps[1..], Some(apps[0]), packed, compressed) + tail)
  {
    hide PutApp, CtlAfter;
    assert CLASS in apps[0].stuff;
    var a, b := PutApp(apps[0], CtlOf(prev, apps[0], packed, compressed)), PutApps(apps[1..], Some(apps[0]), packed, compressed);
    assert PutApps(apps, prev, packed, compressed) == a + b;
    assert (a + b) + tail == a + (b + tail);
  }

  predicate AllShaped(apps: seq<App>) {
    forall k :: 0 <= k < |apps| ==> Shaped(apps[k])
  }

  /** The first link of a chain. */
  lemma LinkRead(prev: Option<App>, apps: seq<App>, tail: seq<byte>, packed: bool, compressed: bool)
    requires AllShaped(apps) && apps != [] && Tail(tail) && (prev.Some? ==> Shaped(prev.value))
    ensures var cur := apps[0];
            var rest := PutApps(apps[1..], Some(cur), packed, compressed) + tail;
            var s := PutApps(apps, prev, packed, compressed) + tail;
            var r := ReadApp(s, prev, packed);
            && s != []
            && (if Fits(prev, cur) && (|apps| > 1 ==> Ends(prev, cur, apps[1], compressed)) then r == Got(cur, rest)
                else !(r.Got? && r.value == cur))
  {
    hide PutApp, PutApps, ReadApp, Left, CtlOf, Fits, Ends, Shaped, Stops, Only;
    var cur := apps[0];
    var rest := PutApps(apps[1..], Some(cur), packed, compressed) + tail;
    PutAppsStep(prev, apps, tail, packed, compressed);
    SlotRead(prev, cur, rest, packed, compressed);
    if |apps| > 1 {
      PutAppsStep(Some(cur), apps[1..], tail, packed, compressed);
      SlotRead(Some(cur), apps[1], PutApps(apps[2..], Some(apps[1]), packed, compressed) + tail, packed, compressed);
      assert apps[1..][1..] == apps[2..];
      StopsWhenEnds(prev, cur, apps[1], compressed);
    } else {
      NoApps(Some(cur), packed, compressed);
      assert apps[1..] == [] && [] + tail == tail;
      TailStops(cur, Left(prev, cur, compressed), tail);
    }
  }

  /** A chain of written paths is read back, slot by slot, exactly when it is well linked;
      and then what follows it is left untouched. */
  lemma {:induction false} ChainRead(prev: Option<App>, apps: seq<App>, n: nat, tail: seq<byte>, packed: bool, compressed: bool)
    requires AllShaped(apps) && |apps| <= n && Tail(tail) && (prev.Some? ==> Shaped(prev.value))
    ensures var r := ReadApps(PutApps(apps, prev, packed, compressed) + tail, prev, n, packed);
            if ChainOk(prev, apps, compressed) then r == Got(Slots(apps, n), tail)
            else !(r.Got? && r.value == Slots(apps, n))
    decreases n
  {
    hide PutApps, ReadApp, Fits, Ends, Shaped;
    if apps == [] {
      assert PutApps(apps, prev, packed, compressed) + tail == tail by { NoApps(prev, packed, compressed); }
      EmptySlots(tail, prev, n, packed);
    } else {
      var cur := apps[0];
      LinkRead(prev, apps, tail, packed, compressed);
      assert Slots(apps, n) == [cur] + Slots(apps[1..], n - 1);
      ChainRead(Some(cur), apps[1..], n - 1, tail, packed, compressed);
      var first := ReadApp(PutApps(apps, prev, packed, compressed) + tail, prev, packed);
      if first.Got? {
        var others := ReadApps(first.rest, Some(first.value), n - 1, packed);
        HeadsDiffer(first.value, if others.Got? then others.value else [], cur, Slots(apps[1..], n - 1));
      }
    }
  }

  lemma HeadsDiffer(a: App, x: seq<App>, b: App, y: seq<App>)
    ensures [a] + x == [b] + y ==> a == b && x == y
  {
    if [a] + x == [b] + y {
      assert ([a] + x)[0] == a && ([b] + y)[0] == b;
      assert ([a] + x)[1..] == x && ([b] + y)[1..] == y;
    }
  }

  lemma NoApps(prev: Option<App>, packed: bool, compressed: bool)
    ensures PutApps([], prev, packed, compressed) == []
  {
  }

  lemma TailStops(p: App, fields: seq<nat>, tail: seq<byte>)
    requires Tail(tail)
    ensures Stops(Only(p, fields), Last(LOGICAL_END, fields), Head(tail))
  {
  }

  // ----- Whole connection paths

  /** A connection path as the stack keeps it: application paths of the three kinds in the
      first slots, words of 16 bits, a group that comes back by itself. */
  predicate PathInRange(p: Path, used: nat) {
    && used <= SLOTS && |p.apps| == SLOTS
    && AllShaped(p.apps[..used]) && p.apps[used..] == seq(SLOTS - used, _ => NO_APP)
    && (p.data.Some? ==> WordsOk(p.data.value))
    && GroupInRange(p.group)
    && !(p.group.port.Some? && p.group.port.value.port == 15) && (p.group.inMsecs ==> p.group.pit % 1000 == 0)
  }

  lemma {:induction false} SkipEmpty(apps: seq<App>, m: nat, prev: Option<App>, packed: bool, compressed: bool)
    requires AllShaped(apps)
    ensures PutApps(apps + seq(m, _ => NO_APP), prev, packed, compressed) == PutApps(apps, prev, packed, compressed)
    decreases |apps| + m
  {
    hide PutApp, CtlAfter;
    var all := apps + seq(m, _ => NO_APP);
    if apps != [] {
      assert CLASS in apps[0].stuff;
      assert all[1..] == apps[1..] + seq(m, _ => NO_APP);
      SkipEmpty(apps[1..], m, Some(apps[0]), packed, compressed);
    } else if m > 0 {
      assert all[1..] == [] + seq(m - 1, _ => NO_APP);
      SkipEmpty([], m - 1, prev, packed, compressed);
    } else {
      assert all == [];
    }
  }

  /** Written application paths begin with a class segment, so they end the group. */
  lemma AppsEndGroup(apps: seq<App>, tail: seq<byte>, packed: bool, compressed: bool)
    requires AllShaped(apps) && Tail(tail) && (apps == [] && tail != [] ==> tail[0] == 0x80)
    ensures NoGroupSegment(PutApps(apps, None, packed, compressed) + tail)
  {
    hide PutApp, PutApps, Left, CtlOf;
    var s := PutApps(apps, None, packed, compressed) + tail;
    if apps == [] {
      NoApps(None, packed, compressed);
      assert s == tail;
    } else {
      PutAppsStep(None, apps, tail, packed, compressed);
      SlotRead(None, apps[0], PutApps(apps[1..], Some(apps[0]), packed, compressed) + tail, packed, compressed);
      LeftIs(None, apps[0], packed, compressed);
      assert FieldOf(s[0]) == Some(CLASS);
    }
  }

  lemma DataTail(p: Path, packed: bool, compressed: bool)
    requires PutPath(p, packed, compressed).Some?
    ensures PutGroup(p.group, packed).Some? && (p.data.Some? ==> PutData(p.data.value).Some? && |p.data.value| <= 255)
    ensures var d := if p.data.Some? then PutData(p.data.value).value else [];
            Tail(d) && (d != [] ==> d[0] == 0x80)
            && PutPath(p, packed, compressed).value
                       == PutGroup(p.group, packed).value + (PutApps(p.apps, None, packed, compressed) + d)
  {
    hide PutGroup, PutApps;
    var d := if p.data.Some? then PutData(p.data.value).value else [];
    var g, a := PutGroup(p.group, packed).value, PutApps(p.apps, None, packed, compressed);
    assert (g + a) + d == g + (a + d);
  }

  /** Connection path round trip, padded and packed, compressed and not: what can be written
      is read back exactly when the application paths are well linked. */
  lemma PathRoundTrip(p: Path, used: nat, packed: bool, compressed: bool)
    requires PathInRange(p, used) && PutPath(p, packed, compressed).Some?
    ensures ReadPath(PutPath(p, packed, compressed).value, packed) == Some(p) <==> ChainOk(None, p.apps[..used], compressed)
  {
    hide PutGroup, PutApps, ReadGroup, ReadApps, ReadData, PutData, ChainOk, AllShaped, WordsOk, GroupInRange;
    var d := if p.data.Some? then PutData(p.data.value).value else [];
    var apps := p.apps[..used];
    DataTail(p, packed, compressed);
    assert p.apps == apps + seq(SLOTS - used, _ => NO_APP) == Slots(apps, SLOTS);
    SkipEmpty(apps, SLOTS - used, None, packed, compressed);
    AppsEndGroup(apps, d, packed, compressed);
    GroupRoundTrip(p.group, PutApps(p.apps, None, packed, compressed) + d, packed);
    ChainRead(None, apps, SLOTS, d, packed, compressed);
    if p.data.Some? {
      DataRoundTrip(p.data.value, []);
      assert d + [] == d;
      assert d != [] by { DataWritten(p.data.value); }
    }
  }

  /** Group and application paths are read, and what follows them is left. */
  lemma FrontRead(p: Path, used: nat, packed: bool, compressed: bool, tail: seq<byte>)
    requires PathInRange(p, used) && PutGroup(p.group, packed).Some? && ChainOk(None, p.apps[..used], compressed)
    requires Tail(tail) && (used == 0 && tail != [] ==> tail[0] == 0x80)
    ensures var a := PutApps(p.apps, None, packed, compressed);
            && ReadGroup(NO_GROUP, PutGroup(p.group, packed).value + (a + tail), packed) == Got(p.group, a + tail)
            && ReadApps(a + tail, None, SLOTS, packed) == Got(p.apps, tail)
  {
    hide PutGroup, PutApps, ReadGroup, ReadApps, ChainOk, AllShaped, WordsOk, GroupInRange;
    var apps := p.apps[..used];
    assert p.apps == apps + seq(SLOTS - used, _ => NO_APP) == Slots(apps, SLOTS);
    SkipEmpty(apps, SLOTS - used, None, packed, compressed);
    AppsEndGroup(apps, tail, packed, compressed);
    GroupRoundTrip(p.group, PutApps(p.apps, None, packed, compressed) + tail, packed);
    ChainRead(None, apps, SLOTS, tail, packed, compressed);
  }

  /** What follows a well linked path in the same input: a single byte that makes their number even
      is padding, anything else an error. */
  lemma PaddingOnly(p: Path, used: nat, packed: bool, compressed: bool, extra: seq<byte>)
    requires PathInRange(p, used) && PutPath(p, packed, compressed).Some? && ChainOk(None, p.apps[..used], compressed)
    requires p.data.None? && extra != [] ==> used > 0 && extra[0] == 0
    ensures var b := PutPath(p, packed, compressed).value;
            ReadPath(b + extra, packed) == if extra == [] || (|extra| == 1 && |b| % 2 == 1) then Some(p) else None
  {
    hide PutGroup, PutApps, ReadGroup, ReadApps, ReadData, PutData, ChainOk, PathInRange, Tail;
    var d := if p.data.Some? then PutData(p.data.value).value else [];
    DataTail(p, packed, compressed);
    TailFollowed(p.data, d, extra);
    FrontRead(p, used, packed, compressed, d + extra);
    var a := PutApps(p.apps, None, packed, compressed);
    Regroup(PutGroup(p.group, packed).value, a, d, extra);
    if p.data.Some? {
      assert WordsOk(p.data.value) by { WordsInRange(p, used); }
      DataRoundTrip(p.data.value, extra);
    } else {
      assert d + extra == extra;
      NoDataThere(extra);
    }
  }

  lemma WordsInRange(p: Path, used: nat)
    requires PathInRange(p, used) && p.data.Some?
    ensures WordsOk(p.data.value)
  {
  }

  lemma Regroup(g: seq<byte>, a: seq<byte>, d: seq<byte>, x: seq<byte>)
    ensures (g + (a + d)) + x == g + (a + (d + x))
  {
  }

  lemma TailFollowed(data: Option<seq<nat>>, d: seq<byte>, extra: seq<byte>)
    requires d == if data.Some? then (if PutData(data.value).Some? then PutData(data.value).value else [0x80]) else []
    requires data.None? && extra != [] ==> extra[0] == 0
    ensures Tail(d + extra)
    ensures data.Some? ==> d != [] && (d + extra)[0] == 0x80
  {
  }

  lemma NoDataThere(s: seq<byte>)
    requires s != [] ==> s[0] == 0
    ensures s != [] ==> ReadData(s) == Got(None, s)
  {
  }

  lemma DataWritten(ws: seq<nat>)
    requires PutData(ws).Some?
    ensures PutData(ws).value != []
  {
  }

  /** The forms the protocol promises to compress: either attribute paths only, or instance
      paths and assembly connection points where such a point follows an assembly path and
      never directly an instance whose class was left out. */
  predicate Promised(apps: seq<App>, compressed: bool) {
    || (forall k :: 0 <= k < |apps| ==> IsAttribute(apps[k]))
    || ((forall k :: 0 <= k < |apps| ==> !IsAttribute(apps[k]))
        && forall k :: 0 < k < |apps| && IsConnPt(apps[k]) ==>
             GetClass(apps[k - 1]) == ASSEMBLY
             && !(compressed && IsInstance(apps[k - 1]) && k > 1 && GetClass(apps[k - 2]) == ASSEMBLY))
  }

  lemma PromisedChain(apps: seq<App>, compressed: bool)
    requires |apps| <= SLOTS && AllShaped(apps) && Promised(apps, compressed)
    ensures ChainOk(None, apps, compressed)
  {
    if |apps| > 0 { ChainStep(None, apps, compressed); }
    if |apps| > 1 { ChainStep(Some(apps[0]), apps[1..], compressed); }
    if |apps| > 2 { ChainStep(Some(apps[1]), apps[2..], compressed); }
  }

  lemma ChainStep(prev: Option<App>, apps: seq<App>, compressed: bool)
    requires apps != []
    ensures ChainOk(prev, apps, compressed) <==>
            Fits(prev, apps[0]) && (|apps| > 1 ==> Ends(prev, apps[0], apps[1], compressed))
            && ChainOk(Some(apps[0]), apps[1..], compressed)
  {
  }

  /** Three assembly paths: two instances and a connection point. */
  function TwoInstancesAndPoint(): (r: seq<App>)
    ensures |r| == 3
  {
    [App(map[CLASS := ASSEMBLY, INSTANCE := 100], None), App(map[CLASS := ASSEMBLY, INSTANCE := 101], None),
     App(map[CLASS := ASSEMBLY, CONN_PT := 102], None)]
  }

  lemma LostChain()
    ensures !ChainOk(None, TwoInstancesAndPoint(), true)
  {
    hide ChainOk;
    var apps := TwoInstancesAndPoint();
    ChainStep(None, apps, true);
    ChainStep(Some(apps[0]), apps[1..], true);
  }

  lemma EmptyChain(prev: Option<App>)
    ensures ChainOk(prev, [], false)
  {
  }

  lemma KeptChain()
    ensures ChainOk(None, TwoInstancesAndPoint(), false)
  {
    hide ChainOk;
    var apps := TwoInstancesAndPoint();
    ChainStep(None, apps, false);
    ChainStep(Some(apps[0]), apps[1..], false);
    ChainStep(Some(apps[1]), apps[2..], false);
    assert apps[3..] == [] && ChainOk(Some(apps[2]), [], false) by { EmptyChain(Some(apps[2])); }
  }

  lemma LostInRange()
    ensures PathInRange(Path(NO_GROUP, TwoInstancesAndPoint(), None), 3)
  {
    var apps := TwoInstancesAndPoint();
    assert IsInstance(apps[0]) && IsInstance(apps[1]) && IsConnPt(apps[2]);
    assert apps[..3] == apps && apps[3..] == seq(0, _ => NO_APP);
  }

  /** A compressed path that is lost. The second instance is written without its class, so the
      reader takes the connection point for part of it. Uncompressed the same path comes back. */
  lemma LostConnectionPoint()
    ensures var p := Path(NO_GROUP, TwoInstancesAndPoint(), None);
            && ReadPath(PutPath(p, false, true).value, false) != Some(p)
            && ReadPath(PutPath(p, false, false).value, false) == Some(p)
  {
    hide PutApps, ReadPath, ChainOk, PathInRange, TwoInstancesAndPoint;
    var apps := TwoInstancesAndPoint();
    var p := Path(NO_GROUP, apps, None);
    LostChain();
    KeptChain();
    LostInRange();
    assert apps[..3] == apps;
    PathRoundTrip(p, 3, false, true);
    PathRoundTrip(p, 3, false, false);
  }
}
