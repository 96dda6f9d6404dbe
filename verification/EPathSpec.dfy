/** EPATHs as values: application paths, the port segment group, the data segment and the
    connection path, with what the stack writes for them and reads back (sections C-1.3 to
    C-1.6 of CIP Volume 1). An exception of the original is the result None or Fail. */
module EPathSpec {
  import opened Words
  import opened Bytes

  // ----- Application paths

  // The fields of an application path, least significant first: inheritance relies on it.
  const ATTRIBUTE := 0
  const CONN_PT := 1
  const INSTANCE := 2
  const CLASS := 3
  const LOGICAL_END := 4
  const MEMBER1 := 4
  const MEMBER2 := 5
  const MEMBER3 := 6
  const TAG := 7

  const ASSEMBLY := 4  // the class id
  const MAX_TAG := 41

  /** The fields that are set, and the symbol. */
  datatype App = App(stuff: map<nat, int>, tag: Option<seq<byte>>)

  const NO_APP := App(map[], None)

  predicate HasAny(p: App) { p != NO_APP }

  function Get(p: App, f: nat): int {
    if f in p.stuff then p.stuff[f] else 0
  }

  function Set(p: App, f: nat, v: int): App {
    p.(stuff := p.stuff[f := v])
  }

  function GetClass(p: App): int { Get(p, CLASS) }

  function GetInstanceOrConnPt(p: App): int {
    if GetClass(p) == ASSEMBLY && INSTANCE !in p.stuff then Get(p, CONN_PT) else Get(p, INSTANCE)
  }

  predicate IsSufficient(p: App) {
    CLASS in p.stuff && (INSTANCE in p.stuff || (p.stuff[CLASS] == ASSEMBLY && CONN_PT in p.stuff))
  }

  /** How to write: packed or padded, and which inherited fields to leave out. */
  datatype Ctl = Ctl(packed: bool, omitClass: bool, omitInstance: bool, omitConnPt: bool)

  function Plain(packed: bool): Ctl { Ctl(packed, false, false, false) }

  function SegmentOf(f: nat): (b: byte)
    ensures b % 4 == 0
  {
    if f == CLASS then 0x20
    else if f == INSTANCE then 0x24
    else if f == CONN_PT then 0x2C
    else if f == ATTRIBUTE then 0x30
    else 0x28
  }

  /** The field a logical segment sets; None ends an application path. */
  function FieldOf(first: byte): Option<nat> {
    var seg := first / 4 * 4;
    if seg == 0x20 then Some(CLASS)
    else if seg == 0x24 then Some(INSTANCE)
    else if seg == 0x2C then Some(CONN_PT)
    else if seg == 0x30 then Some(ATTRIBUTE)
    else None
  }

  function PadTo16(packed: bool): seq<byte> {
    if packed then [] else [0]
  }

  /** serialize_logical. */
  function PutLogical(seg: byte, v: int, packed: bool): (r: seq<byte>)
    ensures |r| >= 2
  {
    var u := U32(v);
    if u < 256 then [seg, u]
    else if u < TWO16 then [U8(seg + 1)] + PadTo16(packed) + Put16(u)
    else [U8(seg + 2)] + PadTo16(packed) + Put32(u)
  }

  function PutFields(p: App, fields: seq<nat>, packed: bool): (r: seq<byte>) {
    if fields == [] then []
    else PutLogical(SegmentOf(fields[0]), Get(p, fields[0]), packed) + PutFields(p, fields[1..], packed)
  }

  /** The fields of a path without a symbol that are written, in order. */
  function LogicalFields(p: App, ctl: Ctl): seq<nat> {
    var c := if CLASS in p.stuff && !ctl.omitClass then [CLASS] else [];
    var i := if INSTANCE in p.stuff && !ctl.omitInstance then [INSTANCE] else [];
    var a := if ATTRIBUTE in p.stuff then [ATTRIBUTE] else [];
    if GetClass(p) == ASSEMBLY then
      c + (if i != [] then i else if CONN_PT in p.stuff && !ctl.omitConnPt then [CONN_PT] else []) + a
    else if CONN_PT !in p.stuff then c + i + a
    else c + i + [CONN_PT]
  }

  /** Members are written without gaps only. */
  function MemberFields(p: App): seq<nat> {
    if MEMBER1 !in p.stuff then []
    else if MEMBER2 !in p.stuff then [MEMBER1]
    else if MEMBER3 !in p.stuff then [MEMBER1, MEMBER2]
    else [MEMBER1, MEMBER2, MEMBER3]
  }

  /** The fields written after a symbol. */
  function SymbolFields(p: App): seq<nat> {
    (if CONN_PT in p.stuff then [CONN_PT] else []) + MemberFields(p)
  }

  function PutSymbol(tag: seq<byte>): seq<byte> {
    [0x91, U8(|tag|)] + tag + (if |tag| % 2 == 1 then [0] else [])
  }

  /** CipAppPath::Serialize. */
  function PutApp(p: App, ctl: Ctl): seq<byte> {
    if p.tag.Some? then PutSymbol(p.tag.value) + PutFields(p, SymbolFields(p), ctl.packed)
    else PutFields(p, LogicalFields(p, ctl), ctl.packed)
  }

  /** A failure, or what was read and what is left of the input. */
  datatype Parse<T> = Fail | Got(value: T, rest: seq<byte>)

  /** An int of the machine holding the 32 bits of v. */
  function ToInt32(v: nat): int {
    if v < TWO31 then v else v - TWO32
  }

  /** deserialize_logical, past the first byte. The 32 bit form skips one byte more than it
      was written with. */
  function ReadValue(s: seq<byte>, format: nat, packed: bool): Parse<int> {
    var pad := if packed then 0 else 1;
    if format == 0 then (if |s| < 1 then Fail else Got(s[0], s[1..]))
    else if format == 1 then (if |s| < pad + 2 then Fail else Got(Get16(s[pad..]), s[pad + 2..]))
    else if format == 2 then (if |s| < pad + 5 then Fail else Got(ToInt32(Get32(s[pad + 1..])), s[pad + 5..]))
    else Fail
  }

  /** A path under construction and its last field. */
  datatype Partial = Partial(path: App, last: nat)

  /** Another path begins, or this one is over: the next segment is no logical one, or is
      not below the last one, or is a connection point right after an assembly's instance. */
  predicate Stops(p: App, last: nat, next: Option<nat>) {
    next.None? || next.value >= last
    || (GetClass(p) == ASSEMBLY && last == INSTANCE && next.value == CONN_PT)
  }

  function Head(s: seq<byte>): Option<nat> {
    if s == [] then None else FieldOf(s[0])
  }

  /** The loop of DeserializeAppPath over logical segments. */
  function ReadLogical(p: App, last: nat, s: seq<byte>, packed: bool): (r: Parse<Partial>)
    ensures r.Got? ==> |r.rest| <= |s|
    decreases |s|
  {
    if Stops(p, last, Head(s)) then Got(Partial(p, last), s)
    else
      match ReadValue(s[1..], s[0] % 4, packed)
      case Fail => Fail
      case Got(v, rest) => ReadLogical(Set(p, Head(s).value, v), Head(s).value, rest, packed)
  }

  /** The bytes of a C string. */
  function CString(s: seq<byte>): (r: seq<byte>)
    ensures |r| <= |s|
  {
    if s == [] || s[0] == 0 then [] else [s[0]] + CString(s[1..])
  }

  /** deserialize_symbolic: a symbol, or None with nothing read. */
  function ReadSymbol(s: seq<byte>): (r: Parse<Option<seq<byte>>>)
    ensures r.Got? && r.value.Some? ==> |r.rest| < |s|
    ensures r.Got? && r.value.None? ==> r.rest == s
  {
    if s == [] then Fail
    else if s[0] == 0x91 then
      if |s| < 2 || s[1] > MAX_TAG || |s| < 2 + s[1] + s[1] % 2 then Fail
      else Got(Some(CString(s[2..2 + s[1]])), s[2 + s[1] + s[1] % 2..])
    else if s[0] / 32 == 3 then
      var n := s[0] % 32;
      if |s| < 1 + n + (1 + n) % 2 then Fail
      else Got(Some(CString(s[1..1 + n])), s[1 + n + (1 + n) % 2..])
    else Got(None, s)
  }

  /** Up to three member segments after a symbol. */
  function ReadMembers(p: App, m: nat, s: seq<byte>, packed: bool): (r: Parse<App>)
    requires m <= MEMBER3 + 1
    ensures r.Got? ==> |r.rest| <= |s|
    decreases MEMBER3 + 1 - m
  {
    if m > MEMBER3 || s == [] || s[0] / 4 * 4 != 0x28 then Got(p, s)
    else
      match ReadValue(s[1..], s[0] % 4, packed)
      case Fail => Fail
      case Got(v, rest) => ReadMembers(Set(p, m, v), m + 1, rest, packed)
  }

  function ReadAfterSymbol(p: App, s: seq<byte>, packed: bool): (r: Parse<App>)
    ensures r.Got? ==> |r.rest| <= |s|
  {
    if s != [] && s[0] / 4 * 4 == 0x2C then
      match ReadValue(s[1..], s[0] % 4, packed)
      case Fail => Fail
      case Got(v, rest) => ReadMembers(Set(p, CONN_PT, v), MEMBER1, rest, packed)
    else ReadMembers(p, MEMBER1, s, packed)
  }

  /** The field f of a path is taken over from the one before it. */
  predicate Takes(p: App, start: nat, from: App, f: nat) {
    && start <= f < LOGICAL_END && f !in p.stuff && f in from.stuff
    && !(GetClass(from) == ASSEMBLY && start == INSTANCE && f == INSTANCE)
  }

  /** inherit and inherit_assembly. */
  function Inherit(p: App, start: nat, from: App): App {
    p.(stuff := p.stuff + map f | f in from.stuff && Takes(p, start, from, f) :: from.stuff[f])
  }

  /** CipAppPath::DeserializeAppPath. */
  function ReadApp(s: seq<byte>, prev: Option<App>, packed: bool): (r: Parse<App>)
    ensures r.Got? ==> |r.rest| <= |s|
  {
    match ReadSymbol(s)
    case Fail => Fail
    case Got(Some(tag), rest) => ReadAfterSymbol(App(map[], Some(tag)), rest, packed)
    case Got(None, _) =>
      match ReadLogical(NO_APP, LOGICAL_END, s, packed)
      case Fail => Fail
      case Got(q, rest) =>
        Got(if |rest| < |s| && prev.Some? then Inherit(q.path, q.last + 1, prev.value) else q.path, rest)
  }

  // ----- The port segment group

  datatype Key = Key(vendor: nat, device: nat, product: nat, major: nat, minor: nat)

  datatype Port = Port(port: nat, link: seq<byte>)

  /** The two forms of the production inhibit time share the one value `pit`, in
      microseconds; it is 0 when neither form is present. */
  datatype Group = Group(key: Option<Key>, inUsecs: bool, inMsecs: bool, pit: nat, port: Option<Port>)

  const NO_GROUP := Group(None, false, false, 0, None)

  function PutKey(k: Key): seq<byte> {
    [0x34, 4] + Put16(k.vendor) + Put16(k.device) + Put16(k.product) + [U8(k.major), U8(k.minor)]
  }

  /** CipPortSegment::Serialize, its bytes before the padding. */
  function PutPortBytes(p: Port): seq<byte> {
    (if |p.link| == 1 then
       if p.port <= 15 then [U8(p.port)] else [0x0f] + Put16(p.port)
     else
       if p.port <= 15 then [U8(0x10 + p.port), U8(|p.link|)] else [0x1f, U8(|p.link|)] + Put16(p.port))
    + p.link
  }

  function PadEven(n: nat, packed: bool): seq<byte> {
    if !packed && n % 2 == 1 then [0] else []
  }

  function PutPort(p: Port, packed: bool): (r: Option<seq<byte>>)
    ensures r.Some? <==> |p.link| <= 255
  {
    if |p.link| > 255 then None
    else Some(PutPortBytes(p) + PadEven(|PutPortBytes(p)|, packed))
  }

  function PutInhibit(g: Group): Option<seq<byte>> {
    if g.inMsecs && g.pit / 1000 > 255 then None
    else
      Some((if g.inUsecs then [0x51, 2] + Put32(g.pit) else [])
           + (if g.inMsecs then [0x43, U8(g.pit / 1000)] else []))
  }

  /** CipPortSegmentGroup::Serialize. */
  function PutGroup(g: Group, packed: bool): Option<seq<byte>> {
    var pit := PutInhibit(g);
    var port := if g.port.Some? then PutPort(g.port.value, packed) else Some([]);
    if pit.None? || port.None? then None
    else Some((if g.key.Some? then PutKey(g.key.value) else []) + pit.value + port.value)
  }

  /** The n bytes of the link address, from `at` on, and the padding. */
  function ReadLink(s: seq<byte>, port: nat, at: nat, n: nat, packed: bool): (r: Parse<Port>)
    ensures r.Got? && at > 0 ==> |r.rest| < |s|
  {
    var used := at + n + (if !packed && (at + n) % 2 == 1 then 1 else 0);
    if |s| < used then Fail else Got(Port(port, s[at..at + n]), s[used..])
  }

  /** CipPortSegment::DeserializePortSegment; s starts with the segment. */
  function ReadPort(s: seq<byte>, packed: bool): (r: Parse<Port>)
    requires s != []
    ensures r.Got? ==> |r.rest| < |s|
  {
    var sized := s[0] / 16 % 2 == 1;
    if sized && |s| < 2 then Fail
    else
      var n := if sized then s[1] as nat else 1;
      var at := if sized then 2 else 1;
      if s[0] % 16 != 15 then ReadLink(s, s[0] % 16, at, n, packed)
      else if |s| < at + 2 then Fail
      else ReadLink(s, Get16(s[at..]), at + 2, n, packed)
  }

  function ReadKey(s: seq<byte>): (r: Parse<Key>)
    ensures r.Got? ==> |r.rest| + 10 == |s|
  {
    if |s| < 10 || s[1] != 4 then Fail
    else Got(Key(Get16(s[2..]), Get16(s[4..]), Get16(s[6..]), s[8], s[9]), s[10..])
  }

  function ReadUsecs(s: seq<byte>): (r: Parse<nat>)
    ensures r.Got? ==> |r.rest| < |s|
  {
    if |s| < 2 then Fail
    else if s[1] == 1 then (if |s| < 4 then Fail else Got(Get16(s[2..]), s[4..]))
    else if s[1] == 2 then (if |s| < 6 then Fail else Got(Get32(s[2..]), s[6..]))
    else Fail
  }

  /** DeserializePortSegmentGroup, from a group under construction on. */
  function ReadGroup(g: Group, s: seq<byte>, packed: bool): (r: Parse<Group>)
    ensures r.Got? ==> |r.rest| <= |s|
    decreases |s|
  {
    if s == [] then Got(g, s)
    else if s[0] < 0x20 then
      match ReadPort(s, packed)
      case Fail => Fail
      case Got(p, rest) => ReadGroup(g.(port := Some(p)), rest, packed)
    else if s[0] == 0x34 then
      match ReadKey(s)
      case Fail => Fail
      case Got(k, rest) => ReadGroup(g.(key := Some(k)), rest, packed)
    else if s[0] == 0x43 then
      if |s| < 2 then Fail else ReadGroup(g.(inMsecs := true, pit := s[1] as int * 1000), s[2..], packed)
    else if s[0] == 0x51 then
      match ReadUsecs(s)
      case Fail => Fail
      case Got(v, rest) => ReadGroup(g.(inUsecs := true, pit := v), rest, packed)
    else Got(g, s)
  }

  // ----- The data segment

  function PutWords(words: seq<nat>): (r: seq<byte>)
    ensures |r| == 2 * |words|
  {
    if words == [] then [] else Put16(words[0]) + PutWords(words[1..])
  }

  /** CipSimpleDataSegment::Serialize. */
  function PutData(words: seq<nat>): Option<seq<byte>> {
    if |words| > 255 then None else Some([0x80, U8(|words|)] + PutWords(words))
  }

  function ReadWords(s: seq<byte>, n: nat): (r: Parse<seq<nat>>)
    ensures r.Got? ==> |r.rest| <= |s|
  {
    if n == 0 then Got([], s)
    else if |s| < 2 then Fail
    else
      match ReadWords(s[2..], n - 1)
      case Fail => Fail
      case Got(ws, rest) => Got([Get16(s)] + ws, rest)
  }

  function ReadData(s: seq<byte>): (r: Parse<Option<seq<nat>>>)
    ensures r.Got? ==> |r.rest| <= |s|
  {
    if s == [] then Fail
    else if s[0] != 0x80 then Got(None, s)
    else if |s| < 2 then Fail
    else
      match ReadWords(s[2..], s[1])
      case Fail => Fail
      case Got(ws, rest) => Got(Some(ws), rest)
  }

  // ----- The connection path

  const SLOTS := 3

  datatype Path = Path(group: Group, apps: seq<App>, data: Option<seq<nat>>)

  /** What is left out of a path that follows prev. */
  function CtlAfter(prev: Option<App>, cur: App, packed: bool): Ctl {
    if prev.None? then Plain(packed)
    else
      var p := prev.value;
      Ctl(packed,
          GetClass(p) == GetClass(cur),
          (CONN_PT in cur.stuff || ATTRIBUTE in cur.stuff) && Get(p, INSTANCE) == Get(cur, INSTANCE),
          ATTRIBUTE in cur.stuff && Get(p, CONN_PT) == Get(cur, CONN_PT))
  }

  /** The application paths, empty slots skipped. */
  function PutApps(apps: seq<App>, prev: Option<App>, packed: bool, compressed: bool): seq<byte> {
    if apps == [] then []
    else if !HasAny(apps[0]) then PutApps(apps[1..], prev, packed, compressed)
    else
      PutApp(apps[0], if compressed then CtlAfter(prev, apps[0], packed) else Plain(packed))
      + PutApps(apps[1..], Some(apps[0]), packed, compressed)
  }

  /** ConnectionPath::Serialize. */
  function PutPath(p: Path, packed: bool, compressed: bool): Option<seq<byte>> {
    var g := PutGroup(p.group, packed);
    var d := if p.data.Some? then PutData(p.data.value) else Some([]);
    if g.None? || d.None? then None
    else Some(g.value + PutApps(p.apps, None, packed, compressed) + d.value)
  }

  /** One slot: with no input left it stays empty. */
  function ReadSlot(s: seq<byte>, prev: Option<App>, packed: bool): (r: Parse<App>)
    ensures r.Got? ==> |r.rest| <= |s|
  {
    if s == [] then Got(NO_APP, s) else ReadApp(s, prev, packed)
  }

  /** n application paths, each inheriting from the one before. */
  function ReadApps(s: seq<byte>, prev: Option<App>, n: nat, packed: bool): (r: Parse<seq<App>>)
    ensures r.Got? ==> |r.value| == n && |r.rest| <= |s|
    decreases n
  {
    if n == 0 then Got([], s)
    else
      match ReadSlot(s, prev, packed)
      case Fail => Fail
      case Got(a, rest) =>
        match ReadApps(rest, Some(a), n - 1, packed)
        case Fail => Fail
        case Got(others, end) => Got([a] + others, end)
  }

  /** ConnectionPath::Deserialize; one odd byte at the end of an even input is padding. */
  function ReadPath(s: seq<byte>, packed: bool): Option<Path> {
    match ReadGroup(NO_GROUP, s, packed)
    case Fail => None
    case Got(g, s1) =>
      match ReadApps(s1, None, SLOTS, packed)
      case Fail => None
      case Got(apps, s2) =>
        match if s2 == [] then Got(None, s2) else ReadData(s2)
        case Fail => None
        case Got(d, s3) =>
          if s3 == [] || (|s3| == 1 && |s| % 2 == 0) then Some(Path(g, apps, d)) else None
  }
}
