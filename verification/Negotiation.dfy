/** Negotiating an I/O connection: which application path is for what (Table 3-5.13 of CIP
    Volume 1), whether they name assemblies, and whether the requested sizes fit. */
module Negotiation {
  import opened Words
  import opened Bytes
  import opened EPathSpec
  import opened ForwardOpen
  import opened IoFrame
  import C = ConnSpec

  const MESSAGE_ROUTER := 2
  const RESERVED_CLASSES := 0xc8

  /** The classes that exist, each with the ids of its instances. */
  type Registry = map<int, set<int>>

  datatype Fault =
    | BadSegment | BadCombo | BadConfigPath | BadConsumingPath | BadProducingPath

  /** An instance, or the class itself, which answers to instance id 0. */
  datatype Object = ClassObject(class_: int) | Instance(class_: int, id: int)

  function Lookup(reg: Registry, p: App): Option<Object>
    requires GetClass(p) in reg
  {
    var id := GetInstanceOrConnPt(p);
    if id == 0 then Some(ClassObject(GetClass(p)))
    else if id in reg[GetClass(p)] then Some(Instance(GetClass(p), id))
    else None
  }

  /** check_path: the object named, or why there is none. */
  datatype Checked = Names(o: Object) | Not(why: Fault)

  function CheckPath(reg: Registry, p: App): Checked {
    if !IsSufficient(p) then Not(BadSegment)
    else if GetClass(p) !in reg then Not(if GetClass(p) >= RESERVED_CLASSES then BadSegment else BadCombo)
    else match Lookup(reg, p) case None => Not(BadSegment) case Some(o) => Names(o)
  }

  /** The slots of the three roles; None when a role is not filled. */
  datatype Roles = Roles(config: Option<nat>, consuming: Option<nat>, producing: Option<nat>)

  function PathCount(apps: seq<App>): (n: nat)
    requires |apps| == SLOTS
    ensures 1 <= n <= SLOTS
  {
    1 + (if HasAny(apps[1]) then 1 else 0) + (if HasAny(apps[2]) then 1 else 0)
  }

  /** Table 3-5.13: with a data segment the first path is for configuration, and up to one
      path for each direction follows; the last path is for production. Without one there is
      nothing to configure, and a first path of three is ignored. Paths may be shared when
      there are fewer. */
  function Table(consumes: bool, produces: bool, hasData: bool, count: nat): Option<Roles>
    requires count >= 1
  {
    var directions := (if consumes then 1 else 0) + (if produces then 1 else 0);
    if directions == 0 then
      if hasData then Some(Roles(Some(0), None, None))
      else if count == 1 then Some(Roles(None, Some(0), None))  // a ping
      else None
    else
      var most := if hasData then 1 + directions else if directions == 2 then 3 else 1;
      if count > most then None
      else
        var first := if hasData then (if count > 1 then 1 else 0) else if count == 3 then 1 else 0;
        Some(Roles(if hasData then Some(0) else None,
                   if consumes then Some(first) else None,
                   if produces then Some((count - 1) as nat) else None))
  }

  datatype Resolution = Resolved(roles: Roles, mgmnt: int) | Failed(why: Fault)

  /** A path in some role; the empty path when the role is not filled. */
  function RolePath(apps: seq<App>, slot: Option<nat>): App {
    if slot.Some? && slot.value < |apps| then apps[slot.value] else NO_APP
  }

  /** The checks of the transport class, once the roles are known. */
  function ClassCheck(apps: seq<App>, r: Roles, class_: nat): Option<Fault> {
    if class_ == 3 then
      var p := RolePath(apps, r.consuming);
      if GetClass(p) != MESSAGE_ROUTER || GetInstanceOrConnPt(p) != 1 then Some(BadCombo) else None
    else if class_ == 0 || class_ == 1 then
      if r.config.Some? && GetClass(RolePath(apps, r.config)) != ASSEMBLY then Some(BadConfigPath)
      else if r.consuming.Some? && GetClass(RolePath(apps, r.consuming)) != ASSEMBLY then Some(BadConsumingPath)
      else if r.producing.Some? && GetClass(RolePath(apps, r.producing)) != ASSEMBLY then Some(BadProducingPath)
      else None
    else None
  }

  /** What goes wrong with the paths after the first, if they are used: a bad one counts as the
      consuming path if it is for consumption, be it for production too, and else as the
      producing one. */
  function LaterPaths(reg: Registry, apps: seq<App>, r: Roles): Option<Fault>
    requires |apps| == SLOTS
  {
    var uses := (k: nat) => r.consuming == Some(k) || r.producing == Some(k);
    if uses(1) && CheckPath(reg, apps[1]).Not? then Some(if r.consuming == Some(1) then BadConsumingPath else BadProducingPath)
    else if uses(2) && CheckPath(reg, apps[2]).Not? then Some(BadProducingPath)
    else None
  }

  /** ResolveInstances, by the table. */
  function Resolve(reg: Registry, apps: seq<App>, consumes: bool, produces: bool, hasData: bool, class_: nat): Resolution
    requires |apps| == SLOTS
  {
    var first := CheckPath(reg, apps[0]);
    if first.Not? then Failed(first.why)
    else
      match Table(consumes, produces, hasData, PathCount(apps))
      case None => Failed(BadSegment)
      case Some(r) =>
        var later := LaterPaths(reg, apps, r);
        var wrong := ClassCheck(apps, r, class_);
        if later.Some? then Failed(later.value)
        else if wrong.Some? then Failed(wrong.value)
        else Resolved(r, GetClass(apps[if !hasData && consumes && produces && PathCount(apps) == 3 then 1 else 0]))
  }

  /** ConnectionData::ResolveInstances as it is coded, case by case. */
  method ResolveInstances(reg: Registry, apps: seq<App>, ot: C.CastType, to: C.CastType, hasData: bool, class_: nat) returns (res: Resolution)
    requires |apps| == SLOTS
    ensures res == Resolve(reg, apps, ot != C.NullCast, to != C.NullCast, hasData, class_)
  {
    hide CheckPath, ClassCheck;
    var instance1 := CheckPath(reg, apps[0]);
    if instance1.Not? { return Failed(instance1.why); }
    var mgmnt := GetClass(apps[0]);
    var pathCount := PathCount(apps);
    var config: Option<nat>, consuming: Option<nat>, producing: Option<nat> := None, None, None;
    if ot == C.NullCast && to == C.NullCast {
      if hasData {
        config := Some(0);
      } else {
        if pathCount != 1 { return Failed(BadSegment); }
        consuming := Some(0);
      }
    } else if ot != C.NullCast && to == C.NullCast {
      if hasData {
        if pathCount == 3 { return Failed(BadSegment); }
        config := Some(0);
        consuming := Some(0);
        if pathCount == 2 {
          if CheckPath(reg, apps[1]).Not? { return Failed(BadConsumingPath); }
          consuming := Some(1);
        }
      } else {
        if pathCount != 1 { return Failed(BadSegment); }
        consuming := Some(0);
      }
    } else if ot == C.NullCast && to != C.NullCast {
      if hasData {
        if pathCount == 3 { return Failed(BadSegment); }
        config := Some(0);
        producing := Some(0);
        if pathCount == 2 {
          if CheckPath(reg, apps[1]).Not? { return Failed(BadProducingPath); }
          producing := Some(1);
        }
      } else {
        if pathCount != 1 { return Failed(BadSegment); }
        producing := Some(0);
      }
    } else {
      if hasData {
        config := Some(0);
        if pathCount == 1 {
          consuming, producing := Some(0), Some(0);
        } else {
          if CheckPath(reg, apps[1]).Not? { return Failed(BadConsumingPath); }
          consuming, producing := Some(1), Some(1);
          if pathCount == 3 {
            if CheckPath(reg, apps[2]).Not? { return Failed(BadProducingPath); }
            producing := Some(2);
          }
        }
      } else {
        consuming, producing := Some(0), Some(0);
        if pathCount == 2 {
          if CheckPath(reg, apps[1]).Not? { return Failed(BadProducingPath); }
          producing := Some(1);
        } else if pathCount == 3 {
          if CheckPath(reg, apps[1]).Not? { return Failed(BadConsumingPath); }
          if CheckPath(reg, apps[2]).Not? { return Failed(BadProducingPath); }
          consuming, producing := Some(1), Some(2);
          mgmnt := GetClass(apps[1]);
        }
      }
    }
    var wrong := ClassCheck(apps, Roles(config, consuming, producing), class_);
    if wrong.Some? { return Failed(wrong.value); }
    res := Resolved(Roles(config, consuming, producing), mgmnt);
  }

  /** The slot is filled with a path to an assembly object: an instance that exists, or, for
      id 0 only, the assembly class itself. */
  predicate NamesAssembly(reg: Registry, apps: seq<App>, slot: Option<nat>) {
    && slot.Some? && slot.value < |apps| && ASSEMBLY in reg
    && CheckPath(reg, apps[slot.value]).Names?
    && var o := CheckPath(reg, apps[slot.value]).o;
       var id := GetInstanceOrConnPt(apps[slot.value]);
       (if id == 0 then o == ClassObject(ASSEMBLY) else o == Instance(ASSEMBLY, id) && id in reg[ASSEMBLY])
  }

  /** Table 3-5.13 of CIP Volume 1, row by row: the slots of a request that is resolved, and how
      many paths it may have. */
  lemma RoleTable(reg: Registry, apps: seq<App>, consumes: bool, produces: bool, hasData: bool, class_: nat)
    requires |apps| == SLOTS
    ensures var r := Resolve(reg, apps, consumes, produces, hasData, class_);
            var n := PathCount(apps);
            r.Resolved? ==>
              && r.mgmnt == GetClass(if consumes && produces && !hasData && n == 3 then apps[1] else apps[0])
              && match (consumes, produces, hasData)
              case (false, false, true) => r.roles == Roles(Some(0), None, None)
              case (false, false, false) => n == 1 && r.roles == Roles(None, Some(0), None)
              case (true, false, true) =>
                (n == 1 && r.roles == Roles(Some(0), Some(0), None)) || (n == 2 && r.roles == Roles(Some(0), Some(1), None))
              case (true, false, false) => n == 1 && r.roles == Roles(None, Some(0), None)
              case (false, true, true) =>
                (n == 1 && r.roles == Roles(Some(0), None, Some(0))) || (n == 2 && r.roles == Roles(Some(0), None, Some(1)))
              case (false, true, false) => n == 1 && r.roles == Roles(None, None, Some(0))
              case (true, true, true) =>
                || (n == 1 && r.roles == Roles(Some(0), Some(0), Some(0)))
                || (n == 2 && r.roles == Roles(Some(0), Some(1), Some(1)))
                || (n == 3 && r.roles == Roles(Some(0), Some(1), Some(2)))
              case (true, true, false) =>
                || (n == 1 && r.roles == Roles(None, Some(0), Some(0)))
                || (n == 2 && r.roles == Roles(None, Some(0), Some(1)))
                || (n == 3 && r.roles == Roles(None, Some(1), Some(2)))
  {
    hide CheckPath, ClassCheck;
  }

  /** How many paths a request may have. */
  predicate CountAllowed(consumes: bool, produces: bool, hasData: bool, n: nat) {
    if consumes && produces then true
    else if consumes || produces then n == 1 || (hasData && n == 2)
    else n == 1 || hasData
  }

  /** A request is resolved exactly when its first path is good, it has no more paths than it may,
      the later ones it uses are good, and its class accepts them; the first of these that fails
      gives the error. */
  lemma ResolvedExactly(reg: Registry, apps: seq<App>, consumes: bool, produces: bool, hasData: bool, class_: nat)
    requires |apps| == SLOTS
    ensures var r := Resolve(reg, apps, consumes, produces, hasData, class_);
            var n := PathCount(apps);
            var bad := (k: nat) => k < SLOTS && CheckPath(reg, apps[k]).Not?;
            if bad(0) then r == Failed(CheckPath(reg, apps[0]).why)
            else if !CountAllowed(consumes, produces, hasData, n) then r == Failed(BadSegment)
            else
              var c := if !consumes then 0 else if hasData then (if n == 1 then 0 else 1) else if n == 3 then 1 else 0;
              var p := if !produces then 0 else n - 1;
              if consumes && bad(c) then r == Failed(BadConsumingPath)
              else if produces && bad(p) then r == Failed(BadProducingPath)
              else r.Resolved? || (class_ in {0, 1, 3} && r.why in {BadCombo, BadConfigPath, BadConsumingPath, BadProducingPath})
  {
    hide CheckPath;
  }

  /** What the class of the connection asks of the paths once they are good. */
  lemma ClassFaults(reg: Registry, apps: seq<App>, consumes: bool, produces: bool, hasData: bool, class_: nat, r: Roles)
    requires |apps| == SLOTS && CheckPath(reg, apps[0]).Names?
    requires Table(consumes, produces, hasData, PathCount(apps)) == Some(r) && LaterPaths(reg, apps, r).None?
    ensures var z := Resolve(reg, apps, consumes, produces, hasData, class_);
            var foreign := (k: Option<nat>) => k.Some? && k.value < SLOTS && GetClass(apps[k.value]) != ASSEMBLY;
            && (class_ in {0, 1} ==>
                  if foreign(r.config) then z == Failed(BadConfigPath)
                  else if foreign(r.consuming) then z == Failed(BadConsumingPath)
                  else if foreign(r.producing) then z == Failed(BadProducingPath)
                  else z.Resolved?)
            && (class_ == 3 && r.consuming.Some? ==>
                  var router := GetClass(apps[r.consuming.value]) == 2 && GetInstanceOrConnPt(apps[r.consuming.value]) == 1;
                  if router then z.Resolved? else z == Failed(BadCombo))
            && (class_ !in {0, 1, 3} ==> z.Resolved?)
  {
    hide CheckPath, GetClass, GetInstanceOrConnPt;
  }

  /** A path names an object exactly when it has enough fields and its class and instance are
      there, instance 0 being the class; an unknown class that is not reserved gets an error of
      its own. */
  lemma CheckedPath(reg: Registry, p: App)
    ensures var there := GetClass(p) in reg && (GetInstanceOrConnPt(p) == 0 || GetInstanceOrConnPt(p) in reg[GetClass(p)]);
            var r := CheckPath(reg, p);
            && (r.Names? <==> IsSufficient(p) && there)
            && (r == Not(BadCombo) <==> IsSufficient(p) && GetClass(p) !in reg && GetClass(p) < 0xc8)
            && (r.Not? ==> r.why in {BadCombo, BadSegment})
  {
    hide GetClass, GetInstanceOrConnPt, IsSufficient;
  }

  /** After resolving a class 0 or 1 request, each direction that is not null has a path to an
      assembly, a direction that is null has none unless it is a ping, and configuration is
      by the first path exactly when there is a data segment. */
  lemma ResolvedNamesAssemblies(reg: Registry, apps: seq<App>, consumes: bool, produces: bool, hasData: bool, class_: nat)
    requires |apps| == SLOTS && (class_ == 0 || class_ == 1)
    ensures var r := Resolve(reg, apps, consumes, produces, hasData, class_);
            r.Resolved? ==>
              && (consumes ==> NamesAssembly(reg, apps, r.roles.consuming))
              && (produces ==> NamesAssembly(reg, apps, r.roles.producing))
              && (hasData ==> r.roles.config == Some(0) && NamesAssembly(reg, apps, Some(0)))
              && (!hasData ==> r.roles.config == None)
              && (!produces ==> r.roles.producing == None)
              && (!consumes && (produces || hasData) ==> r.roles.consuming == None)
  {
  }

  /** The object a direction gets is a genuine instance exactly when its path does not name id
      0: check_path takes the class for an instance then. */
  lemma GenuineUnlessZero(reg: Registry, apps: seq<App>, consumes: bool, produces: bool, hasData: bool, class_: nat, k: nat)
    requires |apps| == SLOTS && (class_ == 0 || class_ == 1)
    requires Resolve(reg, apps, consumes, produces, hasData, class_).Resolved?
    requires var r := Resolve(reg, apps, consumes, produces, hasData, class_).roles;
             (consumes && r.consuming == Some(k)) || (produces && r.producing == Some(k))
    ensures k < SLOTS && CheckPath(reg, apps[k]).Names?
    ensures CheckPath(reg, apps[k]).o.Instance? <==> GetInstanceOrConnPt(apps[k]) != 0
  {
    ResolvedNamesAssemblies(reg, apps, consumes, produces, hasData, class_);
  }

  /** A request for the assembly "instance" 0 is resolved, to the class itself. */
  lemma ZeroIsResolved()
    ensures var a := App(map[CLASS := ASSEMBLY, INSTANCE := 0], None);
            Resolve(map[ASSEMBLY := {}], [a, NO_APP, NO_APP], true, false, false, 1) == Resolved(Roles(None, Some(0), None), ASSEMBLY)
  {
  }

  /** The two directions get paths of their own exactly when there are enough of them, and
      consumption then comes right before production. */
  lemma SeparatePaths(reg: Registry, apps: seq<App>, hasData: bool, class_: nat)
    requires |apps| == SLOTS
    ensures var r := Resolve(reg, apps, true, true, hasData, class_);
            r.Resolved? ==>
              && r.roles.consuming.Some? && r.roles.producing == Some(PathCount(apps) - 1)
              && (r.roles.consuming != r.roles.producing <==> PathCount(apps) >= (if hasData then 3 else 2))
              && (r.roles.consuming != r.roles.producing ==> r.roles.consuming == Some(PathCount(apps) - 2))
  {
    hide CheckPath, ClassCheck;
  }

  // ----- Sizes

  /** Fields of the network connection parameters. */
  predicate NcpFixed(n: Ncp) { (if n.large then n.bits / 0x200_0000 else n.bits / 0x200) % 2 == 0 }

  function NcpSize(n: Ncp): nat { if n.large then n.bits % TWO16 else n.bits % 0x200 }

  /** The connection type in the parameters. */
  function NcpCast(n: Ncp): C.CastType {
    match (if n.large then n.bits / 0x2000_0000 else n.bits / 0x2000) % 4
    case 0 => C.NullCast
    case 1 => C.Multicast
    case 2 => C.PointToPoint
    case _ => C.InvalidCast
  }

  function CastCode(t: C.CastType): nat {
    match t case NullCast => 0 case Multicast => 1 case PointToPoint => 2 case InvalidCast => 3
  }

  /** The parameters put together from their fields, as Table 3-5.9 of CIP Volume 1 has them: from
      the lowest bit the size, in 9 bits or 16, and from bit 9 or 25 on whether it is variable,
      the priority, the connection type and redundant ownership. */
  function NcpOf(size: nat, fixed: bool, priority: nat, cast: C.CastType, redundant: bool, large: bool): Ncp {
    var top := (if fixed then 0 else 1) + 2 * priority + 16 * CastCode(cast) + (if redundant then 64 else 0);
    Ncp(size + (if large then 0x200_0000 else 0x200) * top, large)
  }

  /** The fields are read from where they were put. */
  lemma NcpFields(size: nat, fixed: bool, priority: nat, cast: C.CastType, redundant: bool, large: bool)
    requires priority < 4 && size < (if large then TWO16 else 0x200)
    ensures var n := NcpOf(size, fixed, priority, cast, redundant, large);
            NcpInRange(n) && NcpSize(n) == size && NcpFixed(n) == fixed && NcpCast(n) == cast
  {
    hide NcpInRange;
    var code := CastCode(cast);
    var top := (if fixed then 0 else 1) + 2 * priority + 16 * code + (if redundant then 64 else 0);
    TopFields(fixed, priority, code, redundant);
    if large { LargeParts(size, top); } else { SmallParts(size, top); }
  }

  lemma TopFields(fixed: bool, priority: nat, code: nat, redundant: bool)
    requires priority < 4 && code < 4
    ensures var top := (if fixed then 0 else 1) + 2 * priority + 16 * code + (if redundant then 64 else 0);
            top < 128 && (top % 2 == 0 <==> fixed) && top / 16 % 4 == code
  {
  }

  lemma SmallParts(size: nat, top: nat)
    requires size < 0x200 && top < 128
    ensures var b := size + 0x200 * top;
            b % 0x200 == size && b / 0x200 == top && b / 0x2000 == top / 16 && NcpInRange(Ncp(b, false))
  {
  }

  lemma LargeParts(size: nat, top: nat)
    requires size < TWO16 && top < 128
    ensures var b := size + 0x200_0000 * top;
            b % TWO16 == size && b / 0x200_0000 == top && b / 0x2000_0000 == top / 16 && NcpInRange(Ncp(b, true))
  {
  }

  /** The bytes in front of the data: the sequence count, and the run/idle word unless the
      assembly is empty. */
  function Overhead(class_: nat, fmt: Format, attrSize: nat): nat {
    (if class_ == 1 then 2 else 0) + (if fmt == Header32 && attrSize != 0 then 4 else 0)
  }

  predicate SizeOk(class_: nat, fmt: Format, attrSize: nat, n: Ncp) {
    var room := NcpSize(n) - Overhead(class_, fmt, attrSize);
    room >= 0 && Fits(NcpFixed(n), attrSize, room)
  }

  /** What one end asks of the other: the requested parameters, the real-time format, and
      the size of the assembly it is about. */
  datatype End = End(n: Ncp, fmt: Format, attrSize: nat)

  predicate EndOk(class_: nat, e: End) { SizeOk(class_, e.fmt, e.attrSize, e.n) }

  /** The size the assembly really needs, in the sixteen bits there are for it. */
  function Proposed(class_: nat, e: End): nat { U16(Overhead(class_, e.fmt, e.attrSize) + e.attrSize) }

  /** One direction of CorrectSizes: whether the requested size will do, and if not the one to
      propose instead. */
  method CorrectSize(class_: nat, e: End) returns (ok: bool, corrected: nat)
    ensures ok <==> EndOk(class_, e)
    ensures !ok ==> corrected == Proposed(class_, e)
  {
    var dataSize, diff := NcpSize(e.n), 0;
    corrected := 0;
    if class_ == 1 { diff := diff + 2; }
    if e.fmt == Header32 && e.attrSize != 0 { diff := diff + 4; }
    if dataSize < diff {
      return false, U16(e.attrSize + diff);
    }
    dataSize := dataSize - diff;
    if (NcpFixed(e.n) && dataSize != e.attrSize) || dataSize > e.attrSize {
      return false, U16(e.attrSize + diff);
    }
    ok := true;
  }

  /** The outcome of CorrectSizes, with the size proposed for the direction at fault. */
  datatype Sizes = SizesOk | InvalidOtoT(corrected: nat) | InvalidTtoO(corrected: nat)

  /** ConnectionData::CorrectSizes: every direction that is not null has to suit, and a bad
      O->T size is reported before a bad T->O one. */
  method CorrectSizes(class_: nat, consumes: bool, produces: bool, ot: End, to: End) returns (r: Sizes)
    ensures r.SizesOk? <==> (consumes ==> EndOk(class_, ot)) && (produces ==> EndOk(class_, to))
    ensures r.InvalidOtoT? <==> consumes && !EndOk(class_, ot)
    ensures r.InvalidOtoT? ==> r.corrected == Proposed(class_, ot)
    ensures r.InvalidTtoO? ==> r.corrected == Proposed(class_, to)
  {
    if consumes {
      var ok, corrected := CorrectSize(class_, ot);
      if !ok { return InvalidOtoT(corrected); }
    }
    if produces {
      var ok, corrected := CorrectSize(class_, to);
      if !ok { return InvalidTtoO(corrected); }
    }
    r := SizesOk;
  }

  /** Asking again for the size proposed when a request was refused succeeds, unless assembly
      and overhead together do not fit sixteen bits. */
  lemma ProposalIsAccepted(class_: nat, e: End)
    requires e.attrSize < TWO16 && NcpSize(e.n) == Proposed(class_, e)
    ensures EndOk(class_, e) <==> Overhead(class_, e.fmt, e.attrSize) + e.attrSize < TWO16
  {
  }

  /** Negotiation guarantees delivery: once the size is accepted, a frame as long as
      negotiated (or, with variable size, anywhere from the overhead up to that) passes
      header parsing and the assembly's length check, heartbeats included. */
  lemma NegotiatedIsDelivered(class_: nat, fmt: Format, attrSize: nat, n: Ncp, s: seq<byte>, last: nat)
    requires SizeOk(class_, fmt, attrSize, n)
    requires if NcpFixed(n) then |s| == NcpSize(n) else Overhead(class_, fmt, attrSize) <= |s| <= NcpSize(n)
    ensures var d := HandleIo(class_, last, fmt, NcpFixed(n), attrSize, s);
            && d != Throws && d != WrongAmount
            && (attrSize == 0 ==> d == Heartbeat || d == Duplicate)
            && (d.Stored? ==> |d.data| == |s| - Overhead(class_, fmt, attrSize))
  {
    hide Get16, Get32;
  }

  /** And only an accepted size does: a frame of the requested length with something behind
      the overhead, and new, is stored exactly when CorrectSizes accepts that size. */
  lemma AcceptedIsStored(class_: nat, fmt: Format, attrSize: nat, n: Ncp, s: seq<byte>, last: nat)
    requires attrSize > 0 && |s| == NcpSize(n) > Overhead(class_, fmt, attrSize)
    requires class_ == 1 ==> Diff16(Get16(s), last) > 0
    ensures HandleIo(class_, last, fmt, NcpFixed(n), attrSize, s).Stored? <==> SizeOk(class_, fmt, attrSize, n)
  {
    hide Get16, Get32;
  }
}
