/** The sorted registries of a CIP class: instances, services and attributes kept in order of
    their ids and found by binary search; and the guard against overlapping attributes. */
module Registry {
  import opened Words

  predicate Sorted(ids: seq<int>) {
    forall i, j :: 0 <= i < j < |ids| ==> ids[i] < ids[j]
  }

  // ----- Searching

  /** The place of the id, or the end: a linear search. */
  function Linear(ids: seq<int>, target: int): (k: nat)
    ensures k <= |ids|
  {
    if ids == [] || ids[0] == target then 0 else 1 + Linear(ids[1..], target)
  }

  lemma {:induction false} LinearIs(ids: seq<int>, target: int, k: nat)
    requires k <= |ids| && (forall i :: 0 <= i < k ==> ids[i] != target) && (k < |ids| ==> ids[k] == target)
    ensures Linear(ids, target) == k
  {
    if k > 0 {
      LinearIs(ids[1..], target, k - 1);
    }
  }

  /** vec_search: on sorted ids the binary search is the linear one. */
  method VecSearch(ids: seq<int>, target: int) returns (k: nat)
    requires Sorted(ids)
    ensures k == Linear(ids, target)
    ensures k < |ids| <==> target in ids
    ensures k < |ids| ==> ids[k] == target
  {
    var begin, end := 0, |ids|;
    while begin < end
      invariant 0 <= begin <= end <= |ids|
      invariant forall i :: 0 <= i < begin ==> ids[i] < target
      invariant forall i :: end <= i < |ids| ==> ids[i] > target
    {
      var middle := begin + (end - begin - 1) / 2;
      var r := target - ids[middle];
      if r < 0 {
        end := middle;
      } else if r > 0 {
        begin := middle + 1;
      } else {
        LinearIs(ids, target, middle);
        return middle;
      }
    }
    LinearIs(ids, target, |ids|);
    k := |ids|;
  }

  /** vec_search_gte: the first id that is not below the target, or the end. */
  method VecSearchGte(ids: seq<int>, target: int) returns (k: nat)
    requires Sorted(ids)
    ensures k <= |ids|
    ensures forall i :: 0 <= i < k ==> ids[i] < target
    ensures forall i :: k <= i < |ids| ==> ids[i] >= target
  {
    var begin, end := 0, |ids|;
    while begin < end
      invariant 0 <= begin <= end <= |ids|
      invariant forall i :: 0 <= i < begin ==> ids[i] < target
      invariant forall i :: end <= i < |ids| ==> ids[i] > target
    {
      var middle := begin + (end - begin - 1) / 2;
      var r := target - ids[middle];
      if r < 0 {
        end := middle;
      } else if r > 0 {
        begin := middle + 1;
      } else {
        return middle;
      }
    }
    k := end;
  }

  /** The least positive id that is not in use. */
  method FindUniqueFreeId(ids: seq<int>) returns (id: int)
    requires Sorted(ids) && forall i :: 0 <= i < |ids| ==> ids[i] > 0
    ensures id > 0 && id !in ids
    ensures forall j :: 0 < j < id ==> j in ids
  {
    var last := 0;
    var k := 0;
    while k < |ids|
      invariant 0 <= k <= |ids| && last == k
      invariant forall i :: 0 <= i < k ==> ids[i] == i + 1
    {
      if ids[k] > last + 1 { break; }
      assert k > 0 ==> ids[k - 1] < ids[k];
      last := ids[k];
      k := k + 1;
    }
    id := last + 1;
    forall j | 0 < j < id ensures j in ids {
      assert ids[j - 1] == j;
    }
  }

  // ----- Inserting and removing

  /** The loop of the insert functions: the place to insert at, and whether that id is already
      there. */
  method FindPlace(ids: seq<int>, id: int) returns (at: nat, same: bool)
    requires Sorted(ids)
    ensures at <= |ids| && (forall i :: 0 <= i < at ==> ids[i] < id) && (forall i :: at <= i < |ids| ==> ids[i] >= id)
    ensures same <==> id in ids
    ensures same ==> at < |ids| && ids[at] == id
  {
    at := 0;
    while at < |ids|
      invariant 0 <= at <= |ids| && forall i :: 0 <= i < at ==> ids[i] < id
    {
      if id < ids[at] { return at, false; }
      if id == ids[at] { return at, true; }
      at := at + 1;
    }
    same := false;
  }

  /** One insert or remove, on the ids alone: an insert of a registered id changes nothing. */
  datatype Op = Insert(id: int) | Remove(id: int)

  function Elements(ids: seq<int>): set<int> { set i | i in ids }

  /** What the registered ids are after a run. */
  function After(s: set<int>, ops: seq<Op>): set<int>
    decreases |ops|
  {
    if ops == [] then s
    else After(match ops[0] case Insert(id) => s + {id} case Remove(id) => s - {id}, ops[1..])
  }

  /** The place of an id among sorted ones is determined by the set alone, so two registries
      with the same ids are the same list. */
  lemma {:induction false} SortedIsUnique(a: seq<int>, b: seq<int>)
    requires Sorted(a) && Sorted(b) && Elements(a) == Elements(b)
    ensures a == b
    decreases |a|
  {
    NotEmpty(b);
    if a != [] {
      assert a[0] in Elements(a);
      assert b != [];
      var i :| 0 <= i < |b| && b[i] == a[0];
      assert b[0] in Elements(b);
      var j :| 0 <= j < |a| && a[j] == b[0];
      assert a[0] == b[0];
      TailElements(a);
      TailElements(b);
      SortedIsUnique(a[1..], b[1..]);
      assert a == [a[0]] + a[1..] && b == [b[0]] + b[1..];
    }
  }

  lemma NotEmpty(a: seq<int>)
    ensures Elements(a) == {} ==> a == []
  {
    if a != [] { assert a[0] in Elements(a); }
  }

  lemma TailElements(a: seq<int>)
    requires Sorted(a) && a != []
    ensures Elements(a[1..]) == Elements(a) - {a[0]} && Sorted(a[1..])
  {
    forall x | x in Elements(a) - {a[0]} ensures x in Elements(a[1..]) {
      var k :| 0 <= k < |a| && a[k] == x;
      assert a[1..][k - 1] == x;
    }
  }

  lemma Joined(a: seq<int>, id: int, b: seq<int>)
    requires Sorted(a) && Sorted(b)
    requires (forall i :: 0 <= i < |a| ==> a[i] < id) && (forall i :: 0 <= i < |b| ==> id < b[i])
    ensures Sorted(a + [id] + b)
  {
    var r := a + [id] + b;
    forall i, j | 0 <= i < j < |r| ensures r[i] < r[j] {
      if j < |a| {
      } else if i < |a| {
        assert r[i] == a[i] < id;
        assert j > |a| ==> r[j] == b[j - |a| - 1];
      } else {
        assert r[j] == b[j - |a| - 1];
        assert i > |a| ==> r[i] == b[i - |a| - 1];
      }
    }
  }

  /** The sorted list with one id more. */
  lemma InsertedIsSorted(ids: seq<int>, at: nat, id: int)
    requires Sorted(ids) && at <= |ids| && id !in ids
    requires (forall i :: 0 <= i < at ==> ids[i] < id) && (forall i :: at <= i < |ids| ==> ids[i] >= id)
    ensures var r := ids[..at] + [id] + ids[at..]; Sorted(r) && Elements(r) == Elements(ids) + {id}
  {
    hide Sorted;
    Halves(ids, at);
    var a, b := ids[..at], ids[at..];
    assert ids == a + b;
    forall i | 0 <= i < |b| ensures id < b[i] {
      assert b[i] == ids[at + i] && ids[at + i] in ids;
    }
    Joined(a, id, b);
  }

  lemma Halves(ids: seq<int>, at: nat)
    requires Sorted(ids) && at <= |ids|
    ensures Sorted(ids[..at]) && Sorted(ids[at..])
  {
  }

  lemma RemovedIsSorted(ids: seq<int>, at: nat)
    requires Sorted(ids) && at < |ids|
    ensures var r := ids[..at] + ids[at + 1..]; Sorted(r) && Elements(r) == Elements(ids) - {ids[at]}
  {
    var r := ids[..at] + ids[at + 1..];
    forall x | x in ids && x != ids[at] ensures x in r {
      var k :| 0 <= k < |ids| && ids[k] == x;
      assert r[if k < at then k else k - 1] == x;
    }
    forall x | x in r ensures x in ids && x != ids[at] {
      var k :| 0 <= k < |r| && r[k] == x;
      assert x == ids[if k < at then k else k + 1];
    }
  }

  function Dropped<T>(was: seq<T>, at: nat, same: bool): seq<T>
    requires at <= |was| && (same ==> at < |was|)
  {
    if same then was[..at] + was[at + 1..] else was
  }

  /** The vector with x at that place, an element with the same id having made room. */
  function Placed<T>(was: seq<T>, at: nat, same: bool, x: T): seq<T>
    requires at <= |was| && (same ==> at < |was|)
  {
    var rest := Dropped(was, at, same);
    rest[..at] + [x] + rest[at..]
  }

  lemma PlacedIds(ids: seq<int>, at: nat, same: bool, id: int)
    requires Sorted(ids) && at <= |ids| && (same <==> id in ids) && (same ==> at < |ids| && ids[at] == id)
    requires (forall i :: 0 <= i < at ==> ids[i] < id) && (forall i :: at <= i < |ids| ==> ids[i] >= id)
    ensures var r := Placed(ids, at, same, id); Sorted(r) && Elements(r) == Elements(ids) + {id}
    ensures id !in Dropped(ids, at, same)
  {
    var rest := Dropped(ids, at, same);
    if same {
      RemovedIsSorted(ids, at);
      assert id !in Elements(rest);
      forall i | at <= i < |rest| ensures rest[i] >= id {
        assert rest[i] == ids[i + 1];
      }
      assert forall i :: 0 <= i < at ==> rest[i] == ids[i];
    }
    InsertedIsSorted(rest, at, id);
  }

  // ----- The objects

  class CipInstance {
    const id: int
    var owner: CipClass?

    constructor (id: int)
      ensures this.id == id && owner == null
    {
      this.id, owner := id, null;
    }
  }

  class CipService {
    const id: int

    constructor (id: int)
      ensures this.id == id
    {
      this.id := id;
    }
  }

  /** A CIP data type: its code, the bytes it occupies (0 for those of no fixed size), and
      whether it views a byte array. */
  datatype CipType = CipType(code: nat, size: nat, byteArray: bool)

  class CipAttribute {
    const id: int
    const isOffset: bool  // an offset from the instance, or a pointer
    const where: nat
    const type_: CipType

    constructor (id: int, isOffset: bool, where: nat, type_: CipType)
      ensures this.id == id && this.isOffset == isOffset && this.where == where && this.type_ == type_
    {
      this.id, this.isOffset, this.where, this.type_ := id, isOffset, where, type_;
    }
  }

  /** Two attributes that may be registered together. */
  predicate Compatible(a: CipAttribute, e: CipAttribute) {
    || a.isOffset != e.isOffset || a.type_.size == 0 || e.type_.size == 0
    || a.where + a.type_.size <= e.where || e.where + e.type_.size <= a.where
    || a.type_ == e.type_ || (a.type_.byteArray && e.type_.byteArray)
  }

  /** Two attributes may not be registered together exactly when they are stored in the same way,
      some byte belongs to both, and their types differ, other than as two views of a byte array. */
  lemma IncompatibleMeans(a: CipAttribute, e: CipAttribute)
    ensures !Compatible(a, e) <==>
              && a.isOffset == e.isOffset
              && (exists x: nat :: InStorage(a, x) && InStorage(e, x))
              && a.type_ != e.type_ && !(a.type_.byteArray && e.type_.byteArray)
  {
    var x := if a.where > e.where then a.where else e.where;
    if a.where < e.where + e.type_.size && e.where < a.where + a.type_.size {
      assert InStorage(a, x) == (a.type_.size > 0) && InStorage(e, x) == (e.type_.size > 0);
    }
  }

  predicate InStorage(a: CipAttribute, x: nat) {
    a.where <= x < a.where + a.type_.size
  }

  function InstanceIds(s: seq<CipInstance>): (r: seq<int>)
    ensures |r| == |s|
  {
    seq(|s|, i requires 0 <= i < |s| => s[i].id)
  }

  function ServiceIds(s: seq<CipService>): (r: seq<int>)
    ensures |r| == |s|
  {
    seq(|s|, i requires 0 <= i < |s| => s[i].id)
  }

  function AttributeIds(s: seq<CipAttribute>): (r: seq<int>)
    ensures |r| == |s|
  {
    seq(|s|, i requires 0 <= i < |s| => s[i].id)
  }

  /** What CipClass::Instance answers; id 0 stands for the class itself. */
  datatype Answer = TheClass(c: CipClass) | TheInstance(i: CipInstance) | Nobody

  class CipClass {
    var instances: seq<CipInstance>
    var services: seq<CipService>
    var attributes: seq<CipAttribute>

    ghost predicate Valid()
      reads this, instances
    {
      && (forall k :: 0 <= k < |instances| ==> instances[k].owner == this)
      && Sorted(InstanceIds(instances)) && Sorted(ServiceIds(services)) && Sorted(AttributeIds(attributes))
      && (forall k :: 0 <= k < |instances| ==> 0 < instances[k].id <= 65535)
      && (forall i, j :: 0 <= i < |attributes| && 0 <= j < |attributes| && i != j ==> Compatible(attributes[i], attributes[j]))
    }

    constructor ()
      ensures Valid() && instances == [] && services == [] && attributes == []
    {
      instances, services, attributes := [], [], [];
    }

    /** InstanceInsert: an instance that has an owner, or whose id is taken, is refused. */
    method InstanceInsert(a: CipInstance) returns (ok: bool)
      requires Valid() && 0 < a.id <= 65535
      modifies this`instances, a
      ensures Valid()
      ensures ok <==> old(a.owner) == null && a.id !in old(InstanceIds(instances))
      ensures ok ==> a.owner == this && a in instances
                     && Elements(InstanceIds(instances)) == Elements(old(InstanceIds(instances))) + {a.id}
      ensures !ok ==> instances == old(instances) && a.owner == old(a.owner)
    {
      if a.owner != null { return false; }
      var ids := InstanceIds(instances);
      var at, same := FindPlace(ids, a.id);
      if same { return false; }
      InsertedIsSorted(ids, at, a.id);
      instances := instances[..at] + [a] + instances[at..];
      assert InstanceIds(instances) == ids[..at] + [a.id] + ids[at..];
      assert instances[at] == a;
      a.owner := this;
      ok := true;
    }

    /** InstanceRemove. The instance removed keeps its owner. */
    method InstanceRemove(id: int) returns (r: CipInstance?)
      requires Valid()
      modifies this`instances
      ensures Valid()
      ensures r != null <==> id in old(InstanceIds(instances))
      ensures r != null ==> r.id == id && r in old(instances) && r.owner == this
      ensures Elements(InstanceIds(instances)) == Elements(old(InstanceIds(instances))) - {id}
    {
      ghost var ids := InstanceIds(instances);
      var k := 0;
      while k < |instances|
        invariant 0 <= k <= |instances| && Valid() && instances == old(instances)
        invariant forall i :: 0 <= i < k ==> ids[i] != id
      {
        if instances[k].id == id {
          r := instances[k];
          RemovedIsSorted(ids, k);
          instances := instances[..k] + instances[k + 1..];
          assert InstanceIds(instances) == ids[..k] + ids[k + 1..];
          assert ids[k] == id;
          return;
        }
        assert ids[k] != id;
        k := k + 1;
      }
      r := null;
    }

    /** CipClass::Instance. */
    method Instance(id: int) returns (r: Answer)
      requires Valid()
      ensures r.TheClass? <==> id == 0
      ensures r.TheClass? ==> r.c == this
      ensures r.TheInstance? <==> id in InstanceIds(instances)
      ensures r.TheInstance? ==> r.i.id == id && r.i in instances
    {
      if id == 0 { return TheClass(this); }
      var k := VecSearch(InstanceIds(instances), id);
      r := if k < |instances| then TheInstance(instances[k]) else Nobody;
    }

    /** ServiceInsert: a service with the same id is replaced. */
    method ServiceInsert(a: CipService)
      requires Valid()
      modifies this`services
      ensures Valid() && a in services
      ensures Elements(ServiceIds(services)) == Elements(old(ServiceIds(services))) + {a.id}
      ensures forall s :: s in old(services) && s.id != a.id ==> s in services
    {
      hide Sorted, Elements;
      var at, same := FindPlace(ServiceIds(services), a.id);
      ServicePlaced(a, services, at, same);
      OthersPlaced(a, services, at, same);
      if same {
        services := services[..at] + services[at + 1..];
      }
      services := services[..at] + [a] + services[at..];
    }

    static lemma ServicePlaced(a: CipService, was: seq<CipService>, at: nat, same: bool)
      requires var ids := ServiceIds(was);
               && Sorted(ids) && at <= |was| && (same <==> a.id in ids) && (same ==> at < |was| && ids[at] == a.id)
               && (forall i :: 0 <= i < at ==> ids[i] < a.id) && (forall i :: at <= i < |was| ==> ids[i] >= a.id)
      ensures var r := Placed(was, at, same, a);
              a in r && Sorted(ServiceIds(r)) && Elements(ServiceIds(r)) == Elements(ServiceIds(was)) + {a.id}
    {
      hide Sorted, Elements;
      var r := Placed(was, at, same, a);
      PlacedIds(ServiceIds(was), at, same, a.id);
      assert ServiceIds(r) == Placed(ServiceIds(was), at, same, a.id);
      assert r[at] == a;
    }

    static lemma OthersPlaced(a: CipService, was: seq<CipService>, at: nat, same: bool)
      requires at <= |was| && (same ==> at < |was| && was[at].id == a.id)
      ensures forall s :: s in was && s.id != a.id ==> s in Placed(was, at, same, a)
    {
      var r := Placed(was, at, same, a);
      forall s | s in was && s.id != a.id ensures s in r {
        var k :| 0 <= k < |was| && was[k] == s;
        assert r[if k < at then k else if same then k else k + 1] == s;
      }
    }

    /** The overlap guard of AttributeInsert. */
    method Overlaps(a: CipAttribute) returns (clash: bool)
      ensures clash <==> exists k :: 0 <= k < |attributes| && attributes[k].id != a.id && !Compatible(a, attributes[k])
    {
      clash := false;
      if a.type_.size == 0 { return; }
      var k := 0;
      while k < |attributes|
        invariant 0 <= k <= |attributes|
        invariant forall i :: 0 <= i < k ==> attributes[i].id == a.id || Compatible(a, attributes[i])
      {
        var e := attributes[k];
        if e.id != a.id && e.isOffset == a.isOffset && e.type_.size != 0 {
          var overlap := a.where < e.where + e.type_.size && e.where < a.where + a.type_.size;
          if overlap && a.type_ != e.type_ && !(a.type_.byteArray && e.type_.byteArray) {
            return true;
          }
        }
        k := k + 1;
      }
    }

    /** AttributeInsert: refused when its storage overlaps another's under an incompatible type;
        an attribute with the same id is replaced. */
    method AttributeInsert(a: CipAttribute) returns (ok: bool)
      requires Valid()
      modifies this`attributes
      ensures Valid()
      ensures ok <==> forall k :: 0 <= k < |old(attributes)| ==> old(attributes)[k].id == a.id || Compatible(a, old(attributes)[k])
      ensures ok ==> a in attributes && Elements(AttributeIds(attributes)) == Elements(old(AttributeIds(attributes))) + {a.id}
      ensures !ok ==> attributes == old(attributes)
    {
      hide Compatible, Sorted, Elements;
      var clash := Overlaps(a);
      if clash { return false; }
      var at, same := FindPlace(AttributeIds(attributes), a.id);
      AttributePlaced(a, attributes, at, same);
      if same {
        attributes := attributes[..at] + attributes[at + 1..];
      }
      attributes := attributes[..at] + [a] + attributes[at..];
      ok := true;
    }

    static lemma AttributeSorted(a: CipAttribute, was: seq<CipAttribute>, at: nat, same: bool)
      requires var ids := AttributeIds(was);
               && Sorted(ids) && at <= |was| && (same <==> a.id in ids) && (same ==> at < |was| && ids[at] == a.id)
               && (forall i :: 0 <= i < at ==> ids[i] < a.id) && (forall i :: at <= i < |was| ==> ids[i] >= a.id)
      ensures var r := Placed(was, at, same, a);
              a in r && Sorted(AttributeIds(r)) && Elements(AttributeIds(r)) == Elements(AttributeIds(was)) + {a.id}
      ensures a.id !in AttributeIds(Dropped(was, at, same))
    {
      hide Sorted, Elements;
      var r := Placed(was, at, same, a);
      PlacedIds(AttributeIds(was), at, same, a.id);
      assert AttributeIds(r) == Placed(AttributeIds(was), at, same, a.id);
      assert AttributeIds(Dropped(was, at, same)) == Dropped(AttributeIds(was), at, same);
      assert r[at] == a;
    }

    static lemma AttributePlaced(a: CipAttribute, was: seq<CipAttribute>, at: nat, same: bool)
      requires var ids := AttributeIds(was);
               && Sorted(ids) && at <= |was| && (same <==> a.id in ids) && (same ==> at < |was| && ids[at] == a.id)
               && (forall i :: 0 <= i < at ==> ids[i] < a.id) && (forall i :: at <= i < |was| ==> ids[i] >= a.id)
      requires forall k :: 0 <= k < |was| ==> was[k].id == a.id || Compatible(a, was[k])
      requires forall i, j :: 0 <= i < |was| && 0 <= j < |was| && i != j ==> Compatible(was[i], was[j])
      ensures var r := Placed(was, at, same, a);
              && a in r && Sorted(AttributeIds(r)) && Elements(AttributeIds(r)) == Elements(AttributeIds(was)) + {a.id}
              && (forall i, j :: 0 <= i < |r| && 0 <= j < |r| && i != j ==> Compatible(r[i], r[j]))
    {
      hide Compatible, Sorted, Elements, AttributeIds;
      AttributeSorted(a, was, at, same);
      OthersCompatible(a, was, Dropped(was, at, same), at, same);
      StillCompatible(a, Dropped(was, at, same), at);
    }

    static lemma OthersCompatible(a: CipAttribute, was: seq<CipAttribute>, rest: seq<CipAttribute>, at: nat, same: bool)
      requires forall k :: 0 <= k < |was| ==> was[k].id == a.id || Compatible(a, was[k])
      requires forall i, j :: 0 <= i < |was| && 0 <= j < |was| && i != j ==> Compatible(was[i], was[j])
      requires at <= |was| && (same ==> at < |was|) && rest == Dropped(was, at, same)
      requires a.id !in AttributeIds(rest)
      ensures forall k :: 0 <= k < |rest| ==> Compatible(a, rest[k])
      ensures forall i, j :: 0 <= i < |rest| && 0 <= j < |rest| && i != j ==> Compatible(rest[i], rest[j])
    {
      forall k | 0 <= k < |rest| ensures Compatible(a, rest[k]) {
        assert AttributeIds(rest)[k] == rest[k].id;
        assert rest[k] == was[if same && k >= at then k + 1 else k];
      }
      forall i, j | 0 <= i < |rest| && 0 <= j < |rest| && i != j ensures Compatible(rest[i], rest[j]) {
        assert rest[i] == was[if same && i >= at then i + 1 else i] && rest[j] == was[if same && j >= at then j + 1 else j];
      }
    }

    static lemma StillCompatible(a: CipAttribute, rest: seq<CipAttribute>, at: nat)
      requires at <= |rest| && forall k :: 0 <= k < |rest| ==> Compatible(a, rest[k])
      requires forall i, j :: 0 <= i < |rest| && 0 <= j < |rest| && i != j ==> Compatible(rest[i], rest[j])
      ensures var r := rest[..at] + [a] + rest[at..];
              forall i, j :: 0 <= i < |r| && 0 <= j < |r| && i != j ==> Compatible(r[i], r[j])
    {
      var r := rest[..at] + [a] + rest[at..];
      forall i, j | 0 <= i < |r| && 0 <= j < |r| && i != j ensures Compatible(r[i], r[j]) {
        if i != at && j != at {
          assert r[i] == rest[if i > at then i - 1 else i] && r[j] == rest[if j > at then j - 1 else j];
        } else if i != at {
          assert r[i] == rest[if i > at then i - 1 else i];
        } else {
          assert r[j] == rest[if j > at then j - 1 else j];
        }
      }
    }
  }

  /** An instance once removed from its class is refused by every class, its own included. */
  method RemoveThenInsert(from: CipClass, into: CipClass, id: int) returns (r: CipInstance?, ok: bool)
    requires from.Valid() && into.Valid()
    modifies from`instances, into`instances, from.instances
    ensures from.Valid() && into.Valid()
    ensures r != null <==> id in old(InstanceIds(from.instances))
    ensures !ok
    ensures Elements(InstanceIds(from.instances)) == Elements(old(InstanceIds(from.instances))) - {id}
    ensures into != from ==> into.instances == old(into.instances)
  {
    ok := false;
    r := from.InstanceRemove(id);
    if r != null {
      ok := into.InstanceInsert(r);
    }
  }

  /** Any run of inserts and removes of instances leaves exactly the ids it should, sorted, so
      that searching is exact throughout. */
  method RunRegistry(c: CipClass, ops: seq<Op>)
    requires c.Valid() && forall k :: 0 <= k < |ops| && ops[k].Insert? ==> 0 < ops[k].id <= 65535
    modifies c
    ensures c.Valid() && Elements(InstanceIds(c.instances)) == After(old(Elements(InstanceIds(c.instances))), ops)
  {
    var k := 0;
    ghost var start := Elements(InstanceIds(c.instances));
    assert ops[0..] == ops;
    while k < |ops|
      invariant 0 <= k <= |ops| && c.Valid()
      invariant After(Elements(InstanceIds(c.instances)), ops[k..]) == After(start, ops)
    {
      assert ops[k..][1..] == ops[k + 1..];
      match ops[k] {
        case Insert(id) =>
          var a := new CipInstance(id);
          var ok := c.InstanceInsert(a);
          if !ok { assert Elements(InstanceIds(c.instances)) + {id} == Elements(InstanceIds(c.instances)); }
        case Remove(id) =>
          var _ := c.InstanceRemove(id);
      }
      k := k + 1;
    }
  }
}
