/** Conservation of UDP socket references. `held` counts, for every record, the connection
    ends that hold it; a socket carries one reference for each of those ends and one for
    each reference of every group joined on it. */
module SocketInv {
  import opened Words
  import opened SocketSpec

  /** The three vectors partition the records; groups are joined on the base socket. */
  ghost predicate UdpWf(u: Udp) {
    && Ranged(u)
    && NoDup(u.sockets) && NoDup(u.groups) && NoDup(u.free)
    && (forall i :: i in u.sockets ==> i !in u.groups && i !in u.free && !IsMulticast(u.recs[i].addr))
    && (forall i :: i in u.groups ==> i !in u.free && GroupWf(u, i))
    && (forall i, j :: i in u.sockets && j in u.sockets && u.recs[i].addr == u.recs[j].addr ==> i == j)
    && (forall i :: 0 <= i < |u.recs| ==> i in u.sockets || i in u.groups || i in u.free)
  }

  ghost predicate GroupWf(u: Udp, g: nat)
    requires Ranged(u) && g < |u.recs|
  {
    && IsMulticast(u.recs[g].addr)
    && u.recs[g].refs >= 1
    && u.recs[g].underlying.Some? && u.recs[g].underlying.value in u.sockets
    && u.recs[u.recs[g].underlying.value].addr == BASE
  }

  /** What one record adds to the references of socket b. */
  function Share(r: UdpRec, b: nat): int {
    if r.underlying == Some(b) then r.refs else 0
  }

  /** The references of all groups on the list that are joined on socket b. */
  function GroupRefs(recs: seq<UdpRec>, groups: seq<nat>, b: nat): int
    requires InRange(groups, |recs|)
  {
    if groups == [] then 0
    else Share(recs[groups[0]], b) + GroupRefs(recs, groups[1..], b)
  }

  ghost predicate Accounted(u: Udp, held: multiset<nat>, i: nat)
    requires Ranged(u) && i < |u.recs|
  {
    if i in u.sockets then u.recs[i].refs == held[i] + GroupRefs(u.recs, u.groups, i)
    else if i in u.groups then u.recs[i].refs == held[i]
    else held[i] == 0
  }

  /** Conservation: no record in the recycling bin is held, and every count is exact. */
  ghost predicate Balanced(u: Udp, held: multiset<nat>) {
    && UdpWf(u)
    && (forall i :: i in held ==> i < |u.recs|)
    && (forall i :: 0 <= i < |u.recs| ==> Accounted(u, held, i))
  }

  lemma {:induction false} GroupRefsFrame(r1: seq<UdpRec>, r2: seq<UdpRec>, groups: seq<nat>, b: nat)
    requires InRange(groups, |r1|) && InRange(groups, |r2|)
    requires forall g :: g in groups ==> Share(r1[g], b) == Share(r2[g], b)
    ensures GroupRefs(r1, groups, b) == GroupRefs(r2, groups, b)
  {
    if groups != [] {
      GroupRefsFrame(r1, r2, groups[1..], b);
    }
  }

  /** One group on the list changes: the sum changes by exactly that much. */
  lemma {:induction false} GroupRefsUpdate(recs: seq<UdpRec>, groups: seq<nat>, b: nat, g: nat, r: UdpRec)
    requires InRange(groups, |recs|) && NoDup(groups) && g in groups
    ensures GroupRefs(recs[g := r], groups, b) == GroupRefs(recs, groups, b) - Share(recs[g], b) + Share(r, b)
  {
    if groups[0] == g {
      forall k | k in groups[1..] ensures k != g {
        var j :| 0 <= j < |groups[1..]| && groups[1..][j] == k;
        assert groups[0] != groups[j + 1];
      }
      GroupRefsFrame(recs, recs[g := r], groups[1..], b);
    } else {
      GroupRefsUpdate(recs, groups[1..], b, g, r);
    }
  }

  lemma {:induction false} GroupRefsAppend(recs: seq<UdpRec>, groups: seq<nat>, b: nat, g: nat)
    requires InRange(groups, |recs|) && g < |recs|
    ensures GroupRefs(recs, groups + [g], b) == GroupRefs(recs, groups, b) + Share(recs[g], b)
  {
    if groups == [] {
      assert [] + [g] == [g];
    } else {
      assert (groups + [g])[1..] == groups[1..] + [g];
      GroupRefsAppend(recs, groups[1..], b, g);
    }
  }

  lemma {:induction false} GroupRefsWithout(recs: seq<UdpRec>, groups: seq<nat>, b: nat, g: nat)
    requires InRange(groups, |recs|) && NoDup(groups) && g in groups
    ensures GroupRefs(recs, Without(groups, g), b) == GroupRefs(recs, groups, b) - Share(recs[g], b)
  {
    if groups[0] == g {
      assert g !in groups[1..];
      assert Without(groups, g) == groups[1..];
    } else {
      GroupRefsWithout(recs, groups[1..], b, g);
      var w := Without(groups[1..], g);
      assert ([groups[0]] + w)[1..] == w;
    }
  }

  lemma {:induction false} WithoutNoDup(s: seq<nat>, id: nat)
    requires NoDup(s)
    ensures NoDup(Without(s, id))
  {
    if s != [] {
      WithoutNoDup(s[1..], id);
      var w := Without(s[1..], id);
      assert NoDup(w);
      if s[0] != id {
        forall i, j | 0 <= i < j < |[s[0]] + w| ensures ([s[0]] + w)[i] != ([s[0]] + w)[j] {
          if i == 0 { assert w[j - 1] in s[1..]; }
        }
      }
    }
  }

  /** One more reference on a socket of the vector, held by one more end. */
  lemma AddSocketRef(u: Udp, held: multiset<nat>, id: nat)
    requires Balanced(u, held) && id in u.sockets
    ensures Balanced(AddRef(u, id, 1), held + multiset{id})
  {
    AddRefWf(u, id, 1);
    var v := AddRef(u, id, 1);
    forall i | 0 <= i < |v.recs| ensures Accounted(v, held + multiset{id}, i) {
      assert Accounted(u, held, i);
      GroupRefsFrame(u.recs, v.recs, u.groups, i);
    }
  }

  lemma AddRefWf(u: Udp, id: nat, d: int)
    requires UdpWf(u) && id < |u.recs| && (id in u.groups ==> u.recs[id].refs + d >= 1)
    ensures UdpWf(AddRef(u, id, d))
  {
    var v := AddRef(u, id, d);
    forall g | g in v.groups ensures GroupWf(v, g) {
      assert GroupWf(u, g);
    }
  }

  lemma NewSocketWf(u: Udp, a: SockAddr, h: int)
    requires UdpWf(u) && !IsMulticast(a)
    requires FindAddr(u.recs, u.sockets, a).None?
    ensures var (v, id) := Alloc(u, UdpRec(a, h, 1, None));
            UdpWf(v.(sockets := v.sockets + [id]))
  {
    hide FindAddr;
    var (v, id) := Alloc(u, UdpRec(a, h, 1, None));
    var w := v.(sockets := v.sockets + [id]);
    AllocIsUnused(u, UdpRec(a, h, 1, None));
    assert Ranged(w);
    forall g | g in w.groups ensures GroupWf(w, g) {
      assert GroupWf(u, g);
    }
  }

  /** A fresh or recycled record enters the socket vector with one reference. */
  lemma NewSocket(u: Udp, held: multiset<nat>, a: SockAddr, h: int)
    requires Balanced(u, held) && !IsMulticast(a)
    requires FindAddr(u.recs, u.sockets, a).None?
    ensures var (v, id) := Alloc(u, UdpRec(a, h, 1, None));
            Balanced(v.(sockets := v.sockets + [id]), held + multiset{id})
  {
    var (v, id) := Alloc(u, UdpRec(a, h, 1, None));
    var w := v.(sockets := v.sockets + [id]);
    AllocIsUnused(u, UdpRec(a, h, 1, None));
    NewSocketWf(u, a, h);
    assert held[id] == 0 by {
      if id < |u.recs| { assert Accounted(u, held, id); }
    }
    forall i | 0 <= i < |w.recs| ensures Accounted(w, held + multiset{id}, i) {
      GroupRefsFrame(u.recs, w.recs, u.groups, i);
      if i != id { assert Accounted(u, held, i); }
      else { NoGroupOn(u, id); }
    }
  }

  /** A record outside the socket vector has no group joined on it. */
  lemma NoGroupOn(u: Udp, b: nat)
    requires UdpWf(u) && b !in u.sockets
    ensures GroupRefs(u.recs, u.groups, b) == 0
  {
    NoGroupOnList(u, u.groups, b);
  }

  lemma {:induction false} NoGroupOnList(u: Udp, list: seq<nat>, b: nat)
    requires UdpWf(u) && b !in u.sockets
    requires forall i :: 0 <= i < |list| ==> list[i] in u.groups
    ensures GroupRefs(u.recs, list, b) == 0
  {
    if list != [] {
      assert GroupWf(u, list[0]);
      NoGroupOnList(u, list[1..], b);
    }
  }

  lemma AllocIsUnused(u: Udp, r: UdpRec)
    requires UdpWf(u)
    ensures var (v, id) := Alloc(u, r);
            && id !in u.sockets && id !in u.groups && id !in v.free
            && v.recs[id] == r && |u.recs| <= |v.recs|
            && NoDup(v.free)
            && (forall i :: 0 <= i < |u.recs| && i != id ==> v.recs[i] == u.recs[i])
            && |v.recs| <= (if id < |u.recs| then |u.recs| else id + 1)
            && (forall i :: i in u.free && i != id ==> i in v.free)
            && (forall i :: i in v.free ==> i in u.free)
            && v.sockets == u.sockets && v.groups == u.groups && id <= |u.recs|
  {
    if |u.free| > 0 {
      var n := |u.free| - 1;
      assert u.free == u.free[..n] + [u.free[n]];
    }
  }

  lemma GrabBaseKeeps(u: Udp, held: multiset<nat>, a: SockAddr, os: Os)
    requires Balanced(u, held) && !IsMulticast(a)
    ensures var (v, id) := GrabBase(u, a, os);
            && (id.None? ==> v == u)
            && (id.Some? ==> Balanced(v, held + multiset{id.value}) && id.value in v.sockets && v.recs[id.value].addr == a)
  {
    match FindAddr(u.recs, u.sockets, a)
    case Some(id) => AddSocketRef(u, held, id);
    case None =>
      if os.handle.Some? {
        NewSocket(u, held, a, os.handle.value);
        AllocIsUnused(u, UdpRec(a, os.handle.value, 1, None));
      }
  }

  /** Another end on a group already joined: the group and its socket both gain one. The
      interface grabbed just before is the one the group is joined on. */
  lemma RejoinKeeps(u: Udp, held: multiset<nat>, iface: nat, g: nat)
    requires Balanced(u, held + multiset{iface}) && iface in u.sockets && u.recs[iface].addr == BASE
    requires g in u.groups
    ensures Balanced(AddRef(u, g, 1), held + multiset{g})
  {
    AddRefWf(u, g, 1);
    var v := AddRef(u, g, 1);
    assert GroupWf(u, g);
    assert u.recs[g].underlying == Some(iface);
    assert forall i :: i in held + multiset{g} ==> i in held + multiset{iface} || i == g;
    forall i | 0 <= i < |v.recs| ensures Accounted(v, held + multiset{g}, i) {
      assert Accounted(u, held + multiset{iface}, i);
      GroupRefsUpdate(u.recs, u.groups, i, g, v.recs[g]);
    }
  }

  lemma NewGroupRanged(u: Udp, iface: nat, r: UdpRec)
    requires UdpWf(u) && r.underlying == Some(iface) && iface < |u.recs|
    ensures var (v, id) := Alloc(u, r); Ranged(v.(groups := v.groups + [id]))
  {
  }

  lemma NewGroupWf(u: Udp, iface: nat, g: SockAddr)
    requires UdpWf(u) && iface in u.sockets && u.recs[iface].addr == BASE && IsMulticast(g)
    ensures var (v, id) := Alloc(u, UdpRec(g, u.recs[iface].handle, 1, Some(iface)));
            UdpWf(v.(groups := v.groups + [id]))
  {
    hide Alloc;
    var r := UdpRec(g, u.recs[iface].handle, 1, Some(iface));
    var (v, id) := Alloc(u, r);
    var w := v.(groups := v.groups + [id]);
    AllocIsUnused(u, r);
    NewGroupRanged(u, iface, r);
    forall k | k in w.groups ensures GroupWf(w, k) {
      if k != id { assert GroupWf(u, k); }
    }
  }

  /** The groups of a socket after a new one, with one reference, was joined on iface. */
  lemma NewGroupRefs(u: Udp, iface: nat, g: SockAddr, b: nat)
    requires UdpWf(u) && iface in u.sockets && u.recs[iface].addr == BASE && IsMulticast(g)
    ensures var (v, id) := Alloc(u, UdpRec(g, u.recs[iface].handle, 1, Some(iface)));
            && InRange(u.groups + [id], |v.recs|)
            && GroupRefs(v.recs, u.groups + [id], b) == GroupRefs(u.recs, u.groups, b) + (if b == iface then 1 else 0)
  {
    var r := UdpRec(g, u.recs[iface].handle, 1, Some(iface));
    var (v, id) := Alloc(u, r);
    AllocIsUnused(u, r);
    GroupRefsAppend(v.recs, u.groups, b, id);
    GroupRefsFrame(u.recs, v.recs, u.groups, b);
  }

  lemma NewGroupKeeps(u: Udp, held: multiset<nat>, iface: nat, g: SockAddr)
    requires Balanced(u, held + multiset{iface}) && iface in u.sockets && u.recs[iface].addr == BASE
    requires IsMulticast(g)
    ensures var (v, id) := Alloc(u, UdpRec(g, u.recs[iface].handle, 1, Some(iface)));
            Balanced(v.(groups := v.groups + [id]), held + multiset{id})
  {
    var r := UdpRec(g, u.recs[iface].handle, 1, Some(iface));
    var (v, id) := Alloc(u, r);
    var w := v.(groups := v.groups + [id]);
    AllocIsUnused(u, r);
    NewGroupWf(u, iface, g);
    assert held[id] == 0 by {
      if id < |u.recs| { assert Accounted(u, held + multiset{iface}, id); }
    }
    forall i | 0 <= i < |w.recs| ensures Accounted(w, held + multiset{id}, i) {
      NewGroupRefs(u, iface, g, i);
      if i != id { assert Accounted(u, held + multiset{iface}, i); }
    }
    assert forall i :: i in held ==> i in held + multiset{iface};
  }

  /** Grabbing a socket, or a group on the base socket, keeps conservation: on success one
      more end holds the result, on failure the holders are as before. */
  lemma GrabKeeps(u: Udp, held: multiset<nat>, a: SockAddr, g: Option<SockAddr>, os: Os)
    requires Balanced(u, held) && !IsMulticast(a)
    requires g.Some? ==> a == BASE && IsMulticast(g.value)
    ensures var (v, id) := Grab(u, a, g, os);
            Balanced(v, if id.Some? then held + multiset{id.value} else held)
  {
    GrabBaseKeeps(u, held, a, os);
    var (v, iface) := GrabBase(u, a, os);
    if iface.Some? && g.Some? {
      match FindAddr(v.recs, v.groups, g.value)
      case Some(id) => RejoinKeeps(v, held, iface.value, id);
      case None =>
        if os.joins {
          NewGroupKeeps(v, held, iface.value, g.value);
        } else {
          ReleaseKeeps(v, held + multiset{iface.value}, iface.value);
          assert held + multiset{iface.value} - multiset{iface.value} == held;
        }
    }
  }

  lemma ReleaseSocketKeeps(u: Udp, held: multiset<nat>, id: nat)
    requires Balanced(u, held) && id in held && id in u.sockets
    ensures Balanced(AddRef(u, id, -1), held - multiset{id})
  {
    AddRefWf(u, id, -1);
    var v := AddRef(u, id, -1);
    forall i | 0 <= i < |v.recs| ensures Accounted(v, held - multiset{id}, i) {
      assert Accounted(u, held, i);
      GroupRefsFrame(u.recs, v.recs, u.groups, i);
    }
  }

  /** A group with one reference left moves to the recycling bin. */
  function Retire(u: Udp, id: nat): Udp {
    u.(groups := Without(u.groups, id), free := u.free + [id])
  }

  lemma RetireWf(u: Udp, id: nat)
    requires UdpWf(u) && id in u.groups
    ensures UdpWf(Retire(u, id))
  {
    var w := Retire(u, id);
    WithoutNoDup(u.groups, id);
    assert Ranged(w);
    forall g | g in w.groups ensures GroupWf(w, g) {
      assert GroupWf(u, g);
    }
    forall i | 0 <= i < |w.recs| ensures i in w.sockets || i in w.groups || i in w.free {
      assert i in u.sockets || i in u.groups || i in u.free;
    }
  }

  lemma RetireGroupRefs(u: Udp, id: nat, b: nat)
    requires UdpWf(u) && id in u.groups
    ensures InRange(Retire(u, id).groups, |u.recs|)
    ensures GroupRefs(u.recs, Retire(u, id).groups, b) == GroupRefs(u.recs, u.groups, b) - Share(u.recs[id], b)
  {
    RetireWf(u, id);
    GroupRefsWithout(u.recs, u.groups, b, id);
  }

  /** The last end lets a group go: the group is recycled, its socket loses a reference. */
  lemma ReleaseLastOfGroup(u: Udp, held: multiset<nat>, id: nat)
    requires Balanced(u, held) && id in held && id in u.groups && u.recs[id].refs == 1
    ensures Balanced(Release(u, id), held - multiset{id})
  {
    hide GroupRefs, Without;
    assert GroupWf(u, id) && Accounted(u, held, id);
    var b := u.recs[id].underlying.value;
    var r := Retire(u, id);
    RetireWf(u, id);
    AddRefWf(r, id, -1);
    AddRefWf(AddRef(r, id, -1), b, -1);
    var x := AddRef(AddRef(r, id, -1), b, -1);
    assert Release(u, id) == x;
    forall i | 0 <= i < |x.recs| ensures Accounted(x, held - multiset{id}, i) {
      assert Accounted(u, held, i);
      RetireGroupRefs(u, id, i);
      GroupRefsFrame(u.recs, x.recs, x.groups, i);
    }
  }

  lemma ReleaseOneOfGroup(u: Udp, held: multiset<nat>, id: nat)
    requires Balanced(u, held) && id in held && id in u.groups && u.recs[id].refs > 1
    ensures Balanced(Release(u, id), held - multiset{id})
  {
    assert GroupWf(u, id);
    var b := u.recs[id].underlying.value;
    AddRefWf(u, id, -1);
    var v := AddRef(u, id, -1);
    AddRefWf(v, b, -1);
    var x := AddRef(v, b, -1);
    assert Release(u, id) == x;
    forall i | 0 <= i < |x.recs| ensures Accounted(x, held - multiset{id}, i) {
      assert Accounted(u, held, i);
      GroupRefsUpdate(u.recs, u.groups, i, id, v.recs[id]);
      GroupRefsFrame(v.recs, x.recs, x.groups, i);
    }
  }

  /** Letting go of a held record keeps conservation, and never reaches a recycled one. */
  lemma ReleaseKeeps(u: Udp, held: multiset<nat>, id: nat)
    requires Balanced(u, held) && id in held
    ensures Balanced(Release(u, id), held - multiset{id})
  {
    assert Accounted(u, held, id);
    if id in u.groups {
      assert GroupWf(u, id);
      if u.recs[id].refs == 1 { ReleaseLastOfGroup(u, held, id); } else { ReleaseOneOfGroup(u, held, id); }
    } else {
      ReleaseSocketKeeps(u, held, id);
    }
  }

  lemma WithoutHead(s: seq<nat>, id: nat)
    requires s != []
    ensures Without(s, id) == if s[0] == id then Without(s[1..], id) else [s[0]] + Without(s[1..], id)
  {
  }

  /** On a list without duplicates, Without cuts out the one place where the id is. */
  lemma {:induction false} WithoutAt(s: seq<nat>, at: nat)
    requires NoDup(s) && at < |s|
    ensures Without(s, s[at]) == s[..at] + s[at + 1..]
    decreases at
  {
    hide Without;
    WithoutHead(s, s[at]);
    if at > 0 {
      assert s[0] != s[at] && s[1..][at - 1] == s[at];
      WithoutAt(s[1..], at - 1);
      CutTail(s, at);
    } else {
      assert s[0] !in s[1..];
      assert s[..0] + s[1..] == s[1..];
    }
  }

  lemma CutTail(s: seq<nat>, at: nat)
    requires 0 < at < |s|
    ensures [s[0]] + (s[1..][..at - 1] + s[1..][at..]) == s[..at] + s[at + 1..]
  {
  }

  /** Whoever holds a record can give it back. */
  lemma HeldIsReleasable(u: Udp, held: multiset<nat>, id: nat)
    requires Balanced(u, held) && id in held
    ensures id < |u.recs| && Releasable(u, id)
  {
    assert Accounted(u, held, id);
    assert id in u.groups ==> GroupWf(u, id);
  }

  // ----- What a grab gives, and when

  lemma {:induction false} FindAddrFrame(r1: seq<UdpRec>, r2: seq<UdpRec>, list: seq<nat>, a: SockAddr)
    requires InRange(list, |r1|) && InRange(list, |r2|) && forall k :: k in list ==> r1[k].addr == r2[k].addr
    ensures FindAddr(r1, list, a) == FindAddr(r2, list, a)
  {
    if list != [] {
      FindAddrFrame(r1, r2, list[1..], a);
    }
  }

  /** A socket for address a: the one there is, shared, or a new one bound to a with the handle
      the system gives, in a recycled record if there is one. */
  lemma GrabBaseOutcome(u: Udp, a: SockAddr, os: Os)
    requires UdpWf(u) && !IsMulticast(a)
    ensures var (v, id) := GrabBase(u, a, os);
            var there := FindAddr(u.recs, u.sockets, a);
            && (there.Some? ==> id == there && |v.recs| == |u.recs|)
            && (there.None? ==> (id.Some? <==> os.handle.Some?))
            && (there.None? && id.Some? ==> v.recs[id.value].handle == os.handle.value && |v.recs| == |u.recs| + (if u.free == [] then 1 else 0))
            && (id.Some? ==> v.recs[id.value].addr == a && id.value in v.sockets && id.value !in u.groups)
            && v.groups == u.groups && |v.recs| >= |u.recs|
            && (forall k :: k in u.groups ==> v.recs[k] == u.recs[k])
            && (forall k :: 0 <= k < |u.recs| && k !in u.free ==> k !in v.free && v.recs[k].addr == u.recs[k].addr)
  {
    if FindAddr(u.recs, u.sockets, a).None? && os.handle.Some? {
      AllocIsUnused(u, UdpRec(a, os.handle.value, 1, None));
    }
  }

  /** Whether a grab succeeds: the socket is there or the system makes one, and the group is
      joined already or the system joins it. */
  predicate CanGrab(u: Udp, a: SockAddr, g: Option<SockAddr>, os: Os)
    requires Ranged(u)
  {
    && (FindAddr(u.recs, u.sockets, a).Some? || os.handle.Some?)
    && (g.None? || FindAddr(u.recs, u.groups, g.value).Some? || os.joins)
  }

  /** A grab succeeds exactly then, and what it gives is bound to the address, or is the group,
      asked for; a group that is joined on the socket of that address. */
  lemma GrabOutcome(u: Udp, held: multiset<nat>, a: SockAddr, g: Option<SockAddr>, os: Os)
    requires Balanced(u, held) && !IsMulticast(a) && (g.Some? ==> a == BASE && IsMulticast(g.value))
    ensures var (v, id) := Grab(u, a, g, os);
            && (id.Some? <==> CanGrab(u, a, g, os))
            && (id.Some? ==> id.value < |v.recs| && v.recs[id.value].addr == if g.Some? then g.value else a)
            && (id.Some? && g.None? ==> id.value in v.sockets)
            && (id.Some? && g.Some? ==> id.value in v.groups)
            && (g.Some? && FindAddr(u.recs, u.groups, g.value).Some? && id.Some? ==> id == FindAddr(u.recs, u.groups, g.value))
            && (forall k :: 0 <= k < |u.recs| && k !in u.free ==> k < |v.recs| && v.recs[k].addr == u.recs[k].addr)
  {
    hide GrabBase, FindAddr;
    var (v, iface) := GrabBase(u, a, os);
    GrabBaseOutcome(u, a, os);
    GrabBaseKeeps(u, held, a, os);
    if iface.Some? && g.Some? {
      FindAddrFrame(u.recs, v.recs, u.groups, g.value);
      if FindAddr(v.recs, v.groups, g.value).None? && os.joins {
        AllocIsUnused(v, UdpRec(g.value, v.recs[iface.value].handle, 1, iface));
      }
    }
  }

  /** Giving back a record takes one reference from it. A group with others left stays joined; the
      last reference recycles it, and its socket loses one as well. A socket stays open whatever
      its count, and everything else is as it was. */
  lemma ReleaseOutcome(u: Udp, held: multiset<nat>, id: nat, k: nat)
    requires Balanced(u, held) && id in held && k < |u.recs|
    ensures var v := Release(u, id);
            var under := u.recs[id].underlying;
            && v.sockets == u.sockets && |v.recs| == |u.recs|
            && (k in v.groups <==> k in u.groups && !(k == id && u.recs[id].refs == 1))
            && v.recs[k] == u.recs[k].(refs := u.recs[k].refs - (if k == id then 1 else 0)
                                               - (if id in u.groups && under == Some(k) then 1 else 0))
            && v.free == (if id in u.groups && u.recs[id].refs == 1 then u.free + [id] else u.free)
  {
    assert Accounted(u, held, id);
    assert id in u.groups ==> GroupWf(u, id);
  }

  /** Multicast addresses are those from 224.0.0.0 to 239.255.255.255. */
  lemma MulticastRange(a: SockAddr)
    ensures IsMulticast(a) <==> 0xE000_0000 <= a.addr <= 0xEFFF_FFFF
  {
  }
}
