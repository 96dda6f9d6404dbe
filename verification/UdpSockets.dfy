/** The UDP socket manager as the stack runs it: UdpSocket objects in three vectors, their
    counts changed in place. Every method is proved against SocketSpec. */
module UdpSockets {
  import opened Words
  import opened SocketSpec

  class UdpSocket {
    ghost const id: nat
    var sockaddr: SockAddr
    var handle: int
    var refCount: int
    var underlying: UdpSocket?

    constructor (ghost id: nat, a: SockAddr, handle: int, underlying: UdpSocket?)
      ensures this.id == id && Is(NewRec(a, handle, underlying)) && this.underlying == underlying
    {
      this.id := id;
      sockaddr, this.handle, refCount, this.underlying := a, handle, 1, underlying;
    }

    /** Construction in place, over a recycled record. */
    method Reuse(a: SockAddr, handle: int, underlying: UdpSocket?)
      modifies this
      ensures Is(NewRec(a, handle, underlying)) && this.underlying == underlying
    {
      sockaddr, this.handle, refCount, this.underlying := a, handle, 1, underlying;
    }

    ghost predicate Is(r: UdpRec)
      reads this
    {
      && sockaddr == r.addr && handle == r.handle && refCount == r.refs
      && r.underlying == (if underlying == null then None else Some(underlying.id))
    }
  }

  /** A record as it comes from the constructor, with one reference. */
  ghost function NewRec(a: SockAddr, handle: int, underlying: UdpSocket?): UdpRec {
    UdpRec(a, handle, 1, if underlying == null then None else Some(underlying.id))
  }

  class UdpSocketMgr {
    var sockets: seq<UdpSocket>
    var multicast: seq<UdpSocket>
    var free: seq<UdpSocket>

    ghost var records: seq<UdpSocket>  // every record ever made, by number
    ghost var spec: Udp                // what the manager holds, as a value

    /** s is one of the manager's records. */
    ghost predicate Owns(s: UdpSocket)
      reads this`records
    {
      s.id < |records| && records[s.id] == s
    }

    ghost predicate Lists(v: seq<UdpSocket>, ids: seq<nat>)
      reads this`records
    {
      |v| == |ids| && forall k :: 0 <= k < |v| ==> Owns(v[k]) && v[k].id == ids[k]
    }

    ghost predicate Valid()
      reads this, records
    {
      && |spec.recs| == |records|
      && (forall i :: 0 <= i < |records| ==> records[i].id == i && records[i].Is(spec.recs[i]))
      && (forall i :: 0 <= i < |records| && records[i].underlying != null ==> Owns(records[i].underlying))
      && Lists(sockets, spec.sockets) && Lists(multicast, spec.groups) && Lists(free, spec.free)
    }

    /** Records are only ever added, and those added are new. */
    twostate predicate Grows()
      reads this
    {
      && |old(records)| <= |records|
      && (forall i :: 0 <= i < |old(records)| ==> records[i] == old(records[i]))
      && (forall i :: |old(records)| <= i < |records| ==> fresh(records[i]))
    }

    constructor ()
      ensures Valid() && records == [] && spec == Udp([], [], [], [])
    {
      sockets, multicast, free := [], [], [];
      records, spec := [], Udp([], [], [], []);
    }

    lemma OwnedIds(v: seq<UdpSocket>, ids: seq<nat>)
      requires Valid() && Lists(v, ids)
      ensures InRange(ids, |spec.recs|)
    {
      forall k | 0 <= k < |ids| ensures ids[k] < |spec.recs| {
        assert Owns(v[k]);
      }
    }

    lemma SpecIsRanged()
      requires Valid()
      ensures Ranged(spec)
    {
      OwnedIds(sockets, spec.sockets);
      OwnedIds(multicast, spec.groups);
      OwnedIds(free, spec.free);
      forall i | 0 <= i < |spec.recs| && spec.recs[i].underlying.Some? ensures spec.recs[i].underlying.value < |spec.recs| {
        assert records[i].Is(spec.recs[i]);
      }
    }

    method Find(a: SockAddr, list: seq<UdpSocket>, ghost ids: seq<nat>) returns (r: UdpSocket?)
      requires Valid() && Lists(list, ids) && InRange(ids, |spec.recs|)
      ensures var f := FindAddr(spec.recs, ids, a);
              if r == null then f == None else Owns(r) && f == Some(r.id) && r in list
    {
      var k := 0;
      while k < |list|
        invariant 0 <= k <= |list|
        invariant FindAddr(spec.recs, ids, a) == FindAddr(spec.recs, ids[k..], a)
      {
        assert Owns(list[k]) && records[ids[k]].Is(spec.recs[ids[k]]);
        if list[k].sockaddr == a {
          return list[k];
        }
        k := k + 1;
      }
      r := null;
    }

    /** `underlying` is set for a group only: the socket it is joined on. */
    method Alloc(a: SockAddr, handle: int, underlying: UdpSocket?) returns (s: UdpSocket)
      requires Valid() && (underlying != null ==> Owns(underlying))
      modifies this`records, this`free, this`spec, free
      ensures Valid() && Grows() && Owns(s)
      ensures InRange(old(spec).free, |old(spec).recs|)
      ensures (spec, s.id) == SocketSpec.Alloc(old(spec), NewRec(a, handle, underlying))
    {
      SpecIsRanged();
      ghost var r := NewRec(a, handle, underlying);
      if |free| > 0 {
        s := free[|free| - 1];
        assert Owns(s);
        free := free[..|free| - 1];
        s.Reuse(a, handle, underlying);
      } else {
        s := new UdpSocket(|records|, a, handle, underlying);
        records := records + [s];
      }
      spec := SocketSpec.Alloc(spec, r).0;
    }

    method AddRef(s: UdpSocket, d: int)
      requires Valid() && Owns(s)
      modifies s`refCount, this`spec
      ensures Valid() && spec == SocketSpec.AddRef(old(spec), s.id, d)
    {
      s.refCount := s.refCount + d;
      spec := SocketSpec.AddRef(spec, s.id, d);
    }

    /** GrabSocket up to the multicast part. */
    method GrabBase(a: SockAddr, os: Os) returns (s: UdpSocket?)
      requires Valid()
      modifies this, records
      ensures Valid() && Grows() && Ranged(old(spec)) && (s != null ==> Owns(s))
      ensures (spec, if s == null then None else Some(s.id)) == SocketSpec.GrabBase(old(spec), a, os)
    {
      SpecIsRanged();
      s := Find(a, sockets, spec.sockets);
      if s != null {
        AddRef(s, 1);
      } else if os.handle.None? {
        s := null;
      } else {
        s := Alloc(a, os.handle.value, null);
        sockets := sockets + [s];
        spec := spec.(sockets := spec.sockets + [s.id]);
      }
    }

    /** The multicast part: join the group, or share the membership already there. */
    method JoinGroup(iface: UdpSocket, g: SockAddr, os: Os) returns (s: UdpSocket?)
      requires Valid() && Owns(iface) && iface.id in spec.sockets
      modifies this, records
      ensures Valid() && Grows() && Ranged(old(spec)) && (s != null ==> Owns(s))
      ensures (spec, if s == null then None else Some(s.id)) == SocketSpec.JoinGroup(old(spec), iface.id, g, os)
    {
      SpecIsRanged();
      s := Find(g, multicast, spec.groups);
      if s != null {
        AddRef(s, 1);
      } else if !os.joins {
        // reverse the count taken on the interface
        var _ := ReleaseSocket(iface);
        s := null;
      } else {
        s := AddGroup(iface, g);
      }
    }

    /** Membership in g was added to iface: note it in the vector of groups. */
    method AddGroup(iface: UdpSocket, g: SockAddr) returns (s: UdpSocket)
      requires Valid() && Owns(iface)
      modifies this`records, this`free, this`spec, this`multicast, free
      ensures Valid() && Grows() && Owns(s)
      ensures InRange(old(spec).free, |old(spec).recs|) && iface.id < |old(spec).recs|
      ensures var (v, id) := SocketSpec.Alloc(old(spec), UdpRec(g, old(spec).recs[iface.id].handle, 1, Some(iface.id)));
              s.id == id && spec == v.(groups := v.groups + [id])
    {
      assert records[iface.id].Is(spec.recs[iface.id]);
      s := Alloc(g, iface.handle, iface);
      multicast := multicast + [s];
      spec := spec.(groups := spec.groups + [s.id]);
    }

    /** UdpSocketMgr::GrabSocket. */
    method GrabSocket(a: SockAddr, group: Option<SockAddr>, os: Os) returns (s: UdpSocket?)
      requires Valid()
      modifies this, records
      ensures Valid() && Grows() && Ranged(old(spec)) && (s != null ==> Owns(s))
      ensures (spec, if s == null then None else Some(s.id)) == Grab(old(spec), a, group, os)
    {
      var iface := GrabBase(a, os);
      if iface == null {
        return null;
      }
      if group.Some? {
        s := JoinGroup(iface, group.value, os);
      } else {
        s := iface;
      }
    }

    /** The vector without one of its elements. */
    static function Dropped(v: seq<UdpSocket>, s: UdpSocket): seq<UdpSocket> {
      if v == [] then []
      else if v[0] == s then Dropped(v[1..], s)
      else [v[0]] + Dropped(v[1..], s)
    }

    lemma {:induction false} DroppedLists(v: seq<UdpSocket>, ids: seq<nat>, s: UdpSocket)
      requires Lists(v, ids) && Owns(s)
      ensures Lists(Dropped(v, s), Without(ids, s.id))
    {
      if v != [] {
        DroppedLists(v[1..], ids[1..], s);
      }
    }

    /** A group without references leaves the vector and goes to the recycling bin. */
    method DropGroup(s: UdpSocket)
      requires Valid() && Owns(s) && s in multicast
      modifies this`multicast, this`free, this`spec
      ensures Valid()
      ensures spec == old(spec).(groups := Without(old(spec).groups, s.id), free := old(spec).free + [s.id])
    {
      DroppedLists(multicast, spec.groups, s);
      multicast := Dropped(multicast, s);
      free := free + [s];
      spec := spec.(groups := Without(spec.groups, s.id), free := spec.free + [s.id]);
    }

    /** UdpSocketMgr::ReleaseSocket. */
    method ReleaseSocket(s: UdpSocket) returns (ok: bool)
      requires Valid() && Owns(s)
      modifies this`multicast, this`free, this`spec, records
      ensures Valid() && Ranged(old(spec))
      ensures spec == Release(old(spec), s.id)
      ensures ok <==> Releasable(old(spec), s.id)
    {
      SpecIsRanged();
      assert s.Is(spec.recs[s.id]);
      ListedById(multicast, spec.groups, s);
      ListedById(sockets, spec.sockets, s);
      if IsMulticast(s.sockaddr) && s in multicast {
        var iface := s.underlying;
        AddRef(s, -1);
        if s.refCount <= 0 {
          DropGroup(s);
        }
        if iface == null {
          return false;
        }
        AddRef(iface, -1);
        ok := true;
      } else if s in sockets {
        AddRef(s, -1);
        ok := true;
      } else {
        ok := false;
      }
    }

    lemma ListedById(v: seq<UdpSocket>, ids: seq<nat>, s: UdpSocket)
      requires Lists(v, ids) && Owns(s)
      ensures s in v <==> s.id in ids
    {
      if s.id in ids {
        var k :| 0 <= k < |ids| && ids[k] == s.id;
        assert Owns(v[k]);
      }
    }
  }
}
