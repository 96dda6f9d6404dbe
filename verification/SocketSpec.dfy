/** What the UDP socket manager does, on values: records are numbered in the order in
    which they were first allocated, so a recycled record keeps its number. */
module SocketSpec {
  import opened Words

  datatype SockAddr = SockAddr(addr: nat, port: nat)

  const IO_UDP_PORT := 2222

  /** The one socket all consumed multicast groups are joined on. */
  const BASE := SockAddr(0, IO_UDP_PORT)

  predicate IsMulticast(a: SockAddr) {
    a.addr / 0x1000_0000 == 0xe
  }

  /** One UdpSocket; `underlying` is set for a joined group only. */
  datatype UdpRec = UdpRec(addr: SockAddr, handle: int, refs: int, underlying: Option<nat>)

  /** All records ever allocated, and the three vectors of the manager. */
  datatype Udp = Udp(recs: seq<UdpRec>, sockets: seq<nat>, groups: seq<nat>, free: seq<nat>)

  /** What the operating system answers: the handle of a created and bound socket, if it
      can be had, and whether joining a group succeeds. */
  datatype Os = Os(handle: Option<int>, joins: bool)

  predicate InRange(s: seq<nat>, n: nat) {
    forall k :: 0 <= k < |s| ==> s[k] < n
  }

  predicate NoDup(s: seq<nat>) {
    forall i, j :: 0 <= i < j < |s| ==> s[i] != s[j]
  }

  /** The first record on the list that is bound to the address. */
  function FindAddr(recs: seq<UdpRec>, list: seq<nat>, a: SockAddr): (r: Option<nat>)
    requires InRange(list, |recs|)
    ensures r.Some? ==> r.value in list && recs[r.value].addr == a
    ensures r.None? ==> forall k :: k in list ==> recs[k].addr != a
  {
    if list == [] then None
    else if recs[list[0]].addr == a then Some(list[0])
    else FindAddr(recs, list[1..], a)
  }

  function AddRef(u: Udp, id: nat, d: int): Udp
    requires id < |u.recs|
  {
    u.(recs := u.recs[id := u.recs[id].(refs := u.recs[id].refs + d)])
  }

  /** Take the last record of the recycling bin, or make a new one; one reference. */
  function Alloc(u: Udp, r: UdpRec): (res: (Udp, nat))
    requires InRange(u.free, |u.recs|)
    ensures res.1 < |res.0.recs|
  {
    if |u.free| > 0 then
      var id := u.free[|u.free| - 1];
      (u.(recs := u.recs[id := r], free := u.free[..|u.free| - 1]), id)
    else
      (u.(recs := u.recs + [r]), |u.recs|)
  }

  predicate Ranged(u: Udp) {
    && InRange(u.sockets, |u.recs|)
    && InRange(u.groups, |u.recs|)
    && InRange(u.free, |u.recs|)
    && (forall i :: 0 <= i < |u.recs| && u.recs[i].underlying.Some? ==> u.recs[i].underlying.value < |u.recs|)
  }

  function GrabBase(u: Udp, a: SockAddr, os: Os): (res: (Udp, Option<nat>))
    requires Ranged(u)
    ensures Ranged(res.0)
    ensures res.1.Some? ==> res.1.value in res.0.sockets
  {
    match FindAddr(u.recs, u.sockets, a)
    case Some(id) => (AddRef(u, id, 1), Some(id))
    case None =>
      if os.handle.None? then (u, None)
      else
        var (v, id) := Alloc(u, UdpRec(a, os.handle.value, 1, None));
        (v.(sockets := v.sockets + [id]), Some(id))
  }

  function JoinGroup(u: Udp, iface: nat, g: SockAddr, os: Os): (res: (Udp, Option<nat>))
    requires Ranged(u) && iface in u.sockets
    ensures Ranged(res.0)
  {
    match FindAddr(u.recs, u.groups, g)
    case Some(id) => (AddRef(u, id, 1), Some(id))
    case None =>
      if !os.joins then (Release(u, iface), None)
      else
        var (v, id) := Alloc(u, UdpRec(g, u.recs[iface].handle, 1, Some(iface)));
        (v.(groups := v.groups + [id]), Some(id))
  }

  function Grab(u: Udp, a: SockAddr, g: Option<SockAddr>, os: Os): (res: (Udp, Option<nat>))
    requires Ranged(u)
    ensures Ranged(res.0)
  {
    var (v, iface) := GrabBase(u, a, os);
    if iface.None? then (v, None)
    else if g.None? then (v, iface)
    else JoinGroup(v, iface.value, g.value, os)
  }

  function Without(s: seq<nat>, id: nat): (r: seq<nat>)
    ensures forall k :: k in r <==> k in s && k != id
    ensures forall i :: 0 <= i < |r| ==> r[i] in s
    ensures |r| <= |s|
    ensures id in s ==> |r| < |s|
    ensures id !in s ==> r == s
  {
    if s == [] then []
    else if s[0] == id then Without(s[1..], id)
    else [s[0]] + Without(s[1..], id)
  }

  /** Drop one reference; a group left without references goes to the recycling bin and
      takes one reference of the socket it was joined on with it. */
  function Release(u: Udp, id: nat): (r: Udp)
    requires Ranged(u) && id < |u.recs|
    ensures Ranged(r) && |r.recs| == |u.recs|
  {
    if IsMulticast(u.recs[id].addr) && id in u.groups then
      var v := AddRef(u, id, -1);
      var w := if v.recs[id].refs <= 0 then v.(groups := Without(v.groups, id), free := v.free + [id]) else v;
      if u.recs[id].underlying.None? then w else AddRef(w, u.recs[id].underlying.value, -1)
    else if id in u.sockets then AddRef(u, id, -1)
    else u
  }

  /** Whether a release succeeds: a group that is joined on some socket, or a socket. */
  predicate Releasable(u: Udp, id: nat)
    requires Ranged(u) && id < |u.recs|
  {
    if IsMulticast(u.recs[id].addr) && id in u.groups then u.recs[id].underlying.Some? else id in u.sockets
  }
}
