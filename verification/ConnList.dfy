/** CipConn objects and CipConnBox, the intrusive doubly linked list of the active ones. */
module ConnList {
  import opened Words
  import opened SocketSpec
  import opened ConnSpec
  import opened UdpSockets

  class CipConn {
    const id: nat
    var params: Params
    var state: ConnState
    var kind: Kind
    var consumingUdp: UdpSocket?
    var producingUdp: UdpSocket?
    var sendAddr: SockAddr
    var recvAddr: SockAddr
    var opener: nat
    var session: nat
    var rate: nat
    var watchdog: nat
    var trigger: nat
    var eipProducing: nat
    var eipConsuming: nat
    var eipFirst: bool
    var seqProducing: nat
    var seqConsuming: nat

    // links of the active list
    var next: CipConn?
    var prev: CipConn?
    var onList: bool

    constructor (id: nat, now: nat)
      ensures this.id == id && next == null && prev == null && !onList && consumingUdp == null && producingUdp == null
      ensures Is(Boot(1, now).conns[0])
    {
      this.id := id;
      params := Params(Triad(0, 0, 0), 0, 0, NullCast, 0, 0, NullCast, 0, 0, 0, 0, 0, false, false, false);
      state, kind, consumingUdp, producingUdp := NonExistent, Explicit, null, null;
      sendAddr, recvAddr, opener, session := SockAddr(0, 0), SockAddr(0, 0), 0, 0;
      rate, watchdog, trigger := 0, now, now;
      eipProducing, eipConsuming, eipFirst, seqProducing, seqConsuming := 0, 0, true, 0, 0;
      next, prev, onList := null, null, false;
    }

    static ghost function SockId(s: UdpSocket?): Option<nat> {
      if s == null then None else Some(s.id)
    }

    /** The fields, links aside, are those of the record. */
    ghost predicate Is(c: Conn)
      reads this
    {
      && params == c.params && state == c.state && kind == c.kind
      && SockId(consumingUdp) == c.consumingUdp && SockId(producingUdp) == c.producingUdp
      && sendAddr == c.sendAddr && recvAddr == c.recvAddr && opener == c.opener && session == c.session
      && rate == c.rate && watchdog == c.watchdog && trigger == c.trigger
      && eipProducing == c.eipProducing && eipConsuming == c.eipConsuming && eipFirst == c.eipFirst
      && seqProducing == c.seqProducing && seqConsuming == c.seqConsuming
    }

    method ClearCounters()
      modifies this`eipProducing, this`eipConsuming, this`eipFirst, this`seqProducing, this`seqConsuming
      ensures eipProducing == 0 && eipConsuming == 0 && eipFirst && seqProducing == 0 && seqConsuming == 0
    {
      eipProducing, eipConsuming, eipFirst, seqProducing, seqConsuming := 0, 0, true, 0, 0;
    }

    method ClearTimers(now: nat)
      modifies this`trigger, this`watchdog, this`rate
      ensures trigger == now && watchdog == now && rate == 0
    {
      trigger, watchdog, rate := now, now, 0;
    }

    method ClearEnds()
      modifies this`consumingUdp, this`producingUdp, this`sendAddr, this`recvAddr, this`opener
      ensures consumingUdp == null && producingUdp == null
      ensures sendAddr == SockAddr(0, 0) && recvAddr == SockAddr(0, 0) && opener == 0
    {
      consumingUdp, producingUdp, opener := null, null, 0;
      sendAddr, recvAddr := SockAddr(0, 0), SockAddr(0, 0);
    }

    /** CipConn::Clear( false ), links aside. */
    method Clear(now: nat)
      modifies this
      ensures next == old(next) && prev == old(prev) && onList == old(onList)
      ensures Is(Blank(params, now)) && params == old(params)
      ensures consumingUdp == null && producingUdp == null
    {
      ClearCounters();
      ClearEnds();
      ClearTimers(now);
      state, kind, session := NonExistent, Explicit, 0;
    }

    /** At most the links differ from before. */
    twostate predicate SameData()
      reads this
    {
      && params == old(params) && state == old(state) && kind == old(kind)
      && consumingUdp == old(consumingUdp) && producingUdp == old(producingUdp)
      && sendAddr == old(sendAddr) && recvAddr == old(recvAddr) && opener == old(opener) && session == old(session)
      && rate == old(rate) && watchdog == old(watchdog) && trigger == old(trigger)
      && eipProducing == old(eipProducing) && eipConsuming == old(eipConsuming) && eipFirst == old(eipFirst)
      && seqProducing == old(seqProducing) && seqConsuming == old(seqConsuming)
    }
  }

  class CipConnBox {
    var head: CipConn?
    ghost var elems: seq<CipConn>

    /** The chain from head along `next` is elems, `prev` mirrors it, no node occurs twice. */
    ghost predicate Linked()
      reads this, elems`next, elems`prev, elems`onList
    {
      && head == (if elems == [] then null else elems[0])
      && (forall k :: 0 <= k < |elems| ==> elems[k].onList)
      && (forall i, j :: 0 <= i < j < |elems| ==> elems[i] != elems[j])
      && (forall k {:trigger elems[k].next} :: 0 <= k < |elems| ==>
            elems[k].next == (if k + 1 < |elems| then elems[k + 1] else null))
      && (forall k {:trigger elems[k].prev} :: 0 <= k < |elems| ==>
            elems[k].prev == (if k > 0 then elems[k - 1] else null))
    }

    constructor ()
      ensures Linked() && elems == []
    {
      head, elems := null, [];
    }

    /** CipConnBox::Insert: the new node becomes the head. */
    method Insert(c: CipConn) returns (ok: bool)
      requires Linked() && (c.onList <==> c in elems)
      modifies this, c`next, c`prev, c`onList, elems`prev
      ensures Linked() && ok == !old(c.onList)
      ensures elems == if ok then [c] + old(elems) else old(elems)
    {
      if c.onList {
        return false;
      }
      c.prev := null;
      c.next := head;
      if head != null {
        head.prev := c;
      }
      head := c;
      c.onList := true;
      elems := [c] + elems;
      assert forall k {:trigger elems[k].next} :: 1 <= k < |elems| ==> elems[k] == old(elems)[k - 1];
      ok := true;
    }

    /** CipConnBox::Remove: the neighbours are joined, the node's own links are cleared. */
    method Remove(c: CipConn, ghost at: nat) returns (ok: bool)
      requires Linked() && (if c.onList then at < |elems| && elems[at] == c else c !in elems)
      modifies this, c`next, c`prev, c`onList, elems`next, elems`prev
      ensures Linked() && ok == old(c.onList)
      ensures elems == if ok then old(elems)[..at] + old(elems)[at + 1..] else old(elems)
      ensures ok ==> c.next == null && c.prev == null && !c.onList
    {
      if !c.onList {
        return false;
      }
      if c.prev != null {
        c.prev.next := c.next;
      } else {
        head := c.next;
      }
      if c.next != null {
        c.next.prev := c.prev;
      }
      c.prev := null;
      c.next := null;
      c.onList := false;
      elems := elems[..at] + elems[at + 1..];
      ok := true;
    }
  }
}
