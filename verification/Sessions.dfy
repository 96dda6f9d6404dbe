/** The encapsulation sessions: a fixed table of TCP connections, some of them registered, and
    handles that are slot numbers counted from one. */
module Sessions {
  import opened Words
  import opened Bytes
  import opened EPathSpec
  import opened ForwardOpen
  import opened CpfSpec
  import opened CpfCodec
  import opened CpfObjects

  const NO_SOCKET := -1

  datatype Session = Session(socket: int, registered: bool, activity: nat)

  const FREE := Session(NO_SOCKET, false, 0)

  datatype EncapError = Success | InvalidCommand | InsufficientMemory | IncorrectData | InvalidSessionHandle

  /** The place n steps after i, around a table of that size. */
  function Around(i: nat, n: nat, size: nat): (k: nat)
    requires i < size && n <= size
    ensures k < size
  {
    if i + n >= size then i + n - size else i + n
  }

  /** Going around once visits every place. */
  lemma AllAround(i: nat, size: nat, k: nat)
    requires k < size && i < size
    ensures exists n :: 0 <= n < size && Around(i, n, size) == k
  {
    assert Around(i, if k >= i then k - i else size + k - i, size) == k;
  }

  function Next(i: nat, size: nat): nat {
    if i + 1 >= size then 0 else i + 1
  }

  /** The n places from `start` on, around the table, are all taken. */
  predicate TakenFrom(s: seq<Session>, start: nat, n: nat)
    requires start < |s| && n <= |s|
  {
    forall j :: 0 <= j < n ==> s[Around(start, j, |s|)].socket != NO_SOCKET
  }

  /** n places on from `start`, place k is the first free one. */
  predicate FirstFreeFrom(s: seq<Session>, start: nat, n: nat, k: nat) {
    && start < |s| && n < |s| && k < |s|
    && TakenFrom(s, start, n) && Around(start, n, |s|) == k && s[k].socket == NO_SOCKET
  }

  lemma OneMore(s: seq<Session>, start: nat, n: nat)
    requires start < |s| && n < |s| && TakenFrom(s, start, n) && s[Around(start, n, |s|)].socket != NO_SOCKET
    ensures TakenFrom(s, start, n + 1)
  {
  }

  /** k is the first free place after `from`, around the table. */
  ghost predicate NextFree(s: seq<Session>, from: nat, k: nat) {
    exists n: nat :: FirstFreeFrom(s, Next(from, |s|), n, k)
  }

  class SessionMgr {
    const sessions: array<Session>
    var index: nat  // where the last search for a free slot ended

    ghost predicate Valid()
      reads this, sessions
    {
      && sessions.Length > 0 && index < sessions.Length
      && (forall k :: 0 <= k < sessions.Length && sessions[k].socket == NO_SOCKET ==> sessions[k] == FREE)
      && (forall i, j :: 0 <= i < j < sessions.Length && sessions[i].socket != NO_SOCKET ==> sessions[i].socket != sessions[j].socket)
    }

    /** The sockets of all TCP connections. */
    ghost function Open(): set<int>
      reads sessions
    {
      set k | 0 <= k < sessions.Length && sessions[k].socket != NO_SOCKET :: sessions[k].socket
    }

    constructor (size: nat)
      requires size > 0
      ensures Valid() && Open() == {} && sessions.Length == size && fresh(sessions)
    {
      sessions := new Session[size](_ => FREE);
      index := 0;
    }

    /** The search for a free slot starts after the slot used last and goes around once. */
    method FindFree() returns (found: bool)
      requires Valid()
      modifies this`index
      ensures Valid()
      ensures found <==> exists k :: 0 <= k < sessions.Length && sessions[k].socket == NO_SOCKET
      ensures found ==> NextFree(sessions[..], old(index), index)
    {
      var n := sessions.Length;
      ghost var from := index;
      index := if index + 1 >= n then 0 else index + 1;
      ghost var start := index;
      var i := 0;
      while i < n
        invariant 0 <= i <= n && start == Next(from, n) && start < n && index == Around(start, i, n)
        invariant TakenFrom(sessions[..], start, i)
      {
        if sessions[index].socket == NO_SOCKET {
          assert FirstFreeFrom(sessions[..], Next(from, n), i, index);
          return true;
        }
        OneMore(sessions[..], start, i);
        index := if index + 1 >= n then 0 else index + 1;
        i := i + 1;
      }
      forall k | 0 <= k < n ensures sessions[k].socket != NO_SOCKET {
        AllAround(start, n, k);
        assert sessions[..][k] == sessions[k];
      }
      found := false;
    }

    /** RegisterTcpConnection. `peer` tells whether the system knows the other end's address:
        if not, the slot stays taken all the same, without a note of when. */
    method RegisterTcpConnection(socket: int, now: nat, peer: bool) returns (e: EncapError, handle: nat)
      requires Valid() && socket != NO_SOCKET && socket !in Open()
      modifies this`index, sessions
      ensures Valid()
      ensures e == InsufficientMemory <==> forall k :: 0 <= k < sessions.Length ==> old(sessions[k]).socket != NO_SOCKET
      ensures e != InsufficientMemory ==> e == (if peer then Success else IncorrectData) && NextFree(old(sessions[..]), old(index), index)
      ensures e == Success ==> handle == index + 1
      ensures sessions[..] == if e == InsufficientMemory then old(sessions[..])
                              else old(sessions[..])[index := Session(socket, false, if peer then now else 0)]
    {
      NotOpen(socket);
      var found := FindFree();
      if !found {
        return InsufficientMemory, 0;
      }
      sessions[index] := sessions[index].(socket := socket);
      if !peer {
        return IncorrectData, 0;
      }
      sessions[index] := sessions[index].(activity := now);
      e, handle := Success, index + 1;
    }

    lemma NotOpen(socket: int)
      requires socket != NO_SOCKET && socket !in Open()
      ensures forall k :: 0 <= k < sessions.Length ==> sessions[k].socket != socket
    {
      forall k | 0 <= k < sessions.Length && sessions[k].socket != NO_SOCKET ensures sessions[k].socket in Open() {}
    }

    method FindSocket(socket: int) returns (k: nat)
      requires Valid() && socket != NO_SOCKET
      ensures k <= sessions.Length && (k < sessions.Length <==> socket in Open())
      ensures k < sessions.Length ==> sessions[k].socket == socket
    {
      k := 0;
      while k < sessions.Length
        invariant 0 <= k <= sessions.Length
        invariant forall j :: 0 <= j < k ==> sessions[j].socket != socket
      {
        if sessions[k].socket == socket { return; }
        k := k + 1;
      }
    }

    /** RegisterSession: a second registration is refused, with the handle already given, and so
        is a socket that has no slot. */
    method RegisterSession(socket: int) returns (e: EncapError, handle: nat)
      requires Valid() && socket != NO_SOCKET
      modifies sessions
      ensures Valid()
      ensures socket !in old(Open()) <==> e == InsufficientMemory
      ensures e == InsufficientMemory ==> sessions[..] == old(sessions[..])
      ensures e != InsufficientMemory ==>
                && 1 <= handle <= sessions.Length && old(sessions[handle - 1]).socket == socket
                && e == (if old(sessions[handle - 1]).registered then InvalidCommand else Success)
                && sessions[..] == old(sessions[..])[handle - 1 := old(sessions[handle - 1]).(registered := true)]
    {
      var k := FindSocket(socket);
      if k == sessions.Length {
        return InsufficientMemory, 0;
      }
      handle := k + 1;
      if sessions[k].registered {
        return InvalidCommand, handle;
      }
      sessions[k] := sessions[k].(registered := true);
      e := Success;
    }

    /** CheckRegisteredSession: the handle is the one given to this socket, and registered. */
    method CheckRegisteredSession(handle: nat, socket: int) returns (ok: bool)
      requires Valid() && socket != NO_SOCKET
      ensures ok <==> 1 <= handle <= sessions.Length && sessions[handle - 1].socket == socket && sessions[handle - 1].registered
      ensures ok ==> socket in Open() && forall k :: 0 <= k < sessions.Length && sessions[k].socket == socket ==> k == handle - 1
    {
      ok := 1 <= handle <= sessions.Length && sessions[handle - 1].socket == socket && sessions[handle - 1].registered;
    }

    /** CloseBySessionHandle and UnregisterSession, past their checks; the latter closes a
        connection of that socket whether or not it is registered. */
    method CloseSlot(handle: nat)
      requires Valid() && 1 <= handle <= sessions.Length
      modifies sessions
      ensures Valid() && sessions[..] == old(sessions[..])[handle - 1 := FREE]
    {
      sessions[handle - 1] := FREE;
    }

    method UnregisterSession(handle: nat, socket: int) returns (e: EncapError)
      requires Valid() && socket != NO_SOCKET
      modifies sessions
      ensures Valid()
      ensures e == Success <==> 1 <= handle <= sessions.Length && old(sessions[handle - 1]).socket == socket
      ensures e == Success ==> sessions[..] == old(sessions[..])[handle - 1 := FREE] && socket !in Open()
      ensures e != Success ==> sessions[..] == old(sessions[..])
    {
      if 1 <= handle <= sessions.Length && sessions[handle - 1].socket == socket {
        CloseSlot(handle);
        return Success;
      }
      e := InvalidSessionHandle;
    }

    /** AgeInactivity, as far as the table goes: exactly the connections idle for the timeout
        are closed. `aged` are the handles whose class 3 connections are closed first. The
        clock is 64 bits wide and its difference is taken modulo that. */
    method AgeInactivity(now: nat, timeout: nat) returns (aged: seq<nat>)
      requires Valid()
      modifies sessions
      ensures Valid()
      ensures forall k :: 0 <= k < sessions.Length ==>
                sessions[k] == if Idle(old(sessions[k]), now, timeout) then FREE else old(sessions[k])
      ensures forall h :: h in aged <==> 1 <= h <= sessions.Length && old(sessions[h - 1]).registered && Idle(old(sessions[h - 1]), now, timeout)
    {
      aged := [];
      var k := 0;
      while k < sessions.Length
        invariant 0 <= k <= sessions.Length && Valid()
        invariant forall j :: k <= j < sessions.Length ==> sessions[j] == old(sessions[j])
        invariant forall j :: 0 <= j < k ==> sessions[j] == if Idle(old(sessions[j]), now, timeout) then FREE else old(sessions[j])
        invariant forall h :: h in aged <==> 1 <= h <= k && old(sessions[h - 1]).registered && Idle(old(sessions[h - 1]), now, timeout)
      {
        if sessions[k].socket != NO_SOCKET {
          var age := (now - sessions[k].activity) % 0x1_0000_0000_0000_0000;
          if age >= timeout {
            if sessions[k].registered { aged := aged + [k + 1]; }
            sessions[k] := FREE;
          }
        }
        k := k + 1;
      }
    }

    static predicate Idle(s: Session, now: nat, timeout: nat) {
      s.socket != NO_SOCKET && (now - s.activity) % 0x1_0000_0000_0000_0000 >= timeout
    }
  }

  /** The encapsulation header object. */
  class Encapsulation {
    var command: nat
    var length: nat
    var session: nat
    var status: nat
    var context: seq<byte>
    var options: nat
    var iface: nat
    var timeout: nat

    ghost function Val(): Header
      reads this
    {
      Header(command, length, session, status, context, options, iface, timeout)
    }

    constructor (command: nat, session: nat)
      ensures Val() == Header(command, 0, session, 0, Zeros(8), 0, 0, 0)
    {
      this.command, this.session := command, session;
      length, status, context, options, iface, timeout := 0, 0, Zeros(8), 0, 0, 0;
    }

    method SetPayloadLength(n: nat)
      modifies this`length
      ensures Val() == WithPayloadLength(old(Val()), n)
    {
      length := U16(if IsBig(command) then n + 6 else n);
    }

    /** The header with a given length field. */
    method SerializeHeader(out: BufWriter, len: nat)
      requires out.Valid()
      modifies out, out.buf
      ensures out.Valid() && Val() == old(Val()) && out.sent == old(out.sent) + PutHeader(Val().(length := len))
    {
      hide Put16, Put32, BufWriter.Valid;
      out.PutLE16(command);
      out.PutLE16(len);
      out.PutLE32(session);
      out.PutLE32(status);
      out.Append(context);
      out.PutLE32(options);
      SerializeExtra(out);
      Nested(old(out.sent), Put16(command), Put16(len), Put32(session), Put32(status), context, Put32(options), Extra());
    }

    ghost function Extra(): seq<byte>
      reads this
    {
      if IsBig(command) then Put32(iface) + Put16(timeout) else []
    }

    method SerializeExtra(out: BufWriter)
      requires out.Valid()
      modifies out, out.buf
      ensures out.Valid() && Val() == old(Val()) && out.sent == old(out.sent) + Extra()
    {
      hide Put16, Put32, BufWriter.Valid;
      if IsBig(command) {
        out.PutLE32(iface);
        out.PutLE16(timeout);
      }
    }

    static lemma Nested(w: seq<byte>, a: seq<byte>, b: seq<byte>, c: seq<byte>, d: seq<byte>, e: seq<byte>, f: seq<byte>, g: seq<byte>)
      ensures w + a + b + c + d + e + f + g == w + (a + (b + (c + (d + (e + (f + g))))))
    {
    }

    /** Encapsulation::Serialize: with a payload the length is the payload's own count. */
    method Serialize(out: BufWriter, payload: Cpf?)
      requires out.Valid()
      modifies out, out.buf
      ensures out.Valid() && Val() == old(Val())
      ensures payload == null ==> out.sent == old(out.sent) + PutHeader(Val())
      ensures payload != null ==> payload.Out() == old(payload.Out()) && out.sent == old(out.sent) + PutEncap(Val(), payload.Out())
    {
      hide PutHeader, PutPacket, CountPacket, BufWriter.Valid;
      if payload == null {
        SerializeHeader(out, length);
        return;
      }
      var n := payload.SerializedCount();
      SerializeHeader(out, U16(if IsBig(command) then n + 6 else n));
      payload.Serialize(out);
    }

    /** The fields after the session handle. */
    method DeserializeTail(s: seq<byte>) returns (rest: Option<seq<byte>>)
      modifies this`options, this`iface, this`timeout
      ensures match Take32(s)
              case Fail => rest.None?
              case Got(o, s1) =>
                match ReadBig(Header(command, length, session, status, context, o, 0, 0), s1)
                case Fail => rest.None?
                case Got(h, left) => rest == Some(left) && Val() == h
    {
      hide Take32, Take16;
      var a := Take32(s);
      if a.Fail? { return None; }
      options, iface, timeout := a.value, 0, 0;
      if !IsBig(command) { return Some(a.rest); }
      a := Take32(a.rest);
      if a.Fail? { return None; }
      iface := a.value;
      a := Take16(a.rest);
      if a.Fail? { return None; }
      timeout := a.value;
      rest := Some(a.rest);
    }

    /** DeserializeEncap. */
    method DeserializeEncap(s: seq<byte>) returns (rest: Option<seq<byte>>)
      modifies this
      ensures match ReadHeader(s)
              case Fail => rest.None?
              case Got(h, left) => rest == Some(left) && Val() == h
    {
      hide Take32, Take16, ReadBig;
      var a := Take16(s);
      if a.Fail? { return None; }
      command := a.value;
      a := Take16(a.rest);
      if a.Fail? { return None; }
      length := a.value;
      a := Take32(a.rest);
      if a.Fail? { return None; }
      session := a.value;
      a := Take32(a.rest);
      if a.Fail? || |a.rest| < 8 { return None; }
      status, context := a.value, a.rest[..8];
      rest := DeserializeTail(a.rest[8..]);
    }
  }
}
