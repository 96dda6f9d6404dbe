/** The EPATH objects as the stack runs them: fields set while a reader advances over its
    input, bytes put through a bounded writer. What is left to read is a local variable that
    shrinks; a method that would throw returns None. */
module EPath {
  import opened Words
  import opened Bytes
  import opened EPathSpec
  import opened EPathCodec

  class CipAppPath {
    var pbits: set<nat>   // which fields are set; TAG for the symbol
    var stuff: seq<int>
    var tag: seq<byte>    // a C string

    ghost predicate Valid()
      reads this
    {
      |stuff| == TAG && (forall f :: f in pbits ==> f <= TAG) && |tag| <= MAX_TAG
    }

    function Has(f: nat): bool
      reads this
    {
      f in pbits
    }

    lemma AnyBits()
      requires Valid()
      ensures pbits == {} <==> !HasAny(Val())
    {
      if pbits != {} {
        var f :| f in pbits;
        assert f < TAG ==> f in Val().stuff;
      }
    }

    /** The path, as a value. */
    ghost function Val(): App
      requires Valid()
      reads this
    {
      App(map f | f in pbits && f < TAG :: stuff[f], if TAG in pbits then Some(CString(tag)) else None)
    }

    constructor ()
      ensures Valid() && Val() == NO_APP
    {
      pbits, stuff, tag := {}, [0, 0, 0, 0, 0, 0, 0], [];
    }

    method Clear()
      requires Valid()
      modifies this
      ensures Valid() && Val() == NO_APP
    {
      pbits := {};
    }

    method SetField(f: nat, v: int)
      requires Valid() && f < TAG
      modifies this
      ensures Valid() && Val() == Set(old(Val()), f, v)
    {
      ghost var before := Val();
      stuff := stuff[f := v];
      pbits := pbits + {f};
      assert Val().stuff == Set(before, f, v).stuff;
    }

    function GetField(f: nat): (v: int)
      requires Valid() && f < TAG
      reads this
      ensures v == Get(Val(), f)
    {
      if f in pbits then stuff[f] else 0
    }

    // ----- Writing

    static method SerializeLogical(out: BufWriter, packed: bool, seg: byte, value: int)
      requires out.Valid() && seg % 4 == 0
      modifies out, out.buf
      ensures out.Valid() && out.sent == old(out.sent) + PutLogical(seg, value, packed)
    {
      var u := U32(value);
      if u < 256 {
        out.Put8(seg);
        out.Put8(u);
      } else if u < TWO16 {
        out.Put8(seg + 1);
        if !packed { out.Put8(0); }
        out.PutLE16(u);
      } else {
        out.Put8(seg + 2);
        if !packed { out.Put8(0); }
        out.PutLE32(u);
      }
    }

    /** One more field after those already written. */
    method WriteField(out: BufWriter, f: nat, packed: bool, ghost before: seq<byte>, ghost done: seq<nat>)
      requires Valid() && f < TAG && out.Valid() && out.sent == before + PutFields(Val(), done, packed)
      modifies out, out.buf
      ensures Valid() && Val() == old(Val())
      ensures out.Valid() && out.sent == before + PutFields(Val(), done + [f], packed)
    {
      hide PutFields, PutLogical;
      SerializeLogical(out, packed, SegmentOf(f), GetField(f));
      MoreFields(Val(), done, f, packed);
    }

    static lemma {:induction false} MoreFields(p: App, done: seq<nat>, f: nat, packed: bool)
      ensures PutFields(p, done + [f], packed) == PutFields(p, done, packed) + PutLogical(SegmentOf(f), Get(p, f), packed)
    {
      hide PutLogical;
      if done == [] {
        assert PutFields(p, [], packed) == [];
        assert done + [f] == [f] && [f][1..] == [];
      } else {
        MoreFields(p, done[1..], f, packed);
        assert (done + [f])[1..] == done[1..] + [f];
      }
    }

    /** CipAppPath::Serialize. */
    method Serialize(out: BufWriter, ctl: Ctl)
      requires Valid() && out.Valid()
      modifies out, out.buf
      ensures Valid() && Val() == old(Val())
      ensures out.Valid() && out.sent == old(out.sent) + PutApp(Val(), ctl)
    {
      hide PutFields, CString;
      if TAG in pbits {
        SerializeSymbolic(out, ctl.packed);
      } else if GetField(CLASS) == ASSEMBLY {
        SerializeAssembly(out, ctl);
      } else {
        SerializeClass(out, ctl);
      }
    }

    static lemma NoFields(p: App, done: seq<nat>, before: seq<byte>, packed: bool)
      requires done == []
      ensures before + PutFields(p, done, packed) == before
    {
    }

    /** The symbol, padded to an even count. */
    method SerializeTag(out: BufWriter)
      requires Valid() && out.Valid() && TAG in pbits
      modifies out, out.buf
      ensures Valid() && Val() == old(Val())
      ensures out.Valid() && out.sent == old(out.sent) + PutSymbol(Val().tag.value)
    {
      hide CString;
      var t := CString(tag);
      out.Put8(0x91);
      out.Put8(|t|);
      out.Append(t);
      if |t| % 2 == 1 { out.Put8(0); }
    }

    method SerializeSymbolic(out: BufWriter, packed: bool)
      requires Valid() && out.Valid() && TAG in pbits
      modifies out, out.buf
      ensures Valid() && Val() == old(Val())
      ensures out.Valid() && out.sent == old(out.sent) + (PutSymbol(Val().tag.value) + PutFields(Val(), SymbolFields(Val()), packed))
    {
      hide PutFields, CString, PutSymbol;
      SerializeTag(out);
      ghost var before := out.sent;
      ghost var done: seq<nat> := [];
      NoFields(Val(), done, before, packed);
      if CONN_PT in pbits {
        WriteField(out, CONN_PT, packed, before, done);
        done := done + [CONN_PT];
      }
      SerializeMembers(out, packed, before, done);
      assert SymbolFields(Val()) == done + MemberFields(Val());
    }

    method SerializeMembers(out: BufWriter, packed: bool, ghost before: seq<byte>, ghost done: seq<nat>)
      requires Valid() && out.Valid() && out.sent == before + PutFields(Val(), done, packed)
      modifies out, out.buf
      ensures Valid() && Val() == old(Val())
      ensures out.Valid() && out.sent == before + PutFields(Val(), done + MemberFields(Val()), packed)
    {
      hide PutFields;
      assert done + [] == done;
      if MEMBER1 in pbits {
        WriteField(out, MEMBER1, packed, before, done);
        if MEMBER2 in pbits {
          WriteField(out, MEMBER2, packed, before, done + [MEMBER1]);
          assert done + [MEMBER1] + [MEMBER2] == done + [MEMBER1, MEMBER2];
          if MEMBER3 in pbits {
            WriteField(out, MEMBER3, packed, before, done + [MEMBER1, MEMBER2]);
            assert done + [MEMBER1, MEMBER2] + [MEMBER3] == done + [MEMBER1, MEMBER2, MEMBER3];
          }
        }
      }
    }

    /** assembly_class_application_path: an instance or a connection point, not both. */
    method SerializeAssembly(out: BufWriter, ctl: Ctl)
      requires Valid() && out.Valid() && Get(Val(), CLASS) == ASSEMBLY
      modifies out, out.buf
      ensures Valid() && Val() == old(Val())
      ensures out.Valid() && out.sent == old(out.sent) + PutFields(Val(), LogicalFields(Val(), ctl), ctl.packed)
    {
      hide PutFields;
      ghost var before := out.sent;
      ghost var done: seq<nat> := [];
      NoFields(Val(), done, before, ctl.packed);
      if CLASS in pbits && !ctl.omitClass {
        WriteField(out, CLASS, ctl.packed, before, done);
        done := done + [CLASS];
      }
      if INSTANCE in pbits && !ctl.omitInstance {
        WriteField(out, INSTANCE, ctl.packed, before, done);
        done := done + [INSTANCE];
      } else if CONN_PT in pbits && !ctl.omitConnPt {
        WriteField(out, CONN_PT, ctl.packed, before, done);
        done := done + [CONN_PT];
      }
      if ATTRIBUTE in pbits {
        WriteField(out, ATTRIBUTE, ctl.packed, before, done);
        done := done + [ATTRIBUTE];
      }
      assert done == LogicalFields(Val(), ctl);
    }

    /** class_application_path. */
    method SerializeClass(out: BufWriter, ctl: Ctl)
      requires Valid() && out.Valid() && Get(Val(), CLASS) != ASSEMBLY
      modifies out, out.buf
      ensures Valid() && Val() == old(Val())
      ensures out.Valid() && out.sent == old(out.sent) + PutFields(Val(), LogicalFields(Val(), ctl), ctl.packed)
    {
      hide PutFields;
      ghost var before := out.sent;
      ghost var done: seq<nat> := [];
      NoFields(Val(), done, before, ctl.packed);
      if CLASS in pbits && !ctl.omitClass {
        WriteField(out, CLASS, ctl.packed, before, done);
        done := done + [CLASS];
      }
      if INSTANCE in pbits && !ctl.omitInstance {
        WriteField(out, INSTANCE, ctl.packed, before, done);
        done := done + [INSTANCE];
      }
      if CONN_PT in pbits {
        WriteField(out, CONN_PT, ctl.packed, before, done);
        done := done + [CONN_PT];
      } else if ATTRIBUTE in pbits {
        WriteField(out, ATTRIBUTE, ctl.packed, before, done);
        done := done + [ATTRIBUTE];
      }
      assert done == LogicalFields(Val(), ctl);
    }

    // ----- Reading

    /** deserialize_logical: set the field, give back what is left of the input. */
    method DeserializeLogical(s: seq<byte>, packed: bool, f: nat, format: nat) returns (rest: Option<seq<byte>>)
      requires Valid() && f < TAG
      modifies this
      ensures Valid()
      ensures match ReadValue(s, format, packed)
              case Fail => rest.None?
              case Got(v, left) => rest == Some(left) && Val() == Set(old(Val()), f, v)
    {
      var inp := s;
      var value: int;
      if format == 0 {
        if |inp| < 1 { return None; }
        value, inp := inp[0], inp[1..];
      } else if format == 1 {
        if !packed {
          if |inp| < 1 { return None; }
          inp := inp[1..];
        }
        if |inp| < 2 { return None; }
        value, inp := Get16(inp), inp[2..];
      } else if format == 2 {
        if !packed {
          if |inp| < 1 { return None; }
          inp := inp[1..];
        }
        if |inp| < 1 { return None; }
        inp := inp[1..];
        if |inp| < 4 { return None; }
        value, inp := ToInt32(Get32(inp)), inp[4..];
      } else {
        return None;
      }
      SetField(f, value);
      rest := Some(inp);
    }

    method SetTag(t: seq<byte>)
      requires Valid() && |t| <= MAX_TAG
      modifies this
      ensures Valid() && Val() == old(Val()).(tag := Some(CString(t)))
    {
      ghost var before := Val();
      tag := t;
      pbits := pbits + {TAG};
      assert Val().stuff == before.stuff;
    }

    /** deserialize_symbolic: the symbol, if the input starts with one. */
    method DeserializeSymbolic(s: seq<byte>) returns (rest: Option<seq<byte>>)
      requires Valid()
      modifies this
      ensures Valid()
      ensures match ReadSymbol(s)
              case Fail => rest.None?
              case Got(t, left) => rest == Some(left) && Val() == (if t.Some? then old(Val()).(tag := t) else old(Val()))
    {
      hide CString;
      if |s| == 0 { return None; }
      var first := s[0];
      if first == 0x91 {
        if |s| < 2 { return None; }
        var n := s[1] as nat;
        if n > MAX_TAG { return None; }
        var used := 2 + n;
        if |s| < used { return None; }
        SetTag(s[2..used]);
        if used % 2 == 1 {
          if |s| < used + 1 { return None; }
          used := used + 1;
        }
        return Some(s[used..]);
      } else if first / 32 == 3 {
        var n := first as nat % 32;
        var used := 1 + n;
        if |s| < used { return None; }
        SetTag(s[1..used]);
        if used % 2 == 1 {
          if |s| < used + 1 { return None; }
          used := used + 1;
        }
        return Some(s[used..]);
      }
      rest := Some(s);
    }

    /** What may follow a symbol: a connection point, and up to three members. */
    method DeserializeAfterSymbol(s: seq<byte>, packed: bool) returns (rest: Option<seq<byte>>)
      requires Valid()
      modifies this
      ensures Valid()
      ensures match ReadAfterSymbol(old(Val()), s, packed)
              case Fail => rest.None?
              case Got(p, left) => rest == Some(left) && Val() == p
    {
      hide ReadMembers, ReadValue;
      rest := Some(s);
      if |s| > 0 && s[0] / 4 * 4 == 0x2C {
        rest := DeserializeLogical(s[1..], packed, CONN_PT, s[0] % 4);
        if rest.None? { return; }
      }
      rest := DeserializeMembers(rest.value, packed);
    }

    method DeserializeMembers(s: seq<byte>, packed: bool) returns (rest: Option<seq<byte>>)
      requires Valid()
      modifies this
      ensures Valid()
      ensures match ReadMembers(old(Val()), MEMBER1, s, packed)
              case Fail => rest.None?
              case Got(p, left) => rest == Some(left) && Val() == p
    {
      hide ReadValue;
      var inp := s;
      var member := MEMBER1;
      while |inp| > 0 && member <= MEMBER3
        invariant MEMBER1 <= member <= MEMBER3 + 1 && Valid()
        invariant ReadMembers(old(Val()), MEMBER1, s, packed) == ReadMembers(Val(), member, inp, packed)
        decreases MEMBER3 + 1 - member
      {
        if inp[0] / 4 * 4 != 0x28 { break; }
        rest := DeserializeLogical(inp[1..], packed, member, inp[0] % 4);
        if rest.None? { return; }
        inp := rest.value;
        member := member + 1;
      }
      rest := Some(inp);
    }

    /** The loop over logical segments: it ends where another path begins. */
    method DeserializeLogicals(s: seq<byte>, packed: bool) returns (rest: Option<seq<byte>>, last: nat)
      requires Valid()
      modifies this
      ensures Valid()
      ensures match ReadLogical(old(Val()), LOGICAL_END, s, packed)
              case Fail => rest.None?
              case Got(q, left) => rest == Some(left) && Partial(Val(), last) == q && |left| <= |s|
    {
      hide ReadValue;
      var inp := s;
      last := LOGICAL_END;
      while |inp| > 0
        invariant Valid() && last <= LOGICAL_END && |inp| <= |s|
        invariant ReadLogical(old(Val()), LOGICAL_END, s, packed) == ReadLogical(Val(), last, inp, packed)
        decreases |inp|
      {
        var next := FieldOf(inp[0]);
        if next.None? { break; }
        if GetField(CLASS) == ASSEMBLY && last == INSTANCE && next.value == CONN_PT { break; }
        if next.value >= last { break; }
        ReadValueShorter(inp[1..], inp[0] % 4, packed);
        rest := DeserializeLogical(inp[1..], packed, next.value, inp[0] % 4);
        if rest.None? { return; }
        inp := rest.value;
        last := next.value;
      }
      rest := Some(inp);
    }

    static lemma ReadValueShorter(s: seq<byte>, format: nat, packed: bool)
      ensures ReadValue(s, format, packed).Got? ==> |ReadValue(s, format, packed).rest| < |s|
    {
    }

    /** inherit and inherit_assembly. */
    method InheritFrom(start: nat, from: CipAppPath, assembly: bool)
      requires Valid() && from.Valid() && from != this && assembly == (GetClass(from.Val()) == ASSEMBLY)
      modifies this
      ensures Valid() && Val() == Inherit(old(Val()), start, from.Val())
    {
      hide CString;
      ghost var p, q := Val(), from.Val();
      var i := start;
      while i < LOGICAL_END
        invariant start <= i && Valid() && from.Valid()
        invariant Val().tag == p.tag
        invariant from.Val() == q
        invariant forall f: nat :: f in Val().stuff <==> f in p.stuff || (f < i && Takes(p, start, q, f))
        invariant forall f: nat :: f in Val().stuff ==>
                    if f in p.stuff then Val().stuff[f] == p.stuff[f] else f in q.stuff && Val().stuff[f] == q.stuff[f]
        decreases LOGICAL_END - i
      {
        if !(assembly && start == INSTANCE && i == INSTANCE) {
          if i !in pbits && i in from.pbits {
            SetField(i, from.stuff[i]);
          }
        }
        i := i + 1;
      }
      assert Val().stuff == Inherit(p, start, q).stuff;
    }

    /** CipAppPath::DeserializeAppPath. */
    method DeserializeAppPath(s: seq<byte>, prev: CipAppPath?, packed: bool) returns (rest: Option<seq<byte>>)
      requires Valid() && prev != this && (prev != null ==> prev.Valid())
      modifies this
      ensures Valid()
      ensures match ReadApp(s, if prev == null then None else Some(prev.Val()), packed)
              case Fail => rest.None?
              case Got(p, left) => rest == Some(left) && Val() == p
    {
      hide ReadSymbol, ReadLogical, ReadAfterSymbol, Inherit, CString;
      Clear();
      rest := DeserializeSymbolic(s);
      if rest.None? { return; }
      if |rest.value| < |s| {
        rest := DeserializeAfterSymbol(rest.value, packed);
        return;
      }
      var last;
      rest, last := DeserializeLogicals(s, packed);
      if rest.None? { return; }
      if |rest.value| < |s| && prev != null {
        InheritFrom(last + 1, prev, prev.GetField(CLASS) == ASSEMBLY);
      }
    }
  }

  class CipPortSegmentGroup {
    static const KEY := 0
    static const PIT_USECS := 1
    static const PIT_MSECS := 2
    static const PORT := 3

    var pbits: set<nat>
    var key: Key
    var port: Port
    var pitUsecs: nat  // in microseconds, whichever form it came in

    ghost function Val(): Group
      reads this
    {
      Group(if KEY in pbits then Some(key) else None, PIT_USECS in pbits, PIT_MSECS in pbits,
            if PIT_USECS in pbits || PIT_MSECS in pbits then pitUsecs else 0,
            if PORT in pbits then Some(port) else None)
    }

    constructor ()
      ensures Val() == NO_GROUP
    {
      pbits, key, port, pitUsecs := {}, Key(0, 0, 0, 0, 0), Port(0, []), 0;
    }

    method Clear()
      modifies this
      ensures Val() == NO_GROUP
    {
      pbits := {};
      port := Port(0, []);
    }

    method SetPITUSecs(v: nat)
      modifies this
      ensures Val() == old(Val()).(inUsecs := true, pit := v)
    {
      pbits := pbits + {PIT_USECS};
      pitUsecs := v;
    }

    method SetPITMSecs(v: nat)
      modifies this
      ensures Val() == old(Val()).(inMsecs := true, pit := v * 1000)
    {
      pbits := pbits + {PIT_MSECS};
      pitUsecs := v * 1000;
    }

    // ----- Writing

    method SerializeKey(out: BufWriter)
      requires out.Valid()
      modifies out, out.buf
      ensures out.Valid() && out.sent == old(out.sent) + PutKey(key) && Val() == old(Val())
    {
      out.Put8(0x34);
      out.Put8(4);
      out.PutLE16(key.vendor);
      out.PutLE16(key.device);
      out.PutLE16(key.product);
      out.Put8(key.major);
      out.Put8(key.minor);
    }

    /** CipPortSegment::Serialize up to the padding; n is the number of bytes put. */
    method SerializeLink(out: BufWriter) returns (n: nat)
      requires out.Valid()
      modifies out, out.buf
      ensures out.Valid() && out.sent == old(out.sent) + PutPortBytes(port) && Val() == old(Val()) && port == old(port)
      ensures n == |PutPortBytes(port)|
    {
      if |port.link| == 1 {
        if port.port <= 15 {
          out.Put8(port.port);
          n := 1;
        } else {
          out.Put8(0x0f);
          out.PutLE16(port.port);
          n := 3;
        }
      } else {
        if port.port <= 15 {
          out.Put8(0x10 + port.port);
          out.Put8(|port.link|);
          n := 2;
        } else {
          out.Put8(0x1f);
          out.Put8(|port.link|);
          out.PutLE16(port.port);
          n := 4;
        }
      }
      out.Append(port.link);
      n := n + |port.link|;
    }

    method SerializePort(out: BufWriter, packed: bool) returns (ok: bool)
      requires out.Valid()
      modifies out, out.buf
      ensures out.Valid() && Val() == old(Val()) && ok == PutPort(port, packed).Some?
      ensures ok ==> out.sent == old(out.sent) + PutPort(port, packed).value
    {
      hide PutPortBytes;
      if |port.link| > 255 {
        return false;
      }
      var n := SerializeLink(out);
      if !packed && n % 2 == 1 {
        out.Put8(0);
      }
      ok := true;
    }

    method SerializeInhibit(out: BufWriter) returns (ok: bool)
      requires out.Valid()
      modifies out, out.buf
      ensures out.Valid() && Val() == old(Val()) && ok == PutInhibit(Val()).Some?
      ensures ok ==> out.sent == old(out.sent) + PutInhibit(Val()).value
    {
      hide Put32;
      if PIT_USECS in pbits {
        out.Put8(0x51);
        out.Put8(2);
        out.PutLE32(pitUsecs);
      }
      if PIT_MSECS in pbits {
        var msecs := pitUsecs / 1000;
        if msecs > 255 {
          return false;
        }
        out.Put8(0x43);
        out.Put8(msecs);
      }
      ok := true;
    }

    /** CipPortSegmentGroup::Serialize. */
    method Serialize(out: BufWriter, packed: bool) returns (ok: bool)
      requires out.Valid()
      modifies out, out.buf
      ensures out.Valid() && Val() == old(Val()) && ok == PutGroup(Val(), packed).Some?
      ensures ok ==> out.sent == old(out.sent) + PutGroup(Val(), packed).value
    {
      hide PutKey, PutPort, PutInhibit;
      if KEY in pbits {
        SerializeKey(out);
      }
      ok := SerializeInhibit(out);
      if ok && PORT in pbits {
        ok := SerializePort(out, packed);
      }
    }

    // ----- Reading

    method DeserializePort(s: seq<byte>, packed: bool) returns (rest: Option<seq<byte>>)
      requires s != []
      modifies this
      ensures match ReadPort(s, packed)
              case Fail => rest.None?
              case Got(p, left) => rest == Some(left) && Val() == old(Val()).(port := Some(p))
    {
      var first := s[0];
      var at: nat, n: nat := 1, 1;
      if first / 16 % 2 == 1 {
        if |s| < 2 { return None; }
        n := s[1];
        at := 2;
      }
      var p: nat := first % 16;
      if first % 16 == 15 {
        if |s| < at + 2 { return None; }
        p := Get16(s[at..]);
        at := at + 2;
      }
      if |s| < at + n { return None; }
      var link := s[at..at + n];
      var used := at + n;
      if !packed && used % 2 == 1 {
        if |s| < used + 1 { return None; }
        used := used + 1;
      }
      port := Port(p, link);
      pbits := pbits + {PORT};
      rest := Some(s[used..]);
    }

    method DeserializeKey(s: seq<byte>) returns (rest: Option<seq<byte>>)
      requires s != []
      modifies this
      ensures match ReadKey(s)
              case Fail => rest.None?
              case Got(k, left) => rest == Some(left) && Val() == old(Val()).(key := Some(k))
    {
      hide Get16;
      if |s| < 2 || s[1] != 4 || |s| < 10 {
        return None;
      }
      key := Key(Get16(s[2..]), Get16(s[4..]), Get16(s[6..]), s[8], s[9]);
      pbits := pbits + {KEY};
      rest := Some(s[10..]);
    }

    method DeserializeUsecs(s: seq<byte>) returns (rest: Option<seq<byte>>)
      requires s != []
      modifies this
      ensures match ReadUsecs(s)
              case Fail => rest.None?
              case Got(v, left) => rest == Some(left) && Val() == old(Val()).(inUsecs := true, pit := v)
    {
      if |s| < 2 { return None; }
      var words := s[1];
      if words == 1 {
        if |s| < 4 { return None; }
        SetPITUSecs(Get16(s[2..]));
        rest := Some(s[4..]);
      } else if words == 2 {
        if |s| < 6 { return None; }
        SetPITUSecs(Get32(s[2..]));
        rest := Some(s[6..]);
      } else {
        rest := None;
      }
    }

    /** DeserializePortSegmentGroup. */
    method Deserialize(s: seq<byte>, packed: bool) returns (rest: Option<seq<byte>>)
      modifies this
      ensures match ReadGroup(NO_GROUP, s, packed)
              case Fail => rest.None?
              case Got(g, left) => rest == Some(left) && Val() == g
    {
      hide ReadPort, ReadKey, ReadUsecs;
      Clear();
      var inp := s;
      while |inp| > 0
        invariant ReadGroup(NO_GROUP, s, packed) == ReadGroup(Val(), inp, packed)
        decreases |inp|
      {
        var first := inp[0];
        if first < 0x20 {
          rest := DeserializePort(inp, packed);
        } else if first == 0x34 {
          rest := DeserializeKey(inp);
        } else if first == 0x43 {
          if |inp| < 2 { return None; }
          SetPITMSecs(inp[1]);
          rest := Some(inp[2..]);
        } else if first == 0x51 {
          rest := DeserializeUsecs(inp);
        } else {
          break;
        }
        if rest.None? { return; }
        inp := rest.value;
      }
      rest := Some(inp);
    }
  }

  class CipSimpleDataSegment {
    var any: bool
    var words: seq<nat>

    ghost function Val(): Option<seq<nat>>
      reads this
    {
      if any then Some(words) else None
    }

    constructor ()
      ensures Val() == None
    {
      any, words := false, [];
    }

    method Clear()
      modifies this
      ensures Val() == None && words == []
    {
      any, words := false, [];
    }

    method Serialize(out: BufWriter) returns (ok: bool)
      requires out.Valid()
      modifies out, out.buf
      ensures out.Valid() && Val() == old(Val()) && words == old(words) && ok == PutData(words).Some?
      ensures ok ==> out.sent == old(out.sent) + PutData(words).value
    {
      if |words| > 255 {
        return false;
      }
      ghost var before := out.sent;
      out.Put8(0x80);
      out.Put8(|words|);
      ghost var head := out.sent;
      var i := 0;
      while i < |words|
        invariant 0 <= i <= |words| && words == old(words) && any == old(any) && out.Valid()
        invariant out.sent + PutWords(words[i..]) == head + PutWords(words)
      {
        assert words[i..][1..] == words[i + 1..];
        out.PutLE16(words[i]);
        i := i + 1;
      }
      assert out.sent + [] == out.sent;
      ok := true;
    }

    /** DeserializeDataSegment. */
    method Deserialize(s: seq<byte>) returns (rest: Option<seq<byte>>)
      modifies this
      ensures match ReadData(s)
              case Fail => rest.None?
              case Got(d, left) => rest == Some(left) && Val() == d
    {
      Clear();
      if |s| == 0 { return None; }
      if s[0] != 0x80 { return Some(s); }
      if |s| < 2 { return None; }
      var n := s[1] as nat;
      var inp := s[2..];
      ghost var all := ReadWords(inp, n);
      while n > 0
        invariant if all.Fail? then ReadWords(inp, n).Fail?
                  else ReadWords(inp, n).Got? && all.value == words + ReadWords(inp, n).value && all.rest == ReadWords(inp, n).rest
      {
        if |inp| < 2 { return None; }
        words := words + [Get16(inp)];
        inp := inp[2..];
        n := n - 1;
      }
      assert words + [] == words;
      any := true;
      rest := Some(inp);
    }
  }

  class ConnectionPath {
    const portSegs: CipPortSegmentGroup
    const app: seq<CipAppPath>
    const dataSeg: CipSimpleDataSegment

    ghost predicate Valid()
      reads this, app
    {
      && |app| == SLOTS && (forall k :: 0 <= k < SLOTS ==> app[k].Valid())
      && (forall i, j :: 0 <= i < j < SLOTS ==> app[i] != app[j])
    }

    ghost function Vals(): (r: seq<App>)
      requires Valid()
      reads this, app
      ensures |r| == SLOTS && forall k :: 0 <= k < SLOTS ==> r[k] == app[k].Val()
    {
      [app[0].Val(), app[1].Val(), app[2].Val()]
    }

    ghost function Val(): Path
      requires Valid()
      reads this, portSegs, app, dataSeg
    {
      Path(portSegs.Val(), Vals(), dataSeg.Val())
    }

    constructor ()
      ensures Valid() && Val() == Path(NO_GROUP, [NO_APP, NO_APP, NO_APP], None)
      ensures fresh(portSegs) && fresh(dataSeg) && forall k :: 0 <= k < SLOTS ==> fresh(app[k])
    {
      var a := new CipAppPath();
      var b := new CipAppPath();
      var c := new CipAppPath();
      portSegs := new CipPortSegmentGroup();
      dataSeg := new CipSimpleDataSegment();
      app := [a, b, c];
    }

    method Clear()
      requires Valid()
      modifies portSegs, dataSeg, app
      ensures Valid() && Val() == Path(NO_GROUP, [NO_APP, NO_APP, NO_APP], None)
    {
      portSegs.Clear();
      app[0].Clear();
      app[1].Clear();
      app[2].Clear();
      dataSeg.Clear();
    }

    // ----- Writing

    /** One slot, if it is filled; `next` is the last path written after it. */
    method SerializeSlot(out: BufWriter, i: nat, prev: CipAppPath?, packed: bool, compressed: bool) returns (next: CipAppPath?)
      requires Valid() && out.Valid() && i < SLOTS && (prev == null || prev in app)
      modifies out, out.buf
      ensures Valid() && out.Valid() && Vals() == old(Vals()) && (next == null || next in app)
      ensures out.sent + PutApps(Vals()[i + 1..], if next == null then None else Some(next.Val()), packed, compressed)
              == old(out.sent) + PutApps(Vals()[i..], if prev == null then None else Some(prev.Val()), packed, compressed)
    {
      hide PutApp, CtlAfter, PutApps;
      ghost var vals := Vals();
      PutAppsNext(vals, i, if prev == null then None else Some(prev.Val()), out.sent, packed, compressed);
      app[i].AnyBits();
      next := prev;
      if app[i].pbits != {} {
        var ctl := Plain(packed);
        if compressed {
          ctl := CtlFor(prev, app[i], packed);
        }
        app[i].Serialize(out, ctl);
        next := app[i];
      }
    }

    /** The application paths; a compressed one leaves out what it shares with the last one
        written. */
    method SerializeApps(out: BufWriter, packed: bool, compressed: bool)
      requires Valid() && out.Valid()
      modifies out, out.buf
      ensures Valid() && out.Valid() && Vals() == old(Vals())
      ensures out.sent == old(out.sent) + PutApps(Vals(), None, packed, compressed)
    {
      hide PutApps, BufWriter.Valid;
      ghost var w := old(out.sent);
      ghost var vals := Vals();
      var prev: CipAppPath? := null;
      var i := 0;
      assert vals[0..] == vals;
      while i < SLOTS
        invariant 0 <= i <= SLOTS && Valid() && out.Valid() && Vals() == vals
        invariant prev == null || prev in app
        invariant w + PutApps(vals, None, packed, compressed)
                  == out.sent + PutApps(vals[i..], if prev == null then None else Some(prev.Val()), packed, compressed)
      {
        prev := SerializeSlot(out, i, prev, packed, compressed);
        i := i + 1;
      }
      assert vals[i..] == [];
      NoneLeft(if prev == null then None else Some(prev.Val()), out.sent, packed, compressed);
    }

    static lemma NoneLeft(prev: Option<App>, before: seq<byte>, packed: bool, compressed: bool)
      ensures before + PutApps([], prev, packed, compressed) == before
    {
    }

    static lemma PutAppsNext(vals: seq<App>, i: nat, prev: Option<App>, before: seq<byte>, packed: bool, compressed: bool)
      requires i < |vals|
      ensures before + PutApps(vals[i..], prev, packed, compressed) ==
              if !HasAny(vals[i]) then before + PutApps(vals[i + 1..], prev, packed, compressed)
              else
                before + PutApp(vals[i], if compressed then CtlAfter(prev, vals[i], packed) else Plain(packed))
                + PutApps(vals[i + 1..], Some(vals[i]), packed, compressed)
    {
      hide PutApp, CtlAfter;
      assert vals[i..][1..] == vals[i + 1..];
      if HasAny(vals[i]) {
        var a := PutApp(vals[i], if compressed then CtlAfter(prev, vals[i], packed) else Plain(packed));
        var b := PutApps(vals[i + 1..], Some(vals[i]), packed, compressed);
        assert before + (a + b) == before + a + b;
      }
    }

    /** What the path cur leaves out when it follows prev. */
    static method CtlFor(prev: CipAppPath?, cur: CipAppPath, packed: bool) returns (ctl: Ctl)
      requires (prev != null ==> prev.Valid()) && cur.Valid()
      ensures ctl == CtlAfter(if prev == null then None else Some(prev.Val()), cur.Val(), packed)
    {
      ctl := Plain(packed);
      if prev == null { return; }
      if prev.GetField(CLASS) == cur.GetField(CLASS) {
        ctl := ctl.(omitClass := true);
      }
      if (cur.Has(CONN_PT) || cur.Has(ATTRIBUTE)) && prev.GetField(INSTANCE) == cur.GetField(INSTANCE) {
        ctl := ctl.(omitInstance := true);
      }
      if cur.Has(ATTRIBUTE) && prev.GetField(CONN_PT) == cur.GetField(CONN_PT) {
        ctl := ctl.(omitConnPt := true);
      }
    }

    /** ConnectionPath::Serialize. */
    method Serialize(out: BufWriter, packed: bool, compressed: bool) returns (ok: bool)
      requires Valid() && out.Valid()
      modifies out, out.buf
      ensures Valid() && out.Valid() && Val() == old(Val()) && ok == PutPath(Val(), packed, compressed).Some?
      ensures ok ==> out.sent == old(out.sent) + PutPath(Val(), packed, compressed).value
    {
      hide PutGroup, PutApps, PutData;
      ok := portSegs.Serialize(out, packed);
      if !ok { return; }
      SerializeApps(out, packed, compressed);
      if dataSeg.any {
        ok := dataSeg.Serialize(out);
      }
    }

    // ----- Reading

    method DeserializeSlot(k: nat, s: seq<byte>, packed: bool) returns (rest: Option<seq<byte>>)
      requires Valid() && k < SLOTS && app[k].Val() == NO_APP
      modifies app[k]
      ensures Valid()
      ensures match ReadSlot(s, if k == 0 then None else Some(old(app[k - 1].Val())), packed)
              case Fail => rest.None?
              case Got(a, left) => rest == Some(left) && app[k].Val() == a
    {
      if |s| == 0 {
        return Some(s);
      }
      rest := app[k].DeserializeAppPath(s, if k == 0 then null else app[k - 1], packed);
    }

    method DeserializeApps(s: seq<byte>, packed: bool) returns (rest: Option<seq<byte>>)
      requires Valid() && Vals() == [NO_APP, NO_APP, NO_APP]
      modifies app
      ensures Valid()
      ensures match ReadApps(s, None, SLOTS, packed)
              case Fail => rest.None?
              case Got(as3, left) => rest == Some(left) && Vals() == as3
    {
      hide ReadSlot;
      assert Vals()[1] == app[1].Val() == NO_APP && Vals()[2] == app[2].Val() == NO_APP;
      rest := DeserializeSlot(0, s, packed);
      if rest.None? { return; }
      ghost var a0 := app[0].Val();
      ghost var s1 := rest.value;
      rest := DeserializeSlot(1, rest.value, packed);
      if rest.None? { return; }
      ghost var a1 := app[1].Val();
      ghost var s2 := rest.value;
      rest := DeserializeSlot(2, rest.value, packed);
      ReadAppsThree(s, s1, s2, a0, a1, packed);
    }

    static lemma ReadAppsThree(s: seq<byte>, s1: seq<byte>, s2: seq<byte>, a0: App, a1: App, packed: bool)
      requires ReadSlot(s, None, packed) == Got(a0, s1) && ReadSlot(s1, Some(a0), packed) == Got(a1, s2)
      ensures ReadApps(s, None, SLOTS, packed) ==
              match ReadSlot(s2, Some(a1), packed)
              case Fail => Fail
              case Got(a2, s3) => Got([a0, a1, a2], s3)
    {
      hide ReadSlot;
      var r := ReadSlot(s2, Some(a1), packed);
      if r.Got? {
        assert ReadApps(r.rest, Some(r.value), 0, packed) == Got([], r.rest);
        assert [a0] + ([a1] + ([r.value] + [])) == [a0, a1, r.value];
      }
      assert ReadApps(s1, Some(a0), 2, packed) ==
             match ReadApps(s2, Some(a1), 1, packed)
             case Fail => Fail
             case Got(others, end) => Got([a1] + others, end);
    }

    /** ConnectionPath::Deserialize. */
    method Deserialize(s: seq<byte>, packed: bool) returns (ok: bool)
      requires Valid()
      modifies portSegs, dataSeg, app
      ensures Valid()
      ensures match ReadPath(s, packed) case None => !ok case Some(p) => ok && Val() == p
    {
      hide ReadGroup, ReadApps, ReadData;
      Clear();
      var rest := portSegs.Deserialize(s, packed);
      if rest.None? { return false; }
      rest := DeserializeApps(rest.value, packed);
      if rest.None? { return false; }
      if |rest.value| > 0 {
        rest := dataSeg.Deserialize(rest.value);
        if rest.None? { return false; }
      }
      // one odd byte at the end of an even input is padding
      ok := |rest.value| == 0 || (|rest.value| == 1 && |s| % 2 == 0);
    }
  }
}
