/** Message router requests: service, padded request path, data (section 2-4.1 of CIP
    Volume 1). */
module MessageRouter {
  import opened Words
  import opened Bytes
  import opened EPathSpec
  import opened EPathCodec
  import opened EPath

  datatype Request = Request(service: byte, path: App, data: seq<byte>)

  /** CipMessageRouterRequest::Serialize. */
  function PutRequest(r: Request): seq<byte> {
    var p := PutApp(r.path, Plain(false));
    [r.service, U8(|p| / 2)] + p + r.data
  }

  /** A key in front of the path is read over. */
  function SkipKey(s: seq<byte>): (r: Option<seq<byte>>)
    ensures r.Some? ==> |r.value| <= |s| && r.value == s[|s| - |r.value|..]
  {
    if s == [] then None
    else if s[0] != 0x34 then Some(s)
    else if |s| < 10 || s[1] != 4 then None
    else Some(s[10..])
  }

  /** CipMessageRouterRequest::DeserializeMRReq; None is its -1. The path is parsed from a
      reader limited to the counted words, and the data start where that parse stopped. */
  function ReadRequest(s: seq<byte>): Option<Request> {
    if |s| < 2 || 2 * s[1] as int > |s| - 2 then None
    else
      match SkipKey(s[2..2 + 2 * s[1] as int])
      case None => None
      case Some(path) =>
        match ReadApp(path, None, false)
        case Fail => None
        case Got(p, left) => Some(Request(s[0], p, left + s[2 + 2 * s[1] as int..]))
  }

  // ----- Padded paths have whole words

  lemma {:induction false} FieldsEven(p: App, fields: seq<nat>)
    ensures |PutFields(p, fields, false)| % 2 == 0
    ensures |PutFields(p, fields, false)| <= 6 * |fields|
  {
    if fields != [] {
      FieldsEven(p, fields[1..]);
    }
  }

  lemma PathEven(p: App, ctl: Ctl)
    requires !ctl.packed && (p.tag.Some? ==> |p.tag.value| <= MAX_TAG)
    ensures |PutApp(p, ctl)| % 2 == 0 && |PutApp(p, ctl)| <= 68
  {
    hide PutFields;
    FieldsEven(p, LogicalFields(p, ctl));
    FieldsEven(p, SymbolFields(p));
  }

  /** The paths a request can carry: logical or symbolic. */
  predicate WellFormed(p: App) {
    if p.tag.Some? then WellFormedSymbolic(p) else WellFormedLogical(p)
  }

  lemma AppRoundTrip(p: App)
    requires Small(p) && (p.tag.Some? ==> TagOk(p.tag.value))
    ensures ReadApp(PutApp(p, Plain(false)), None, false) == Got(p, []) <==> WellFormed(p)
  {
    if p.tag.Some? { SymbolicRoundTrip(p, false); } else { LogicalRoundTrip(p, false); }
  }

  lemma NothingWritten(p: App, fields: seq<nat>)
    ensures fields == [] ==> PutFields(p, fields, false) == []
  {
  }

  /** No written path starts like a key. */
  lemma NoKeyFirst(p: App)
    requires Small(p)
    ensures var s := PutApp(p, Plain(false)); SkipKey(s) == if s == [] then None else Some(s)
  {
    hide PutFields;
    var s := PutApp(p, Plain(false));
    if p.tag.None? && s != [] {
      var fs := LogicalFields(p, Plain(false));
      NothingWritten(p, fs);
      FirstByte(p, fs, [], false);
      assert s + [] == s;
      assert FieldOf(s[0]).Some?;
    }
  }

  lemma RequestParts(service: byte, w: seq<byte>, data: seq<byte>)
    requires |w| % 2 == 0 && |w| <= 510
    ensures ReadRequest([service, U8(|w| / 2)] + w + data) ==
            match SkipKey(w)
            case None => None
            case Some(path) =>
              match ReadApp(path, None, false)
              case Fail => None
              case Got(p, left) => Some(Request(service, p, left + data))
  {
    hide ReadApp, SkipKey;
    var s := [service, U8(|w| / 2)] + w + data;
    assert s[2..2 + |w|] == w && s[2 + |w|..] == data;
  }

  /** Request round trip: service, path and data come back exactly when the path is a well
      formed logical or symbolic one. */
  lemma RequestRoundTrip(r: Request)
    requires Small(r.path) && (r.path.tag.Some? ==> TagOk(r.path.tag.value))
    ensures ReadRequest(PutRequest(r)) == Some(r) <==> WellFormed(r.path)
  {
    hide PutApp, ReadApp, SkipKey, WellFormed, Small, ReadRequest;
    var p := PutApp(r.path, Plain(false));
    PathEven(r.path, Plain(false));
    AppRoundTrip(r.path);
    NoKeyFirst(r.path);
    RequestParts(r.service, p, r.data);
    if p == [] {
      EmptyFails();
    } else {
      match ReadApp(p, None, false) {
        case Fail =>
        case Got(q, left) => SamePart(left, r.data);
      }
    }
  }

  lemma EmptyFails()
    ensures ReadApp([], None, false) == Fail
  {
  }

  lemma SamePart(a: seq<byte>, b: seq<byte>)
    ensures a + b == b <==> a == []
  {
    if a + b == b { assert |a + b| == |a| + |b|; }
    if a == [] { assert a + b == b; }
  }

  /** Whatever the request, the path parser stays within the counted words: all bytes after
      them are data. */
  lemma PathStaysInWords(s: seq<byte>)
    requires ReadRequest(s).Some?
    ensures 2 + 2 * s[1] as int <= |s|
    ensures var d := ReadRequest(s).value.data;
            var after := s[2 + 2 * s[1] as int..];
            |d| >= |after| && d[|d| - |after|..] == after
  {
  }

  class CipMessageRouterRequest {
    var service: byte
    const path: CipAppPath
    var data: seq<byte>

    ghost predicate Valid()
      reads this, path
    {
      path.Valid()
    }

    ghost function Val(): Request
      requires Valid()
      reads this, path
    {
      Request(service, path.Val(), data)
    }

    constructor ()
      ensures Valid() && fresh(path)
    {
      service, data := 0, [];
      path := new CipAppPath();
    }

    /** The word count is skipped first and set once the path is written. */
    method Serialize(out: BufWriter)
      requires Valid() && out.Valid()
      modifies out, out.buf
      ensures Valid() && Val() == old(Val()) && out.Valid()
      ensures |out.sent| == |old(out.sent)| + |PutRequest(Val())|
      ensures !out.overrun ==> out.sent == old(out.sent) + PutRequest(Val())
    {
      hide PutApp;
      out.Put8(service);
      var at := out.start;
      out.Put8(0);
      var from := out.start;
      path.Serialize(out, Plain(false));
      var bytes := if out.overrun || out.start < from then 0 else out.start - from;
      out.Patch(at, bytes / 2);
      out.Append(data);
    }

    /** DeserializeMRReq. */
    method DeserializeMRReq(s: seq<byte>) returns (ok: bool)
      requires Valid()
      modifies this, path
      ensures Valid()
      ensures match ReadRequest(s) case None => !ok case Some(r) => ok && Val() == r
    {
      hide ReadApp;
      if |s| < 2 { return false; }
      service := s[0];
      var bytes := 2 * s[1] as nat;
      if bytes > |s| - 2 { return false; }
      var rpath := s[2..2 + bytes];
      if |rpath| == 0 { return false; }
      if rpath[0] == 0x34 {
        if |rpath| < 10 || rpath[1] != 4 { return false; }
        rpath := rpath[10..];
      }
      var rest := path.DeserializeAppPath(rpath, null, false);
      if rest.None? { return false; }
      data := rest.value + s[2 + bytes..];
      ok := true;
    }
  }
}
