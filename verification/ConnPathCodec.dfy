/** Connection paths come back: the port segment group, the data segment, and up to three
    application paths of which each may leave out what it shares with the one before. */
module ConnPathCodec {
  import opened Words
  import opened Bytes
  import opened EPathSpec
  import opened EPathCodec

  // ----- The port segment group

  predicate KeyInRange(k: Key) {
    k.vendor < TWO16 && k.device < TWO16 && k.product < TWO16 && k.major < 256 && k.minor < 256
  }

  /** What the fields of a group can hold. */
  predicate GroupInRange(g: Group) {
    && (g.key.Some? ==> KeyInRange(g.key.value))
    && (g.port.Some? ==> g.port.value.port < TWO16)
    && g.pit < TWO32 && (!g.inUsecs && !g.inMsecs ==> g.pit == 0)
  }

  /** The bytes begin no segment of the group. */
  predicate NoGroupSegment(s: seq<byte>) {
    s == [] || (s[0] >= 0x20 && s[0] != 0x34 && s[0] != 0x43 && s[0] != 0x51)
  }

  lemma KeyParsed(k: Key, rest: seq<byte>)
    requires KeyInRange(k)
    ensures ReadKey(PutKey(k) + rest) == Got(k, rest)
  {
    hide Put16, Get16;
    var s := PutKey(k) + rest;
    var v, d, c := Put16(k.vendor), Put16(k.device), Put16(k.product);
    var e: seq<byte> := [k.major, k.minor];
    assert s[2..] == v + (d + (c + (e + rest)));
    assert s[4..] == d + (c + (e + rest));
    assert s[6..] == c + (e + rest);
    assert s[8..] == e + rest;
    assert s[10..] == rest;
    Got16(k.vendor, d + (c + (e + rest)));
    Got16(k.device, c + (e + rest));
    Got16(k.product, e + rest);
    assert s[8] == s[8..][0] && s[9] == s[8..][1];
  }

  lemma KeyRead(g: Group, k: Key, rest: seq<byte>, packed: bool)
    requires KeyInRange(k)
    ensures ReadGroup(g, PutKey(k) + rest, packed) == ReadGroup(g.(key := Some(k)), rest, packed)
  {
    hide ReadKey;
    KeyParsed(k, rest);
    var s := PutKey(k) + rest;
    assert s[0] == 0x34;
  }

  lemma UsecsParsed(v: nat, rest: seq<byte>)
    requires v < TWO32
    ensures ReadUsecs([0x51, 2] + Put32(v) + rest) == Got(v, rest)
  {
    hide Put32, Get32;
    var s := [0x51, 2] + Put32(v) + rest;
    assert s[2..] == Put32(v) + rest;
    Got32(v, rest);
    assert s[6..] == s[2..][4..];
  }

  lemma UsecsRead(g: Group, v: nat, rest: seq<byte>, packed: bool)
    requires v < TWO32
    ensures ReadGroup(g, [0x51, 2] + Put32(v) + rest, packed) == ReadGroup(g.(inUsecs := true, pit := v), rest, packed)
  {
    hide ReadUsecs, Put32;
    UsecsParsed(v, rest);
    var s := [0x51, 2] + Put32(v) + rest;
    assert s[0] == 0x51;
  }

  lemma MsecsRead(g: Group, m: nat, rest: seq<byte>, packed: bool)
    requires m < 256
    ensures ReadGroup(g, [0x43, m] + rest, packed) == ReadGroup(g.(inMsecs := true, pit := m * 1000), rest, packed)
  {
    var s := [0x43, m] + rest;
    assert s[2..] == rest;
  }

  lemma PortHead(p: Port)
    requires p.port < TWO16 && |p.link| <= 255
    ensures var h := PutPortBytes(p)[..|PutPortBytes(p)| - |p.link|];
            PutPortBytes(p) == h + p.link && |h| > 0 && h[0] < 0x20
  {
  }

  lemma LinkRead(head: seq<byte>, port: nat, link: seq<byte>, rest: seq<byte>, packed: bool)
    ensures ReadLink(head + link + (PadEven(|head + link|, packed) + rest), port, |head|, |link|, packed) == Got(Port(port, link), rest)
  {
    var s := head + link + (PadEven(|head + link|, packed) + rest);
    assert s[|head|..|head| + |link|] == link;
    assert s[|head + link| + |PadEven(|head + link|, packed)|..] == rest;
  }

  /** The bytes of a written port before its link address. */
  function PortHeader(p: Port): seq<byte> {
    PutPortBytes(p)[..|PutPortBytes(p)| - |p.link|]
  }

  lemma ShortHeader(p: Port, t: seq<byte>, packed: bool)
    requires p.port < 15 && |p.link| <= 255
    ensures var s := PortHeader(p) + t;
            s != [] && ReadPort(s, packed) == ReadLink(s, p.port, |PortHeader(p)|, |p.link|, packed)
  {
    hide Put16, Get16, ReadLink;
    assert PortHeader(p) == if |p.link| == 1 then [p.port] else [0x10 + p.port, |p.link|];
  }

  lemma ExtendedHeader(p: Port, t: seq<byte>, packed: bool)
    requires 15 < p.port < TWO16 && |p.link| <= 255
    ensures var s := PortHeader(p) + t;
            s != [] && ReadPort(s, packed) == ReadLink(s, p.port, |PortHeader(p)|, |p.link|, packed)
  {
    hide Put16, Get16, ReadLink;
    var s := PortHeader(p) + t;
    Got16(p.port, t);
    if |p.link| == 1 {
      assert PortHeader(p) == [0x0f] + Put16(p.port);
      assert s[1..] == Put16(p.port) + t;
    } else {
      assert PortHeader(p) == [0x1f, |p.link|] + Put16(p.port);
      assert s[2..] == Put16(p.port) + t;
    }
  }

  /** What the reader makes of the header, whatever follows it. */
  lemma HeaderRead(p: Port, t: seq<byte>, packed: bool)
    requires p.port < TWO16 && p.port != 15 && |p.link| <= 255
    ensures var s := PortHeader(p) + t;
            s != [] && ReadPort(s, packed) == ReadLink(s, p.port, |PortHeader(p)|, |p.link|, packed)
    ensures PutPortBytes(p) == PortHeader(p) + p.link
  {
    hide Put16, ReadPort, ReadLink;
    assert PutPortBytes(p) == PortHeader(p) + p.link;
    if p.port < 15 { ShortHeader(p, t, packed); } else { ExtendedHeader(p, t, packed); }
  }

  /** Any port but 15 is read back as written. */
  lemma PortRead(p: Port, rest: seq<byte>, packed: bool)
    requires p.port < TWO16 && p.port != 15 && |p.link| <= 255
    ensures ReadPort(PutPort(p, packed).value + rest, packed) == Got(p, rest)
  {
    hide ReadPort, ReadLink, PutPortBytes, PortHeader;
    var b := PutPortBytes(p);
    var pad := PadEven(|b|, packed);
    HeaderRead(p, p.link + (pad + rest), packed);
    LinkRead(PortHeader(p), p.port, p.link, rest, packed);
    assert PutPort(p, packed).value + rest == PortHeader(p) + (p.link + (pad + rest));
    assert PutPort(p, packed).value + rest == PortHeader(p) + p.link + (pad + rest);
  }

  /** Port 15 is written in the short form and read in the extended one: two bytes of what
      follows are lost. */
  lemma Port15Read(p: Port, rest: seq<byte>, packed: bool)
    requires p.port == 15 && |p.link| <= 255
    ensures var r := ReadPort(PutPort(p, packed).value + rest, packed);
            r.Got? ==> |r.rest| < |rest|
  {
    var b := PutPortBytes(p);
    assert |b| == if |p.link| == 1 then 2 else 2 + |p.link|;
  }

  lemma GroupStopped(g: Group, rest: seq<byte>, packed: bool)
    requires NoGroupSegment(rest)
    ensures ReadGroup(g, rest, packed) == Got(g, rest)
  {
  }

  /** The last part of a group. */
  lemma PortPartRead(g: Group, p: Option<Port>, rest: seq<byte>, packed: bool)
    requires g.port.None? && (p.Some? ==> p.value.port < TWO16 && |p.value.link| <= 255) && NoGroupSegment(rest)
    ensures var b := if p.Some? then PutPort(p.value, packed).value else [];
            if p.Some? && p.value.port == 15 then
              var r := ReadGroup(g, b + rest, packed);
              r.Got? ==> |r.rest| < |rest|
            else ReadGroup(g, b + rest, packed) == Got(g.(port := p), rest)
  {
    if p.Some? {
      var s := PutPort(p.value, packed).value + rest;
      PortHead(p.value);
      assert s[0] < 0x20;
      if p.value.port == 15 {
        Port15Read(p.value, rest, packed);
      } else {
        PortRead(p.value, rest, packed);
        GroupStopped(g.(port := p), rest, packed);
      }
    } else {
      assert [] + rest == rest;
      GroupStopped(g, rest, packed);
    }
  }

  /** What reading the inhibit time segments leaves behind. */
  function AfterInhibit(g: Group): nat {
    if g.inMsecs then g.pit / 1000 * 1000 else if g.inUsecs then g.pit else 0
  }

  lemma InhibitRead(g: Group, rest: seq<byte>, packed: bool)
    requires GroupInRange(g) && PutInhibit(g).Some?
    ensures ReadGroup(Group(g.key, false, false, 0, None), PutInhibit(g).value + rest, packed)
            == ReadGroup(Group(g.key, g.inUsecs, g.inMsecs, AfterInhibit(g), None), rest, packed)
  {
    hide ReadGroup, Put32;
    var m: seq<byte> := if g.inMsecs then [0x43, U8(g.pit / 1000)] else [];
    var g0 := Group(g.key, false, false, 0, None);
    var g1 := if g.inUsecs then g0.(inUsecs := true, pit := g.pit) else g0;
    var s := PutInhibit(g).value + rest;
    if g.inUsecs {
      UsecsRead(g0, g.pit, m + rest, packed);
      assert s == [0x51, 2] + Put32(g.pit) + (m + rest);
    } else {
      assert s == m + rest;
    }
    if g.inMsecs {
      MsecsRead(g1, g.pit / 1000, rest, packed);
    } else {
      assert m + rest == rest;
    }
  }

  /** The group comes back exactly when its port is not 15 and a time in the milliseconds
      form is a whole number of them; with both forms present that is the shared value. */
  lemma GroupRoundTrip(g: Group, rest: seq<byte>, packed: bool)
    requires GroupInRange(g) && PutGroup(g, packed).Some? && NoGroupSegment(rest)
    ensures ReadGroup(NO_GROUP, PutGroup(g, packed).value + rest, packed) == Got(g, rest)
            <==> !(g.port.Some? && g.port.value.port == 15) && (g.inMsecs ==> g.pit % 1000 == 0)
  {
    hide ReadGroup, PutKey, PutPort;
    var pit := PutInhibit(g).value;
    var port := if g.port.Some? then PutPort(g.port.value, packed).value else [];
    var more := pit + (port + rest);
    var s := PutGroup(g, packed).value + rest;
    if g.key.Some? {
      assert s == PutKey(g.key.value) + more;
      KeyRead(NO_GROUP, g.key.value, more, packed);
    } else {
      assert s == more;
    }
    InhibitRead(g, port + rest, packed);
    if g.port.Some? { PortBounded(g, packed); }
    PortPartRead(Group(g.key, g.inUsecs, g.inMsecs, AfterInhibit(g), None), g.port, rest, packed);
  }

  lemma PortBounded(g: Group, packed: bool)
    requires PutGroup(g, packed).Some? && g.port.Some?
    ensures |g.port.value.link| <= 255
  {
  }

  // ----- The data segment

  predicate WordsOk(ws: seq<nat>) {
    forall k :: 0 <= k < |ws| ==> ws[k] < TWO16
  }

  lemma {:induction false} WordsRead(ws: seq<nat>, rest: seq<byte>)
    requires WordsOk(ws)
    ensures ReadWords(PutWords(ws) + rest, |ws|) == Got(ws, rest)
  {
    hide Put16, Get16;
    var s := PutWords(ws) + rest;
    if ws == [] {
      assert s == rest;
    } else {
      assert s == Put16(ws[0]) + (PutWords(ws[1..]) + rest);
      Got16(ws[0], PutWords(ws[1..]) + rest);
      WordsRead(ws[1..], rest);
      assert [ws[0]] + ws[1..] == ws;
    }
  }

  lemma DataRoundTrip(ws: seq<nat>, rest: seq<byte>)
    requires WordsOk(ws) && |ws| <= 255
    ensures ReadData(PutData(ws).value + rest) == Got(Some(ws), rest)
  {
    var s := PutData(ws).value + rest;
    assert s[2..] == PutWords(ws) + rest;
    WordsRead(ws, rest);
  }
}
