/** Bytes on the wire: little and big endian numbers, and the bounded writer. What is left
    to read of an input is a plain sequence of bytes. */
module Bytes {
  import opened Words

  type byte = x: int | 0 <= x < 256

  function U8(v: int): byte { v % 256 }

  function Put16(v: int): (r: seq<byte>)
    ensures |r| == 2
  {
    [U8(v), U8(v / 256)]
  }

  function Put32(v: int): (r: seq<byte>)
    ensures |r| == 4
  {
    [U8(v), U8(v / 256), U8(v / 65536), U8(v / 16777216)]
  }

  function Put16BE(v: int): (r: seq<byte>)
    ensures |r| == 2
  {
    [U8(v / 256), U8(v)]
  }

  function Put32BE(v: int): (r: seq<byte>)
    ensures |r| == 4
  {
    [U8(v / 16777216), U8(v / 65536), U8(v / 256), U8(v)]
  }

  function Get16(s: seq<byte>): (v: nat)
    requires |s| >= 2
    ensures v < TWO16
  {
    s[0] as int + 256 * s[1] as int
  }

  function Get32(s: seq<byte>): (v: nat)
    requires |s| >= 4
    ensures v < TWO32
  {
    s[0] as int + 256 * s[1] as int + 65536 * s[2] as int + 16777216 * s[3] as int
  }

  function Get16BE(s: seq<byte>): (v: nat)
    requires |s| >= 2
    ensures v < TWO16
  {
    256 * s[0] as int + s[1] as int
  }

  function Get32BE(s: seq<byte>): (v: nat)
    requires |s| >= 4
    ensures v < TWO32
  {
    16777216 * s[0] as int + 65536 * s[1] as int + 256 * s[2] as int + s[3] as int
  }

  function Zeros(n: nat): (r: seq<byte>)
    ensures |r| == n
  {
    seq(n, _ => 0)
  }

  /** Reading back a number gives it, truncated to its width. */
  lemma Got16(v: int, rest: seq<byte>)
    ensures Get16(Put16(v) + rest) == U16(v) && (Put16(v) + rest)[2..] == rest
    ensures Get16BE(Put16BE(v) + rest) == U16(v) && (Put16BE(v) + rest)[2..] == rest
  {
    Bytes16(v);
  }

  lemma Bytes16(v: int)
    ensures v % 256 + 256 * ((v / 256) % 256) == v % TWO16
  {
    var b := v / 256;
    assert v == 256 * b + v % 256;
    assert b == 256 * (b / 256) + b % 256;
  }

  lemma Got32(v: int, rest: seq<byte>)
    ensures Get32(Put32(v) + rest) == U32(v) && (Put32(v) + rest)[4..] == rest
    ensures Get32BE(Put32BE(v) + rest) == U32(v) && (Put32BE(v) + rest)[4..] == rest
  {
    Bytes32(v);
  }

  lemma Bytes32(v: int)
    ensures v % 256 + 256 * ((v / 256) % 256) + 65536 * ((v / 65536) % 256) + 16777216 * ((v / 16777216) % 256) == v % TWO32
  {
    var lo, hi := v % 65536, v / 65536;
    Bytes16(v);
    Bytes16(hi);
    assert (v / 65536) / 256 == v / 16777216;
    assert v == 65536 * hi + lo;
    assert hi == 65536 * (hi / 65536) + hi % 65536;
  }

  /** A bounded buffer and the place to write next. The original throws when a byte does not
      fit; here the writer notes the overrun and writes nothing any more. */
  class BufWriter {
    const buf: array<byte>
    var start: nat
    var overrun: bool

    ghost var sent: seq<byte>  // everything put so far, were the buffer large enough

    ghost predicate Valid()
      reads this, buf
    {
      && overrun == (|sent| > buf.Length)
      && (!overrun ==> start == |sent| && buf[..start] == sent)
    }

    constructor (buf: array<byte>)
      ensures Valid() && this.buf == buf && sent == []
    {
      this.buf := buf;
      start, overrun, sent := 0, false, [];
    }

    method Append(s: seq<byte>)
      requires Valid()
      modifies this, buf
      ensures Valid() && sent == old(sent) + s
    {
      if overrun || start + |s| > buf.Length {
        overrun := true;
      } else {
        forall k | 0 <= k < |s| { buf[start + k] := s[k]; }
        start := start + |s|;
      }
      sent := sent + s;
    }

    method Put8(v: int)
      requires Valid()
      modifies this, buf
      ensures Valid() && sent == old(sent) + [U8(v)]
    {
      if overrun || start + 1 > buf.Length {
        overrun := true;
      } else {
        buf[start] := v % 256;
        start := start + 1;
      }
      sent := sent + [U8(v)];
    }

    method PutLE16(v: int)
      requires Valid()
      modifies this, buf
      ensures Valid() && sent == old(sent) + Put16(v)
    {
      if overrun || start + 2 > buf.Length {
        overrun := true;
      } else {
        buf[start] := v % 256;
        buf[start + 1] := v / 256 % 256;
        start := start + 2;
      }
      sent := sent + Put16(v);
    }

    method PutLE32(v: int)
      requires Valid()
      modifies this, buf
      ensures Valid() && sent == old(sent) + Put32(v)
    {
      if overrun || start + 4 > buf.Length {
        overrun := true;
      } else {
        buf[start] := v % 256;
        buf[start + 1] := v / 256 % 256;
        buf[start + 2] := v / 65536 % 256;
        buf[start + 3] := v / 16777216 % 256;
        start := start + 4;
      }
      sent := sent + Put32(v);
    }

    method PutBE16(v: int)
      requires Valid()
      modifies this, buf
      ensures Valid() && sent == old(sent) + Put16BE(v)
    {
      if overrun || start + 2 > buf.Length {
        overrun := true;
      } else {
        buf[start + 1] := v % 256;
        buf[start] := v / 256 % 256;
        start := start + 2;
      }
      sent := sent + Put16BE(v);
    }

    method PutBE32(v: int)
      requires Valid()
      modifies this, buf
      ensures Valid() && sent == old(sent) + Put32BE(v)
    {
      if overrun || start + 4 > buf.Length {
        overrun := true;
      } else {
        buf[start + 3] := v % 256;
        buf[start + 2] := v / 256 % 256;
        buf[start + 1] := v / 65536 % 256;
        buf[start] := v / 16777216 % 256;
        start := start + 4;
      }
      sent := sent + Put32BE(v);
    }

    method Fill(n: nat)
      requires Valid()
      modifies this, buf
      ensures Valid() && sent == old(sent) + Zeros(n)
    {
      Append(Zeros(n));
    }

    /** Set a byte that was skipped earlier. */
    method Patch(at: nat, v: int)
      requires Valid() && (!overrun ==> at < |sent|)
      modifies this, buf
      ensures Valid() && |sent| == |old(sent)| && overrun == old(overrun)
      ensures !overrun ==> at < |old(sent)| && sent == old(sent)[at := U8(v)]
    {
      if !overrun {
        buf[at] := v % 256;
        sent := sent[at := U8(v)];
      }
    }
  }
}
