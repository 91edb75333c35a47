/**
  Raw bytes as they cross the serial link, substring search (Python's `in` on
  `bytes` and `str`), and the UTF-8 encoding that `str.encode()` applies to
  every command before it is written.
 */
module Bytes {

  /** An octet; a newtype over `int` keeps the encoder's arithmetic linear-friendly. */
  newtype Byte = b: int | 0 <= b < 0x100

  /** One chunk as handed over by a single `read` of the port. */
  type Chunk = seq<Byte>

  /** `pat` occurs in `s` starting at index `i`. */
  predicate OccursAt<T(==)>(s: seq<T>, pat: seq<T>, i: int)
  {
    0 <= i <= |s| - |pat| && s[i..i + |pat|] == pat
  }

  /** `pat` occurs in `s` as a contiguous run (`pat in s`). */
  predicate Contains<T(==)>(s: seq<T>, pat: seq<T>)
  {
    exists i | 0 <= i <= |s| - |pat| :: OccursAt(s, pat, i)
  }

  /** An occurrence is kept when more elements are added on either side. */
  lemma ContainsExtended<T>(u: seq<T>, s: seq<T>, v: seq<T>, pat: seq<T>)
    requires Contains(s, pat)
    ensures Contains(u + s + v, pat)
  {
    var i :| 0 <= i <= |s| - |pat| && OccursAt(s, pat, i);
    var w := u + s + v;
    assert w[|u| + i..|u| + i + |pat|] == pat by {
      forall k | 0 <= k < |pat|
        ensures w[|u| + i + k] == pat[k]
      {
        assert w[|u| + i + k] == s[i + k];
        assert s[i..i + |pat|][k] == s[i + k];
      }
    }
    assert OccursAt(w, pat, |u| + i);
  }

  /** The UTF-8 encoding of one Unicode scalar value. */
  function EncodeChar(c: char): (r: seq<Byte>)
    ensures 1 <= |r| <= 4
    ensures (c as int < 0x80) <==> |r| == 1
    ensures |r| == 1 ==> r[0] as int == c as int
  {
    var n := c as int;
    if n < 0x80 then
      [n as Byte]
    else if n < 0x800 then
      [(0xC0 + n / 0x40) as Byte, (0x80 + n % 0x40) as Byte]
    else if n < 0x10000 then
      [(0xE0 + n / 0x1000) as Byte, (0x80 + n / 0x40 % 0x40) as Byte, (0x80 + n % 0x40) as Byte]
    else
      [(0xF0 + n / 0x40000) as Byte, (0x80 + n / 0x1000 % 0x40) as Byte,
       (0x80 + n / 0x40 % 0x40) as Byte, (0x80 + n % 0x40) as Byte]
  }

  /** Python's `str.encode()` with its default codec, UTF-8. */
  function Encode(s: string): seq<Byte>
  {
    if s == [] then [] else EncodeChar(s[0]) + Encode(s[1..])
  }

  /** Encoding a concatenation is concatenating the encodings, so a command
      and its terminator may be encoded separately. */
  lemma {:induction false} EncodeAppend(a: string, b: string)
    ensures Encode(a + b) == Encode(a) + Encode(b)
  {
    if a != [] {
      calc {
        Encode(a + b);
        EncodeChar(a[0]) + Encode((a + b)[1..]);
        { assert (a + b)[1..] == a[1..] + b; }
        EncodeChar(a[0]) + Encode(a[1..] + b);
        { EncodeAppend(a[1..], b); }
        EncodeChar(a[0]) + (Encode(a[1..]) + Encode(b));
        Encode(a) + Encode(b);
      }
    } else {
      assert a + b == b;
    }
  }
  /** An ASCII character keeps its byte in the encoding, right after the
      encoding of what precedes it. */
  lemma EncodeAsciiAt(u: string, c: char, v: string)
    requires c as int < 0x80
    ensures |Encode(u)| < |Encode(u + [c] + v)|
    ensures Encode(u + [c] + v)[|Encode(u)|] as int == c as int
  {
    EncodeAppend(u + [c], v);
    EncodeAppend(u, [c]);
    assert Encode([c]) == EncodeChar(c) + Encode([]);
  }


  predicate IsAscii(s: string)
  {
    forall k | 0 <= k < |s| :: s[k] as int < 0x80
  }

  /** One byte per character, with the character's code. */
  function AsciiBytes(s: string): seq<Byte>
    requires IsAscii(s)
  {
    seq(|s|, k requires 0 <= k < |s| => s[k] as int as Byte)
  }

  /** On ASCII text, such as every command this driver sends, UTF-8 is the
      one-byte-per-character code. */
  lemma {:induction false} EncodeAscii(s: string)
    requires IsAscii(s)
    ensures Encode(s) == AsciiBytes(s)
  {
    if s != [] {
      assert IsAscii(s[1..]) by {
        forall k | 0 <= k < |s| - 1 ensures s[1..][k] as int < 0x80 {
          assert s[1..][k] == s[k + 1];
        }
      }
      EncodeAscii(s[1..]);
    }
  }
}
