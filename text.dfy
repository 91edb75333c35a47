/**
  The two pieces of Python string handling the switch command relies on:
  `str.split()` with no separator and `int()` on the last field.
 */
module Text {

  import opened Wrappers
  import opened Bytes

  /** Python's `str.isspace()` for one character: the separators `str.split()` uses. */
  predicate IsSpace(c: char)
  {
    var n := c as int;
    n == 0x20 || 0x09 <= n <= 0x0D || 0x1C <= n <= 0x1F || n == 0x85 || n == 0xA0
    || n == 0x1680 || 0x2000 <= n <= 0x200A || n == 0x2028 || n == 0x2029
    || n == 0x202F || n == 0x205F || n == 0x3000
  }

  predicate NoSpace(s: string)
  {
    forall k | 0 <= k < |s| :: !IsSpace(s[k])
  }

  predicate AllSpace(s: string)
  {
    forall k | 0 <= k < |s| :: IsSpace(s[k])
  }

  /** Length of the run of non-space characters at the front of `s`. */
  function WordLength(s: string): (n: nat)
    ensures n <= |s|
    ensures NoSpace(s[..n])
    ensures n < |s| ==> IsSpace(s[n])
  {
    if s == [] || IsSpace(s[0]) then 0 else 1 + WordLength(s[1..])
  }

  /** Python's `s.split()`: the maximal runs of non-space characters, in order.
      Every field is non-empty and holds no separator. */
  function Split(s: string): (fields: seq<string>)
    ensures forall k | 0 <= k < |fields| :: fields[k] != [] && NoSpace(fields[k])
    decreases |s|
  {
    if s == [] then []
    else if IsSpace(s[0]) then Split(s[1..])
    else
      var n := WordLength(s);
      [s[..n]] + Split(s[n..])
  }

  /** `s` with every separator removed: the independent reference for `Split`. */
  function Squeeze(s: string): string
  {
    if s == [] then [] else (if IsSpace(s[0]) then [] else [s[0]]) + Squeeze(s[1..])
  }

  function Flatten(fields: seq<string>): string
  {
    if fields == [] then [] else fields[0] + Flatten(fields[1..])
  }

  lemma {:induction false} SqueezeAppend(a: string, b: string)
    ensures Squeeze(a + b) == Squeeze(a) + Squeeze(b)
  {
    if a == [] {
      assert a + b == b;
    } else {
      assert (a + b)[1..] == a[1..] + b;
      SqueezeAppend(a[1..], b);
    }
  }

  lemma {:induction false} SqueezeNoSpace(a: string)
    requires NoSpace(a)
    ensures Squeeze(a) == a
  {
    if a != [] {
      assert NoSpace(a[1..]) by {
        forall k | 0 <= k < |a| - 1 ensures !IsSpace(a[1..][k]) {
          assert a[1..][k] == a[k + 1];
        }
      }
      SqueezeNoSpace(a[1..]);
    }
  }

  /** The fields of `s.split()`, joined back together, are exactly the
      non-separator characters of `s` in their original order: nothing is
      lost, reordered or invented. */
  lemma {:induction false} SplitLosesOnlySpaces(s: string)
    ensures Flatten(Split(s)) == Squeeze(s)
    decreases |s|
  {
    if s == [] {
    } else if IsSpace(s[0]) {
      SplitLosesOnlySpaces(s[1..]);
    } else {
      var n := WordLength(s);
      SplitLosesOnlySpaces(s[n..]);
      assert s == s[..n] + s[n..];
      SqueezeAppend(s[..n], s[n..]);
      SqueezeNoSpace(s[..n]);
      assert ([s[..n]] + Split(s[n..]))[1..] == Split(s[n..]);
    }
  }

  /** `s.split()` is empty exactly when `s` holds nothing but separators. */
  lemma {:induction false} SplitEmptyIffAllSpace(s: string)
    ensures Split(s) == [] <==> AllSpace(s)
    decreases |s|
  {
    if s != [] && IsSpace(s[0]) {
      SplitEmptyIffAllSpace(s[1..]);
      if AllSpace(s[1..]) {
        forall k | 0 <= k < |s| ensures IsSpace(s[k]) {
          if k > 0 { assert s[k] == s[1..][k - 1]; }
        }
      }
      if AllSpace(s) {
        forall k | 0 <= k < |s| - 1 ensures IsSpace(s[1..][k]) {
          assert s[1..][k] == s[k + 1];
        }
      }
    }
  }

  /** A separator stops the first word no later than it would have stopped in `s` alone. */
  lemma {:induction false} WordLengthAppend(s: string, w: string)
    ensures WordLength(s + [' '] + w) == WordLength(s)
  {
    if s == [] {
      assert (s + [' '] + w)[0] == ' ';
    } else if !IsSpace(s[0]) {
      assert (s + [' '] + w)[1..] == s[1..] + [' '] + w;
      WordLengthAppend(s[1..], w);
    } else {
      assert (s + [' '] + w)[0] == s[0];
    }
  }

  /** Appending a separator and one more field to a text adds exactly that
      field at the end of its `split()`. */
  lemma {:induction false} SplitAppendField(s: string, w: string)
    requires w != [] && NoSpace(w)
    ensures Split(s + [' '] + w) == Split(s) + [w]
    decreases |s|
  {
    var t := s + [' '] + w;
    if s == [] {
      assert t[1..] == w;
      assert w[..WordLength(w)] == w;
      assert w[WordLength(w)..] == [];
    } else if IsSpace(s[0]) {
      assert t[1..] == s[1..] + [' '] + w;
      SplitAppendField(s[1..], w);
    } else {
      var n := WordLength(s);
      WordLengthAppend(s, w);
      assert t[..n] == s[..n];
      assert t[n..] == s[n..] + [' '] + w;
      SplitAppendField(s[n..], w);
    }
  }

  /** `s.split()[-1]`. */
  function LastField(s: string): string
    requires Split(s) != []
  {
    var fields := Split(s);
    fields[|fields| - 1]
  }

  /** Any text holding a non-separator character has a last field, so a
      setting recognised by the marker never makes `split()[-1]` fail. */
  lemma HasFieldWhenContains(s: string, marker: string)
    requires marker != [] && !IsSpace(marker[0])
    requires Contains(s, marker)
    ensures Split(s) != []
  {
    var i :| 0 <= i <= |s| - |marker| && OccursAt(s, marker, i);
    assert s[i..i + |marker|][0] == s[i];
    SplitEmptyIffAllSpace(s);
  }

  predicate IsDigit(c: char)
  {
    '0' <= c <= '9'
  }

  /** The digits of a decimal literal as Python's `int()` accepts them:
      ASCII digits, with single underscores allowed only between two digits. */
  predicate IsDigitPart(t: string)
  {
    && |t| > 0 && IsDigit(t[0]) && IsDigit(t[|t| - 1])
    && (forall k | 0 <= k < |t| :: IsDigit(t[k]) || t[k] == '_')
    && (forall k | 0 <= k < |t| - 1 :: t[k] == '_' ==> t[k + 1] != '_')
  }

  /** Value of a digit part, read from the right; underscores carry no value. */
  function DigitsValue(t: string): nat
  {
    if t == [] then 0
    else
      var c := t[|t| - 1];
      if IsDigit(c) then 10 * DigitsValue(t[..|t| - 1]) + (c as int - '0' as int)
      else DigitsValue(t[..|t| - 1])
  }

  /** Python's `int(t)` for a field without surrounding whitespace: an optional
      sign and a digit part; anything else raises `ValueError` (here `None`). */
  function ParseInt(t: string): Option<int>
  {
    if |t| > 0 && (t[0] == '+' || t[0] == '-') then
      if IsDigitPart(t[1..]) then
        var v: int := DigitsValue(t[1..]);
        Some(if t[0] == '-' then -v else v)
      else None
    else if IsDigitPart(t) then Some(DigitsValue(t))
    else None
  }

  /** The plain decimal spelling of `n`, as `str(n)` writes it. */
  function Decimal(n: nat): (t: string)
    ensures |t| > 0 && forall k | 0 <= k < |t| :: IsDigit(t[k])
  {
    var d := (n % 10 + '0' as int) as char;
    if n < 10 then [d] else Decimal(n / 10) + [d]
  }

  lemma {:induction false} DecimalValue(n: nat)
    ensures DigitsValue(Decimal(n)) == n
  {
    var t := Decimal(n);
    if n >= 10 {
      DecimalValue(n / 10);
      assert t[..|t| - 1] == Decimal(n / 10);
    }
  }

  /** `int(str(n)) == n` and `int("-" + str(n)) == -n`: parsing undoes spelling,
      so a switch command written with a speed yields that speed back. */
  lemma ParseDecimal(n: nat)
    ensures ParseInt(Decimal(n)) == Some(n)
    ensures ParseInt("-" + Decimal(n)) == Some(-(n as int))
  {
    DecimalValue(n);
    assert ("-" + Decimal(n))[1..] == Decimal(n);
  }
}
