/** The few .NET string and number operations the treasure-hunt code is built on:
    `Char.IsWhiteSpace`, `string.IsNullOrWhiteSpace`, `string.Trim`,
    `string.Split(char)`, `string.Join`, `int.Parse` on a field and the decimal
    rendering of an `int`. Each is stated as a function with the properties the
    parser and the serialiser rely on. */
module Text {
  import opened Results

  /** `Char.IsWhiteSpace`: the Unicode space, line and paragraph separators,
      the controls U+0009..U+000D, and U+0085. */
  predicate IsWhiteSpace(c: char) {
    || ('\U{9}' <= c <= '\U{D}')
    || c == ' '
    || c == '\U{85}'
    || c == '\U{A0}'
    || c == '\U{1680}'
    || ('\U{2000}' <= c <= '\U{200A}')
    || c == '\U{2028}'
    || c == '\U{2029}'
    || c == '\U{202F}'
    || c == '\U{205F}'
    || c == '\U{3000}'
  }

  /** `string.IsNullOrWhiteSpace` (the empty string included). */
  predicate IsBlank(s: string) {
    forall i :: 0 <= i < |s| ==> IsWhiteSpace(s[i])
  }

  /** No white space at either end. */
  predicate IsTrimmed(s: string) {
    |s| == 0 || (!IsWhiteSpace(s[0]) && !IsWhiteSpace(s[|s| - 1]))
  }

  /** Drops the leading white space: the result is the suffix after a blank prefix. */
  function TrimStart(s: string): (r: string)
    ensures |r| <= |s| && r == s[|s| - |r|..]
    ensures IsBlank(s[..|s| - |r|])
    ensures |r| == 0 || !IsWhiteSpace(r[0])
  {
    if |s| > 0 && IsWhiteSpace(s[0]) then
      var r := TrimStart(s[1..]);
      var k := |s| - |r|;
      assert r == s[k..] by {
        assert s[1..][k - 1..] == s[k..];
      }
      assert IsBlank(s[..k]) by {
        var blank := s[1..][..k - 1];
        forall i | 0 <= i < k ensures IsWhiteSpace(s[..k][i]) {
          if i > 0 {
            assert s[..k][i] == blank[i - 1];
          }
        }
      }
      r
    else
      s
  }

  /** Drops the trailing white space: the result is the prefix before a blank suffix. */
  function TrimEnd(s: string): (r: string)
    ensures |r| <= |s| && r == s[..|r|]
    ensures IsBlank(s[|r|..])
    ensures |r| == 0 || !IsWhiteSpace(r[|r| - 1])
  {
    if |s| > 0 && IsWhiteSpace(s[|s| - 1]) then
      var r := TrimEnd(s[..|s| - 1]);
      assert s[|r|..] == s[..|s| - 1][|r|..] + [s[|s| - 1]];
      r
    else
      s
  }

  /** `string.Trim()`. */
  function Trim(s: string): (r: string)
    ensures IsTrimmed(r)
    ensures r == [] <==> IsBlank(s)
    ensures |r| <= |s|
  {
    var t := TrimStart(s);
    var r := TrimEnd(t);
    assert |t| > 0 ==> t[0] == s[|s| - |t|];
    assert r == [] ==> IsBlank(s) by {
      if r == [] {
        assert t[|r|..] == t;
        assert s == s[..|s| - |t|] + t;
        BlankConcat(s[..|s| - |t|], t);
      }
    }
    r
  }

  /** `TrimEnd(c)`: drops every trailing occurrence of `c`. */
  function TrimEndChar(s: string, c: char): (r: string)
    ensures |r| <= |s| && r == s[..|r|]
    ensures forall i :: |r| <= i < |s| ==> s[i] == c
    ensures |r| == 0 || r[|r| - 1] != c
    decreases |s|
  {
    if |s| > 0 && s[|s| - 1] == c then TrimEndChar(s[..|s| - 1], c) else s
  }

  /** Trimming adds no character. */
  lemma TrimAbsent(s: string, c: char)
    requires c !in s
    ensures c !in Trim(s)
  {
    var t := TrimStart(s);
    var r := TrimEnd(t);
    forall i | 0 <= i < |t| ensures t[i] != c {
      assert t[i] == s[|s| - |t| + i];
    }
    forall i | 0 <= i < |r| ensures r[i] != c {
      assert r[i] == t[i];
    }
  }

  lemma BlankConcat(a: string, b: string)
    requires IsBlank(a) && IsBlank(b)
    ensures IsBlank(a + b)
  {
    forall i | 0 <= i < |a + b| ensures IsWhiteSpace((a + b)[i]) {
      if i < |a| { assert (a + b)[i] == a[i]; } else { assert (a + b)[i] == b[i - |a|]; }
    }
  }

  lemma TrimStartBlankPrefix(a: string, s: string)
    requires IsBlank(a)
    ensures TrimStart(a + s) == TrimStart(s)
    decreases |a|
  {
    if |a| > 0 {
      assert (a + s)[1..] == a[1..] + s;
      TrimStartBlankPrefix(a[1..], s);
    } else {
      assert a + s == s;
    }
  }

  lemma TrimEndBlankSuffix(s: string, b: string)
    requires IsBlank(b)
    ensures TrimEnd(s + b) == TrimEnd(s)
    decreases |b|
  {
    if |b| > 0 {
      assert (s + b)[..|s + b| - 1] == s + b[..|b| - 1];
      TrimEndBlankSuffix(s, b[..|b| - 1]);
    } else {
      assert s + b == s;
    }
  }

  lemma BlankTail(s: string)
    requires |s| > 0 && IsWhiteSpace(s[0])
    ensures IsBlank(s) <==> IsBlank(s[1..])
  {
    if IsBlank(s[1..]) {
      forall i | 0 <= i < |s| ensures IsWhiteSpace(s[i]) {
        if i > 0 {
          assert s[i] == s[1..][i - 1];
        }
      }
    }
  }

  lemma {:induction false} TrimStartAppend(s: string, b: string)
    ensures TrimStart(s + b) == if IsBlank(s) then TrimStart(b) else TrimStart(s) + b
    decreases |s|
  {
    if |s| == 0 {
      assert s + b == b;
    } else if IsWhiteSpace(s[0]) {
      assert (s + b)[1..] == s[1..] + b;
      TrimStartAppend(s[1..], b);
      BlankTail(s);
    } else {
      assert (s + b)[0] == s[0];
    }
  }

  /** White space added around a value does not survive `Trim`. */
  lemma {:induction false} TrimPadded(a: string, s: string, b: string)
    requires IsBlank(a) && IsBlank(b)
    ensures Trim(a + s + b) == Trim(s)
  {
    assert a + s + b == a + (s + b);
    TrimStartBlankPrefix(a, s + b);
    TrimStartAppend(s, b);
    if IsBlank(s) {
      TrimStartBlankPrefix(b, "");
      assert b + "" == b;
      assert Trim(s) == [];
    } else {
      TrimEndBlankSuffix(TrimStart(s), b);
    }
  }

  lemma {:induction false} TrimOfTrimmed(s: string)
    requires IsTrimmed(s)
    ensures Trim(s) == s
  {
  }

  /** Number of occurrences of `c` in `s`. */
  function Count(s: string, c: char): nat {
    if |s| == 0 then 0 else (if s[0] == c then 1 else 0) + Count(s[1..], c)
  }

  lemma {:induction false} CountConcat(a: string, b: string, c: char)
    ensures Count(a + b, c) == Count(a, c) + Count(b, c)
    decreases |a|
  {
    if |a| == 0 {
      assert a + b == b;
    } else {
      assert (a + b)[1..] == a[1..] + b;
      CountConcat(a[1..], b, c);
    }
  }

  lemma {:induction false} CountAbsent(s: string, c: char)
    ensures Count(s, c) == 0 <==> c !in s
    decreases |s|
  {
    if |s| > 0 {
      CountAbsent(s[1..], c);
      assert c in s <==> s[0] == c || c in s[1..];
    }
  }

  /** `s.Split(sep)`: the maximal separator-free pieces, one more than there are separators. */
  function Split(s: string, sep: char): (r: seq<string>)
    ensures |r| == Count(s, sep) + 1
    ensures forall i :: 0 <= i < |r| ==> sep !in r[i]
  {
    if |s| == 0 then
      [""]
    else
      var rest := Split(s[1..], sep);
      if s[0] == sep then
        [""] + rest
      else
        assert forall i :: 1 <= i < |rest| ==> ([[s[0]] + rest[0]] + rest[1..])[i] == rest[i];
        [[s[0]] + rest[0]] + rest[1..]
  }

  /** `string.Join(sep, parts)`. */
  function Join(parts: seq<string>, sep: string): string {
    if |parts| == 0 then ""
    else if |parts| == 1 then parts[0]
    else parts[0] + sep + Join(parts[1..], sep)
  }

  lemma {:induction false} JoinAppend(parts: seq<string>, last: string, sep: string)
    requires |parts| >= 1
    ensures Join(parts + [last], sep) == Join(parts, sep) + sep + last
    decreases |parts|
  {
    if |parts| == 1 {
      assert parts + [last] == [parts[0], last];
    } else {
      assert (parts + [last])[1..] == parts[1..] + [last];
      JoinAppend(parts[1..], last, sep);
    }
  }

  /** A separator-free prefix glues onto the first piece. */
  lemma {:induction false} SplitPrepend(a: string, s: string, sep: char)
    requires sep !in a
    ensures Split(a + s, sep) == [a + Split(s, sep)[0]] + Split(s, sep)[1..]
    decreases |a|
  {
    if |a| == 0 {
      assert a + s == s;
      assert a + Split(s, sep)[0] == Split(s, sep)[0];
      assert [Split(s, sep)[0]] + Split(s, sep)[1..] == Split(s, sep);
    } else {
      assert (a + s)[1..] == a[1..] + s;
      SplitPrepend(a[1..], s, sep);
      assert [a[0]] + (a[1..] + Split(s, sep)[0]) == a + Split(s, sep)[0];
    }
  }

  lemma {:induction false} SplitConcat(a: string, b: string, sep: char)
    requires sep !in a
    ensures Split(a + [sep] + b, sep) == [a] + Split(b, sep)
  {
    assert a + [sep] + b == a + ([sep] + b);
    SplitPrepend(a, [sep] + b, sep);
    assert ([sep] + b)[1..] == b;
    assert a + "" == a;
  }

  lemma {:induction false} SplitNoSeparator(a: string, sep: char)
    requires sep !in a
    ensures Split(a, sep) == [a]
  {
    SplitPrepend(a, "", sep);
    assert a + "" == a;
  }

  /** Splitting undoes joining with the same separator. */
  lemma {:induction false} SplitJoin(parts: seq<string>, sep: char)
    requires |parts| >= 1
    requires forall i :: 0 <= i < |parts| ==> sep !in parts[i]
    ensures Split(Join(parts, [sep]), sep) == parts
    decreases |parts|
  {
    if |parts| == 1 {
      SplitNoSeparator(parts[0], sep);
    } else {
      SplitJoin(parts[1..], sep);
      SplitConcat(parts[0], Join(parts[1..], [sep]), sep);
      assert [parts[0]] + parts[1..] == parts;
    }
  }

  /** Joining undoes splitting. */
  lemma {:induction false} JoinSplit(s: string, sep: char)
    ensures Join(Split(s, sep), [sep]) == s
    decreases |s|
  {
    if |s| > 0 {
      var rest := Split(s[1..], sep);
      JoinSplit(s[1..], sep);
      if s[0] == sep {
        assert Split(s, sep) == [""] + rest;
        assert ([""] + rest)[1..] == rest;
        assert s == [sep] + s[1..];
      } else {
        var r := [[s[0]] + rest[0]] + rest[1..];
        assert Split(s, sep) == r;
        if |rest| == 1 {
          assert s == [s[0]] + s[1..];
        } else {
          assert r[1..] == rest[1..];
          assert Join(rest, [sep]) == rest[0] + [sep] + Join(rest[1..], [sep]);
          assert s == [s[0]] + s[1..];
        }
      }
    }
  }

  // ---- numbers -------------------------------------------------------------

  predicate IsDigit(c: char) {
    '0' <= c <= '9'
  }

  predicate IsDigits(s: string) {
    forall i :: 0 <= i < |s| ==> IsDigit(s[i])
  }

  function DigitValue(c: char): (d: nat)
    requires IsDigit(c)
    ensures d < 10
  {
    (c as int) - ('0' as int)
  }

  function DigitChar(d: nat): (c: char)
    requires d < 10
    ensures IsDigit(c) && DigitValue(c) == d
  {
    (('0' as int) + d) as char
  }

  /** Value of a string of decimal digits, most significant first. */
  function DigitsValue(s: string): nat
    requires IsDigits(s)
  {
    if |s| == 0 then 0 else 10 * DigitsValue(s[..|s| - 1]) + DigitValue(s[|s| - 1])
  }

  /** Decimal rendering of a natural number: digits only, no leading zero. */
  function NatToString(n: nat): (s: string)
    ensures |s| >= 1 && IsDigits(s)
    ensures s[0] == '0' ==> n == 0
    decreases n
  {
    if n < 10 then [DigitChar(n)] else NatToString(n / 10) + [DigitChar(n % 10)]
  }

  lemma {:induction false} NatToStringValue(n: nat)
    ensures DigitsValue(NatToString(n)) == n
    decreases n
  {
    if n >= 10 {
      NatToStringValue(n / 10);
      var s := NatToString(n);
      assert s[..|s| - 1] == NatToString(n / 10);
    }
  }

  /** Rendering of an `int` in an interpolated string: a '-' only for negatives. */
  function IntToString(i: int): (s: string)
    ensures |s| >= 1
    ensures '-' in s <==> i < 0
    ensures i >= 0 ==> s == NatToString(i)
    ensures IsDigit(s[|s| - 1])
    ensures forall k :: 0 <= k < |s| ==> IsDigit(s[k]) || s[k] == '-'
  {
    if i < 0 then "-" + NatToString(-i) else NatToString(i)
  }

  /** A rendered number has no white space at its ends. */
  lemma {:induction false} NatToStringTrimmed(n: nat)
    ensures IsTrimmed(NatToString(n)) && Trim(NatToString(n)) == NatToString(n)
  {
    var s := NatToString(n);
    assert IsDigit(s[0]) && IsDigit(s[|s| - 1]);
    TrimOfTrimmed(s);
  }

  /** `int.Parse` on a trimmed field that holds no '-': an optional '+' and one or
      more ASCII digits, else the FormatException case (None). */
  function ParseInt(s: string): (r: Option<nat>)
    ensures r.Some? <==> |s| > 0 && (IsDigits(s) || (s[0] == '+' && |s| > 1 && IsDigits(s[1..])))
  {
    if |s| > 0 && s[0] == '+' then
      ParseDigits(s[1..])
    else
      ParseDigits(s)
  }

  function ParseDigits(s: string): (r: Option<nat>)
    ensures r.Some? <==> |s| > 0 && IsDigits(s)
  {
    if |s| > 0 && IsDigits(s) then Some(DigitsValue(s)) else None
  }

  /** Parsing a rendered natural number gives it back. */
  lemma {:induction false} ParseIntOfNatToString(n: nat)
    ensures ParseInt(NatToString(n)) == Some(n)
  {
    NatToStringValue(n);
  }
}
