/** The Kotlin string primitives the screens and the store rely on: blank tests,
    the digit filter, Int <-> String conversion with 32-bit bounds, prefix and
    substring tests, and the binary (code-point) ordering of names. */
module Text {
  import opened Wrappers

  const MinInt32: int := -0x8000_0000
  const MaxInt32: int := 0x7fff_ffff

  /** Kotlin `Int`: a 32-bit signed integer. */
  type Int32 = x: int | MinInt32 <= x <= MaxInt32

  // ---------------------------------------------------------------- blanks

  /** Kotlin's `Char.isWhitespace()` on the JVM: Java's `Character.isWhitespace`
      (tab, line feed, vertical tab, form feed, carriage return, the four
      information separators and the space separators other than the no-break
      ones) or `Character.isSpaceChar` (every space, line and paragraph
      separator, the no-break ones included). */
  predicate IsWhitespace(c: char) {
    || c == ' ' || c == '\t' || c == '\n' || c == '\U{000B}' || c == '\U{000C}' || c == '\r'
    || ('\U{001C}' <= c <= '\U{001F}')
    || c == '\U{00A0}' || c == '\U{1680}'
    || ('\U{2000}' <= c <= '\U{200A}')
    || c == '\U{2028}' || c == '\U{2029}' || c == '\U{202F}' || c == '\U{205F}' || c == '\U{3000}'
  }

  /** Kotlin's `isBlank()`: empty or whitespace only. */
  predicate IsBlank(s: string) {
    forall i :: 0 <= i < |s| ==> IsWhitespace(s[i])
  }

  /** Kotlin's `ifBlank { null }` on an optional text field. */
  function BlankToNull(s: string): (r: Option<string>)
    ensures r.None? <==> IsBlank(s)
    ensures r.Some? ==> r.value == s
  {
    if IsBlank(s) then None else Some(s)
  }

  // ---------------------------------------------------------------- digits

  predicate IsDigit(c: char) {
    '0' <= c <= '9'
  }

  predicate AllDigits(s: string) {
    forall i :: 0 <= i < |s| ==> IsDigit(s[i])
  }

  /** `s.filter { it.isDigit() }`. */
  function FilterDigits(s: string): (r: string)
    ensures |r| <= |s|
    ensures AllDigits(r)
  {
    if s == [] then []
    else if IsDigit(s[0]) then [s[0]] + FilterDigits(s[1..])
    else FilterDigits(s[1..])
  }

  /** Every digit of the input survives the filter, as many times as it occurs. */
  lemma {:induction false} FilterDigitsKeepsDigits(s: string, c: char)
    ensures multiset(FilterDigits(s))[c] == if IsDigit(c) then multiset(s)[c] else 0
  {
    if s != [] {
      FilterDigitsKeepsDigits(s[1..], c);
      assert s == [s[0]] + s[1..];
    }
  }

  /** The filter keeps the digits in the order typed: filtering a
      concatenation concatenates the filtered parts. */
  lemma {:induction false} FilterDigitsAppend(a: string, b: string)
    ensures FilterDigits(a + b) == FilterDigits(a) + FilterDigits(b)
  {
    if a != [] {
      FilterDigitsAppend(a[1..], b);
      assert (a + b)[1..] == a[1..] + b;
      assert (a + b)[0] == a[0];
    } else {
      assert a + b == b;
    }
  }

  /** A string made only of digits passes the filter unchanged. */
  lemma {:induction false} FilterDigitsOfDigits(s: string)
    requires AllDigits(s)
    ensures FilterDigits(s) == s
  {
    if s != [] {
      assert AllDigits(s[1..]);
      FilterDigitsOfDigits(s[1..]);
    }
  }

  /** The quantity field's filter is idempotent: filtering again changes nothing. */
  lemma FilterDigitsIdempotent(s: string)
    ensures FilterDigits(FilterDigits(s)) == FilterDigits(s)
  {
    FilterDigitsOfDigits(FilterDigits(s));
  }

  function DigitValue(c: char): (d: nat)
    requires IsDigit(c)
    ensures d < 10
  {
    (c as int) - ('0' as int)
  }

  function DigitChar(d: nat): (c: char)
    requires d < 10
    ensures IsDigit(c) && DigitValue(c) == d
  {
    (('0' as int) + d) as char
  }

  /** The number a string of decimal digits denotes (most significant first). */
  function DigitsValue(s: string): nat
    requires AllDigits(s)
  {
    if s == [] then 0 else DigitsValue(s[..|s| - 1]) * 10 + DigitValue(s[|s| - 1])
  }

  // ---------------------------------------------------------- Int.toString

  /** Decimal digits of a natural number, without leading zeros. */
  function NatToString(n: nat): (s: string)
    ensures |s| > 0 && AllDigits(s)
    ensures n > 0 ==> s[0] != '0'
  {
    if n < 10 then [DigitChar(n)] else NatToString(n / 10) + [DigitChar(n % 10)]
  }

  /** Kotlin `Int.toString()` (also used for `Long` and for template
      interpolation): an optional minus sign, then the digits. */
  function IntToString(n: int): (s: string)
    ensures |s| > 0
    ensures n >= 0 <==> s[0] != '-'
  {
    if n < 0 then "-" + NatToString(-n) else NatToString(n)
  }

  lemma {:induction false} NatToStringValue(n: nat)
    ensures DigitsValue(NatToString(n)) == n
  {
    if n >= 10 {
      NatToStringValue(n / 10);
      var s := NatToString(n);
      assert s[..|s| - 1] == NatToString(n / 10);
    }
  }

  // ------------------------------------------------------- String.toIntOrNull

  /** The magnitude part of Kotlin's `toIntOrNull()`: only digits, and the value
      must fit a 32-bit Int once the sign is applied. */
  function ParseMagnitude(ds: string, negative: bool): (r: Option<int>)
  {
    if !AllDigits(ds) then None
    else if negative then (if DigitsValue(ds) <= 0x8000_0000 then Some(-(DigitsValue(ds) as int)) else None)
    else if DigitsValue(ds) <= MaxInt32 then Some(DigitsValue(ds)) else None
  }

  /** Kotlin's `String.toIntOrNull()` in radix 10: an optional '+' or '-',
      then at least one digit; null for the empty string, a lone sign, any other
      character, or a value outside the 32-bit range. */
  function ToIntOrNull(s: string): (r: Option<int>)
    ensures r.Some? ==> MinInt32 <= r.value <= MaxInt32
    ensures r.Some? ==> |s| > 0 && AllDigits(if s[0] == '-' || s[0] == '+' then s[1..] else s)
    ensures s == [] ==> r.None?
  {
    if |s| == 0 then None
    else if s[0] == '-' || s[0] == '+' then
      (if |s| == 1 then None else ParseMagnitude(s[1..], s[0] == '-'))
    else ParseMagnitude(s, false)
  }

  /** Int.toString and toIntOrNull are inverse on every 32-bit Int. */
  lemma IntToStringRoundTrip(n: Int32)
    ensures ToIntOrNull(IntToString(n)) == Some(n)
  {
    if n < 0 {
      var m: nat := -(n as int);
      NatToStringValue(m);
      var s := IntToString(n);
      assert s[1..] == NatToString(m);
    } else {
      NatToStringValue(n);
    }
  }

  /** A non-empty digit-only field parses to its value when it fits, and that
      value is never negative. */
  lemma DigitsParse(s: string)
    requires AllDigits(s)
    ensures ToIntOrNull(s).Some? <==> |s| > 0 && DigitsValue(s) <= MaxInt32
    ensures ToIntOrNull(s).Some? ==> ToIntOrNull(s).value == DigitsValue(s) >= 0
  {
  }

  // ----------------------------------------------------- prefix and substring

  /** Kotlin's `startsWith(prefix)`. */
  predicate StartsWith(s: string, prefix: string) {
    |prefix| <= |s| && s[..|prefix|] == prefix
  }

  /** `q` occurs somewhere inside `s` (the empty query occurs everywhere). */
  predicate Contains(s: string, q: string) {
    exists i :: 0 <= i <= |s| - |q| && OccursAt(s, q, i)
  }

  /** `q` occurs in `s` starting at index `i`. */
  predicate OccursAt(s: string, q: string, i: int) {
    0 <= i <= |s| - |q| && s[i..i + |q|] == q
  }

  // ------------------------------------------------------------- LIKE

  /** SQLite folds case for ASCII letters only. */
  function AsciiLower(c: char): char {
    if 'A' <= c <= 'Z' then ((c as int) + 32) as char else c
  }

  /** SQLite's `s LIKE p` with no ESCAPE clause: `%` matches any run of
      characters (the empty one included), `_` exactly one character, and any
      other character itself up to ASCII case. */
  predicate Like(p: string, s: string)
    decreases |p| + |s|
  {
    if p == [] then s == []
    else if p[0] == '%' then Like(p[1..], s) || (s != [] && Like(p, s[1..]))
    else s != [] && (p[0] == '_' || AsciiLower(p[0]) == AsciiLower(s[0])) && Like(p[1..], s[1..])
  }

  /** A query with neither wildcard character. */
  predicate NoWildcards(q: string) {
    forall i :: 0 <= i < |q| ==> q[i] != '%' && q[i] != '_'
  }

  /** `s` starts with `q` up to ASCII case. */
  predicate FoldedPrefix(q: string, s: string) {
    |q| <= |s| && forall i :: 0 <= i < |q| ==> AsciiLower(q[i]) == AsciiLower(s[i])
  }

  /** `q` occurs in `s` up to ASCII case. */
  predicate FoldedContains(s: string, q: string) {
    exists i :: 0 <= i <= |s| && FoldedPrefix(q, s[i..])
  }

  /** A lone `%` matches everything. */
  lemma {:induction false} LikeAnything(s: string)
    ensures Like("%", s)
    decreases |s|
  {
    if s != [] {
      LikeAnything(s[1..]);
    } else {
      assert "%"[1..] == [];
    }
  }

  /** `q%` for a wildcard-free `q` matches exactly the texts starting with `q`. */
  lemma {:induction false} LikePrefix(q: string, s: string)
    requires NoWildcards(q)
    ensures Like(q + "%", s) <==> FoldedPrefix(q, s)
    decreases |q|
  {
    if q == [] {
      assert q + "%" == "%";
      LikeAnything(s);
    } else {
      var p := q + "%";
      assert p[0] == q[0] && p[1..] == q[1..] + "%";
      assert NoWildcards(q[1..]) by {
        forall i | 0 <= i < |q[1..]| ensures q[1..][i] != '%' && q[1..][i] != '_' {
          assert q[1..][i] == q[i + 1];
        }
      }
      assert q[0] != '%' && q[0] != '_' by { assert q[0] == q[..][0]; }
      if s != [] {
        LikePrefix(q[1..], s[1..]);
        if FoldedPrefix(q, s) {
          forall i | 0 <= i < |q[1..]| ensures AsciiLower(q[1..][i]) == AsciiLower(s[1..][i]) {
            assert q[1..][i] == q[i + 1] && s[1..][i] == s[i + 1];
          }
        }
        if AsciiLower(q[0]) == AsciiLower(s[0]) && FoldedPrefix(q[1..], s[1..]) {
          forall i | 0 <= i < |q| ensures AsciiLower(q[i]) == AsciiLower(s[i]) {
            if i > 0 {
              assert q[1..][i - 1] == q[i] && s[1..][i - 1] == s[i];
            }
          }
        }
      }
    }
  }

  /** A leading `%` tries every suffix. */
  lemma {:induction false} LikeLeadingAny(r: string, s: string)
    ensures Like("%" + r, s) <==> exists i :: 0 <= i <= |s| && Like(r, s[i..])
    decreases |s|
  {
    var p := "%" + r;
    assert p[0] == '%' && p[1..] == r;
    assert s[0..] == s;
    if s != [] {
      LikeLeadingAny(r, s[1..]);
      if exists i :: 0 <= i <= |s[1..]| && Like(r, s[1..][i..]) {
        var i :| 0 <= i <= |s[1..]| && Like(r, s[1..][i..]);
        assert s[1..][i..] == s[i + 1..];
      }
      if exists i :: 0 <= i <= |s| && Like(r, s[i..]) {
        var i :| 0 <= i <= |s| && Like(r, s[i..]);
        if i > 0 {
          assert s[1..][i - 1..] == s[i..];
        }
      }
    }
  }

  /** `name LIKE '%' || q || '%'` for a wildcard-free `q` is a substring test
      that ignores ASCII case. */
  lemma LikeContainsSpec(s: string, q: string)
    requires NoWildcards(q)
    ensures Like("%" + q + "%", s) <==> FoldedContains(s, q)
  {
    assert "%" + q + "%" == "%" + (q + "%");
    LikeLeadingAny(q + "%", s);
    forall i | 0 <= i <= |s| ensures Like(q + "%", s[i..]) <==> FoldedPrefix(q, s[i..]) {
      LikePrefix(q, s[i..]);
    }
  }

  /** The query's own `%` and `_` are wildcards and letters match across case:
      searching "a_c" finds "xABCy". */
  lemma LikeQueryWildcards()
    ensures Like("%" + "a_c" + "%", "xABCy")
  {
    var p := "%" + "a_c" + "%";
    assert p == "%a_c%";
    assert Like("%", "y") by { LikeAnything("y"); }
    assert Like("c%", "Cy") by { assert "c%"[1..] == "%"; assert "Cy"[1..] == "y"; }
    assert Like("_c%", "BCy") by { assert "_c%"[1..] == "c%"; assert "BCy"[1..] == "Cy"; }
    assert Like("a_c%", "ABCy") by { assert "a_c%"[1..] == "_c%"; assert "ABCy"[1..] == "BCy"; }
    assert Like(p, "ABCy") by { assert p[1..] == "a_c%"; }
    assert Like(p, "xABCy") by { assert "xABCy"[1..] == "ABCy"; }
  }

  // ------------------------------------------------------------ name order

  /** SQLite's default BINARY collation: lexicographic by code point (which
      is UTF-8 byte order), with a proper prefix ordered first. */
  predicate LexLe(a: string, b: string) {
    if a == [] then true
    else if b == [] then false
    else if a[0] != b[0] then a[0] < b[0]
    else LexLe(a[1..], b[1..])
  }

  lemma {:induction false} LexLeTotal(a: string, b: string)
    ensures LexLe(a, b) || LexLe(b, a)
  {
    if a != [] && b != [] && a[0] == b[0] {
      LexLeTotal(a[1..], b[1..]);
    }
  }

  lemma {:induction false} LexLeTransitive(a: string, b: string, c: string)
    requires LexLe(a, b) && LexLe(b, c)
    ensures LexLe(a, c)
  {
    if a != [] && b != [] && c != [] && a[0] == b[0] && b[0] == c[0] {
      LexLeTransitive(a[1..], b[1..], c[1..]);
    }
  }

  lemma {:induction false} LexLeAntisymmetric(a: string, b: string)
    requires LexLe(a, b) && LexLe(b, a)
    ensures a == b
  {
    if a != [] && b != [] {
      LexLeAntisymmetric(a[1..], b[1..]);
      assert a == [a[0]] + a[1..] && b == [b[0]] + b[1..];
    }
  }
}
