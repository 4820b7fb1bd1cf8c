/** The string operations the backend leans on, with JavaScript's meaning:
    `toLowerCase`, `includes`, `split(' ')`, `trim`, number-to-string and
    `parseInt`, and `replace` of a single character. */
module Text {
  import opened Wrappers

  // ---------------------------------------------------------------------------
  // Case mapping (ASCII only; Unicode case folding is not modelled)
  // ---------------------------------------------------------------------------

  function LowerChar(c: char): char {
    if 'A' <= c <= 'Z' then (c as int + 32) as char else c
  }

  function UpperChar(c: char): char {
    if 'a' <= c <= 'z' then (c as int - 32) as char else c
  }

  /** `s.toLowerCase()` */
  function ToLower(s: string): (r: string)
    ensures |r| == |s|
    ensures forall i :: 0 <= i < |s| ==> r[i] == LowerChar(s[i])
  {
    seq(|s|, i requires 0 <= i < |s| => LowerChar(s[i]))
  }

  /** `s.toUpperCase()` */
  function ToUpper(s: string): (r: string)
    ensures |r| == |s|
    ensures forall i :: 0 <= i < |s| ==> r[i] == UpperChar(s[i])
  {
    seq(|s|, i requires 0 <= i < |s| => UpperChar(s[i]))
  }

  lemma ToLowerConcat(a: string, b: string)
    ensures ToLower(a + b) == ToLower(a) + ToLower(b)
  {
    assert forall i :: 0 <= i < |a + b| ==> ToLower(a + b)[i] == (ToLower(a) + ToLower(b))[i];
  }

  /** Lower-casing twice is lower-casing once. */
  lemma ToLowerIdempotent(s: string)
    ensures ToLower(ToLower(s)) == ToLower(s)
  {
  }

  // ---------------------------------------------------------------------------
  // Substring search: `text.includes(pat)`
  // ---------------------------------------------------------------------------

  predicate IsPrefix(p: string, s: string) {
    |p| <= |s| && s[..|p|] == p
  }

  predicate Contains(text: string, pat: string) {
    exists i | 0 <= i <= |text| :: IsPrefix(pat, text[i..])
  }

  lemma ContainsLeft(a: string, b: string, p: string)
    requires Contains(a, p)
    ensures Contains(a + b, p)
  {
    var i :| 0 <= i <= |a| && IsPrefix(p, a[i..]);
    assert (a + b)[i..][..|p|] == a[i..][..|p|];
    assert IsPrefix(p, (a + b)[i..]);
  }

  lemma ContainsRight(a: string, b: string, p: string)
    requires Contains(b, p)
    ensures Contains(a + b, p)
  {
    var i :| 0 <= i <= |b| && IsPrefix(p, b[i..]);
    assert (a + b)[|a| + i..] == b[i..];
    assert IsPrefix(p, (a + b)[|a| + i..]);
  }

  lemma ContainsSelf(s: string)
    ensures Contains(s, s)
  {
    assert IsPrefix(s, s[0..]);
  }

  /** A pattern found in one of three fields is found in the three joined by spaces. */
  lemma ContainsInJoinedFields(a: string, b: string, c: string, p: string)
    requires Contains(ToLower(a), p) || Contains(ToLower(b), p) || Contains(ToLower(c), p)
    ensures Contains(ToLower(a + " " + b + " " + c), p)
  {
    ToLowerConcat(a + " " + b + " ", c);
    ToLowerConcat(a + " " + b, " ");
    ToLowerConcat(a + " ", b);
    ToLowerConcat(a, " ");
    var la, lb, lc, sp := ToLower(a), ToLower(b), ToLower(c), ToLower(" ");
    assert ToLower(a + " " + b + " " + c) == la + sp + lb + sp + lc;
    if Contains(la, p) {
      ContainsLeft(la, sp + lb + sp + lc, p);
      assert la + (sp + lb + sp + lc) == la + sp + lb + sp + lc;
    } else if Contains(lb, p) {
      ContainsLeft(lb, sp + lc, p);
      ContainsRight(la + sp, lb + (sp + lc), p);
      assert (la + sp) + (lb + (sp + lc)) == la + sp + lb + sp + lc;
    } else {
      ContainsRight(la + sp + lb + sp, lc, p);
    }
  }

  // ---------------------------------------------------------------------------
  // `s.split(' ')`
  // ---------------------------------------------------------------------------

  /** The pieces of `s` between single spaces; empty pieces are kept, so the
      result always has one more piece than `s` has spaces. */
  function Split(s: string): (r: seq<string>)
    ensures |r| >= 1
    ensures forall w :: w in r ==> ' ' !in w
    decreases |s|
  {
    if |s| == 0 then [""]
    else
      var rest := Split(s[1..]);
      if s[0] == ' ' then [""] + rest
      else [[s[0]] + rest[0]] + rest[1..]
  }

  /** A piece without spaces splits into itself. */
  lemma {:induction false} SplitSingleWord(w: string)
    requires ' ' !in w
    ensures Split(w) == [w]
    decreases |w|
  {
    if |w| > 0 {
      assert ' ' !in w[1..] by {
        assert forall k :: 0 <= k < |w| - 1 ==> w[1..][k] == w[k + 1];
      }
      SplitSingleWord(w[1..]);
      assert [w[0]] + w[1..] == w;
    }
  }

  /** `ws.join(' ')` */
  function JoinWithSpaces(ws: seq<string>): string {
    if |ws| == 0 then ""
    else if |ws| == 1 then ws[0]
    else ws[0] + " " + JoinWithSpaces(ws[1..])
  }

  /** Splitting loses nothing: joining the pieces back gives the original. */
  lemma {:induction false} SplitJoin(s: string)
    ensures JoinWithSpaces(Split(s)) == s
    decreases |s|
  {
    if |s| > 0 {
      var rest := Split(s[1..]);
      SplitJoin(s[1..]);
      if s[0] == ' ' {
        assert ([""] + rest)[1..] == rest;
        assert s == " " + s[1..];
      } else {
        var r := [[s[0]] + rest[0]] + rest[1..];
        if |rest| == 1 {
          assert JoinWithSpaces(r) == [s[0]] + rest[0];
        } else {
          assert r[1..] == rest[1..];
          assert JoinWithSpaces(rest) == rest[0] + " " + JoinWithSpaces(rest[1..]);
        }
        assert s == [s[0]] + s[1..];
      }
    }
  }

  // ---------------------------------------------------------------------------
  // `s.trim()`: ECMAScript WhiteSpace and LineTerminator characters
  // ---------------------------------------------------------------------------

  predicate IsJsWhitespace(c: char) {
    || c == ' ' || c == '\t' || c == '\n' || c == '\r' || c == '\U{000B}' || c == '\U{000C}'
    || c == '\U{00A0}' || c == '\U{1680}' || ('\U{2000}' <= c <= '\U{200A}')
    || c == '\U{2028}' || c == '\U{2029}' || c == '\U{202F}' || c == '\U{205F}'
    || c == '\U{3000}' || c == '\U{FEFF}'
  }

  /** True when `s` neither starts nor ends with whitespace. */
  predicate IsTrimmed(s: string) {
    |s| == 0 || (!IsJsWhitespace(s[0]) && !IsJsWhitespace(s[|s| - 1]))
  }

  /** Number of whitespace characters at the start of `s`. */
  function LeadingSpace(s: string): (k: nat)
    ensures k <= |s|
    ensures forall i :: 0 <= i < k ==> IsJsWhitespace(s[i])
    ensures k < |s| ==> !IsJsWhitespace(s[k])
  {
    if |s| == 0 || !IsJsWhitespace(s[0]) then 0 else 1 + LeadingSpace(s[1..])
  }

  /** Length of `s` once its trailing whitespace is dropped. */
  function TrailingEnd(s: string): (k: nat)
    ensures k <= |s|
    ensures forall i :: k <= i < |s| ==> IsJsWhitespace(s[i])
    ensures k > 0 ==> !IsJsWhitespace(s[k - 1])
  {
    if |s| == 0 || !IsJsWhitespace(s[|s| - 1]) then |s| else TrailingEnd(s[..|s| - 1])
  }

  function Trim(s: string): (r: string)
    ensures IsTrimmed(r)
    ensures LeadingSpace(s) + |r| <= |s|
    ensures r == s[LeadingSpace(s)..LeadingSpace(s) + |r|]
    ensures forall i :: 0 <= i < LeadingSpace(s) ==> IsJsWhitespace(s[i])
    ensures forall i :: LeadingSpace(s) + |r| <= i < |s| ==> IsJsWhitespace(s[i])
  {
    var lo := LeadingSpace(s);
    var t := s[lo..];
    var hi := TrailingEnd(t);
    assert hi > 0 ==> t[0] == s[lo];
    t[..hi]
  }

  /** Trimming a string that is already trimmed changes nothing. */
  lemma TrimOfTrimmed(s: string)
    requires IsTrimmed(s)
    ensures Trim(s) == s
  {
    if |s| > 0 {
      assert LeadingSpace(s) == 0;
      assert TrailingEnd(s) == |s|;
    }
  }

  /** Trimming only whitespace gives the empty string. */
  lemma TrimOfWhitespace(s: string)
    requires forall i :: 0 <= i < |s| ==> IsJsWhitespace(s[i])
    ensures Trim(s) == ""
  {
    LeadingSpaceOfWhitespace(s);
  }

  lemma {:induction false} LeadingSpaceOfWhitespace(s: string)
    requires forall i :: 0 <= i < |s| ==> IsJsWhitespace(s[i])
    ensures LeadingSpace(s) == |s|
  {
    if |s| > 0 {
      LeadingSpaceOfWhitespace(s[1..]);
    }
  }

  // ---------------------------------------------------------------------------
  // Decimal numbers: `String(n)`, `parseInt(s)`, and the "85%" convention
  // ---------------------------------------------------------------------------

  predicate IsDigit(c: char) {
    '0' <= c <= '9'
  }

  function DigitChar(d: nat): (c: char)
    requires d < 10
    ensures IsDigit(c)
  {
    ('0' as int + d) as char
  }

  function DigitValue(c: char): (d: nat)
    requires IsDigit(c)
    ensures d < 10
  {
    c as int - '0' as int
  }

  /** The decimal digits of `n`, most significant first, without leading zeros. */
  function NatToString(n: nat): (r: string)
    ensures |r| >= 1
    ensures forall i :: 0 <= i < |r| ==> IsDigit(r[i])
    decreases n
  {
    if n < 10 then [DigitChar(n)] else NatToString(n / 10) + [DigitChar(n % 10)]
  }

  function DigitsValue(s: string): nat
    requires forall i :: 0 <= i < |s| ==> IsDigit(s[i])
  {
    if |s| == 0 then 0 else DigitsValue(s[..|s| - 1]) * 10 + DigitValue(s[|s| - 1])
  }

  /** Length of the run of digits that starts `s`. */
  function DigitRun(s: string): (k: nat)
    ensures k <= |s|
    ensures forall i :: 0 <= i < k ==> IsDigit(s[i])
    ensures k < |s| ==> !IsDigit(s[k])
  {
    if |s| == 0 || !IsDigit(s[0]) then 0 else 1 + DigitRun(s[1..])
  }

  /** `parseInt(s)` for strings without leading whitespace or sign: the value
      of the leading digits, or None (JavaScript's NaN) when there are none. */
  function ParseIntPrefix(s: string): (r: Option<nat>)
    ensures r.None? <==> (|s| == 0 || !IsDigit(s[0]))
  {
    var k := DigitRun(s);
    if k == 0 then None else Some(DigitsValue(s[..k]))
  }

  lemma {:induction false} DigitsValueOfNatToString(n: nat)
    ensures DigitsValue(NatToString(n)) == n
    decreases n
  {
    if n >= 10 {
      var s := NatToString(n);
      DigitsValueOfNatToString(n / 10);
      assert s[..|s| - 1] == NatToString(n / 10);
    }
  }

  lemma DigitRunOfDigits(s: string)
    requires forall i :: 0 <= i < |s| ==> IsDigit(s[i])
    ensures DigitRun(s) == |s|
  {
  }

  /** Printing a number and parsing it back gives the number. */
  lemma ParseNatToString(n: nat)
    ensures ParseIntPrefix(NatToString(n)) == Some(n)
  {
    var s := NatToString(n);
    DigitRunOfDigits(s);
    assert s[..|s|] == s;
    DigitsValueOfNatToString(n);
  }

  /** `s.replace(c, '')` with a one-character pattern: drops the first `c`. */
  function RemoveFirst(s: string, c: char): (r: string)
    ensures c !in s ==> r == s
    ensures c in s ==> |r| == |s| - 1
  {
    if |s| == 0 then s
    else if s[0] == c then s[1..]
    else [s[0]] + RemoveFirst(s[1..], c)
  }

  lemma {:induction false} RemoveFirstOfSuffix(a: string, c: char)
    requires c !in a
    ensures RemoveFirst(a + [c], c) == a
  {
    if |a| > 0 {
      assert (a + [c])[1..] == a[1..] + [c];
      RemoveFirstOfSuffix(a[1..], c);
    }
  }

  /** The percentage convention of the API: `n + '%'`. */
  function PercentString(n: nat): string {
    NatToString(n) + "%"
  }

  /** `parseInt(p.replace('%', ''))` recovers the number a percentage string was made from. */
  lemma PercentRoundTrip(n: nat)
    ensures ParseIntPrefix(RemoveFirst(PercentString(n), '%')) == Some(n)
  {
    var s := NatToString(n);
    assert !IsDigit('%');
    assert forall i :: 0 <= i < |s| ==> s[i] != '%';
    RemoveFirstOfSuffix(s, '%');
    ParseNatToString(n);
  }

  /** A quantity held in tenths, printed as JavaScript prints the number
      `t / 10`: "85", "54.5". */
  function TenthsToString(t: nat): string {
    if t % 10 == 0 then NatToString(t / 10)
    else NatToString(t / 10) + "." + [DigitChar(t % 10)]
  }

  /** `a` is `b` with some entries dropped, the rest kept in their order. */
  ghost predicate IsSubsequence<T>(a: seq<T>, b: seq<T>)
    decreases |b|
  {
    if |a| == 0 then true
    else if |b| == 0 then false
    else (a[0] == b[0] && IsSubsequence(a[1..], b[1..])) || IsSubsequence(a, b[1..])
  }
}
