/** The string operations of the Go standard library that the modelled code relies on,
    over sequences of Unicode scalar values. */
module Text {
  datatype Option<+T> = None | Some(value: T)

  /** unicode.IsSpace. */
  predicate IsSpace(c: char) {
    var n := c as int;
    || 9 <= n <= 13 || n == 0x20 || n == 0x85 || n == 0xA0 || n == 0x1680
    || 0x2000 <= n <= 0x200A || n == 0x2028 || n == 0x2029 || n == 0x202F || n == 0x205F || n == 0x3000
  }

  predicate IsSlash(c: char) { c == '/' }

  function TrimLeftBy(s: string, p: char -> bool): string {
    if s != "" && p(s[0]) then TrimLeftBy(s[1..], p) else s
  }

  function TrimRightBy(s: string, p: char -> bool): string {
    if s != "" && p(s[|s| - 1]) then TrimRightBy(s[..|s| - 1], p) else s
  }

  /** strings.TrimSpace. */
  function TrimSpace(s: string): string {
    TrimRightBy(TrimLeftBy(s, IsSpace), IsSpace)
  }

  predicate HasPrefix(s: string, prefix: string) { prefix <= s }

  predicate HasSuffix(s: string, suffix: string) {
    |suffix| <= |s| && s[|s| - |suffix|..] == suffix
  }

  function TrimSuffix(s: string, suffix: string): string {
    if HasSuffix(s, suffix) then s[..|s| - |suffix|] else s
  }

  predicate Contains(s: string, sub: string) {
    sub <= s || (s != "" && Contains(s[1..], sub))
  }

  /** strings.LastIndex for a non-empty pattern: -1 when absent. */
  function LastIndex(s: string, sub: string): (i: int)
    requires sub != ""
    ensures -1 <= i && (i >= 0 ==> i + |sub| <= |s| && s[i..i + |sub|] == sub)
  {
    if |s| < |sub| then -1
    else
      var rest := LastIndex(s[1..], sub);
      if rest >= 0 then assert s[1..][rest..rest + |sub|] == s[rest + 1..rest + 1 + |sub|]; rest + 1
      else if sub <= s then 0 else -1
  }

  /** strings.Index for a non-empty pattern: -1 when absent. */
  function Index(s: string, sub: string): (i: int)
    requires sub != ""
    ensures -1 <= i && (i >= 0 ==> i + |sub| <= |s|)
  {
    if |s| < |sub| then -1
    else if sub <= s then 0
    else
      var rest := Index(s[1..], sub);
      if rest >= 0 then rest + 1 else -1
  }

  predicate OccursAt(s: string, sub: string, i: int) { 0 <= i && i + |sub| <= |s| && s[i..i + |sub|] == sub }

  /** Index is the first occurrence. */
  lemma {:induction false} IndexIsFirst(s: string, sub: string)
    requires sub != ""
    ensures var i := Index(s, sub);
            (i >= 0 ==> OccursAt(s, sub, i)) && forall j :: OccursAt(s, sub, j) ==> 0 <= i <= j
  {
    if |s| >= |sub| && !(sub <= s) {
      IndexIsFirst(s[1..], sub);
      var rest := Index(s[1..], sub);
      if rest >= 0 { assert s[1..][rest..rest + |sub|] == s[rest + 1..rest + 1 + |sub|]; }
      forall j | OccursAt(s, sub, j) ensures 0 <= Index(s, sub) <= j {
        assert j > 0;
        assert s[1..][j - 1..j - 1 + |sub|] == s[j..j + |sub|];
        assert OccursAt(s[1..], sub, j - 1);
      }
    }
  }

  /** LastIndex is the last occurrence. */
  lemma {:induction false} LastIndexIsLast(s: string, sub: string)
    requires sub != ""
    ensures forall j :: OccursAt(s, sub, j) ==> j <= LastIndex(s, sub)
  {
    if |s| >= |sub| {
      LastIndexIsLast(s[1..], sub);
      forall j | OccursAt(s, sub, j) ensures j <= LastIndex(s, sub) {
        if j > 0 {
          assert s[1..][j - 1..j - 1 + |sub|] == s[j..j + |sub|];
          assert OccursAt(s[1..], sub, j - 1);
        }
      }
    }
  }

  lemma FoundMeansContained(s: string, sub: string, k: nat)
    requires k < |sub| && LastIndex(s, sub) >= 0
    ensures sub[k] in s
  {
    var i := LastIndex(s, sub);
    assert s[i..i + |sub|][k] == s[i + k];
  }

  /** strings.ReplaceAll for a non-empty pattern: left to right, without overlap. */
  function ReplaceAll(s: string, old_: string, new_: string): string
    requires old_ != ""
  {
    if |s| < |old_| then s
    else if old_ <= s then new_ + ReplaceAll(s[|old_|..], old_, new_)
    else [s[0]] + ReplaceAll(s[1..], old_, new_)
  }

  /** strings.Split on a single character; always at least one part. */
  function Split(s: string, sep: char): (parts: seq<string>)
    ensures |parts| > 0
  {
    if s == "" then [""]
    else
      var rest := Split(s[1..], sep);
      if s[0] == sep then [""] + rest else [[s[0]] + rest[0]] + rest[1..]
  }

  /** Trimming leaves a string alone exactly when neither end is a trimmed character. */
  lemma TrimSpaceFixed(s: string)
    ensures TrimSpace(s) == s <==> (s == "" || (!IsSpace(s[0]) && !IsSpace(s[|s| - 1])))
  {
    TrimLeftShrinks(s, IsSpace);
    TrimRightShrinks(TrimLeftBy(s, IsSpace), IsSpace);
  }

  /** The part of a string from i to j is the string without the space around it. */
  predicate IsCore(s: string, i: int, j: int) {
    && 0 <= i <= j <= |s|
    && (forall k :: 0 <= k < |s| && !(i <= k < j) ==> IsSpace(s[k]))
    && (i < j ==> !IsSpace(s[i]) && !IsSpace(s[j - 1]))
  }

  /** What trimming takes off is what it may take off. */
  lemma {:induction false} TrimmedLeft(s: string, p: char -> bool)
    ensures |TrimLeftBy(s, p)| <= |s| && forall i :: 0 <= i < |s| - |TrimLeftBy(s, p)| ==> p(s[i])
  {
    if s != "" && p(s[0]) { TrimmedLeft(s[1..], p); }
  }

  lemma {:induction false} TrimmedRight(s: string, p: char -> bool)
    ensures |TrimRightBy(s, p)| <= |s| && forall i :: |TrimRightBy(s, p)| <= i < |s| ==> p(s[i])
  {
    if s != "" && p(s[|s| - 1]) { TrimmedRight(s[..|s| - 1], p); }
  }

  /** Trimming takes off the space at both ends and nothing else. */
  lemma TrimSpaceMeans(s: string, i: int, j: int)
    ensures exists a, b :: IsCore(s, a, b) && TrimSpace(s) == s[a..b]
    ensures IsCore(s, i, j) ==> TrimSpace(s) == s[i..j]
  {
    var left := TrimLeftBy(s, IsSpace);
    TrimLeftShrinks(s, IsSpace);
    TrimmedLeft(s, IsSpace);
    TrimRightShrinks(left, IsSpace);
    TrimmedRight(left, IsSpace);
    var a := |s| - |left|;
    var b := a + |TrimSpace(s)|;
    assert TrimSpace(s) == left[..|TrimSpace(s)|] == s[a..b];
    forall k | 0 <= k < |s| && !(a <= k < b) ensures IsSpace(s[k]) { if k >= b { assert left[k - a] == s[k]; } }
    assert IsCore(s, a, b);
    if IsCore(s, i, j) && i < j { assert !IsSpace(s[i]) && !IsSpace(s[j - 1]); }
  }

  /** The parts with the separator between each two of them. */
  function Join(parts: seq<string>, sep: char): string {
    if parts == [] then "" else if |parts| == 1 then parts[0] else parts[0] + [sep] + Join(parts[1..], sep)
  }

  /** Splitting finds the parts between the separators: they join to the whole and hold none. */
  lemma {:induction false} SplitMeans(s: string, sep: char)
    ensures Join(Split(s, sep), sep) == s && forall i :: 0 <= i < |Split(s, sep)| ==> sep !in Split(s, sep)[i]
  {
    if s != "" {
      var rest := Split(s[1..], sep);
      SplitMeans(s[1..], sep);
      assert s == [s[0]] + s[1..];
      if s[0] == sep {
        assert ([""] + rest)[1..] == rest;
        assert "" + [sep] + Join(rest, sep) == s;
      } else {
        var parts := [[s[0]] + rest[0]] + rest[1..];
        assert parts[1..] == rest[1..];
        if |parts| > 1 {
          assert [s[0]] + rest[0] + [sep] + Join(rest[1..], sep) == [s[0]] + (rest[0] + [sep] + Join(rest[1..], sep));
        }
      }
    }
  }

  lemma {:induction false} TrimLeftShrinks(s: string, p: char -> bool)
    ensures |TrimLeftBy(s, p)| <= |s|
    ensures s != "" && p(s[0]) ==> |TrimLeftBy(s, p)| < |s|
    ensures var t := TrimLeftBy(s, p); t == s[|s| - |t|..] && (t == "" || !p(t[0]))
  {
    if s != "" && p(s[0]) { TrimLeftShrinks(s[1..], p); }
  }

  lemma {:induction false} TrimRightShrinks(s: string, p: char -> bool)
    ensures |TrimRightBy(s, p)| <= |s|
    ensures s != "" && p(s[|s| - 1]) ==> |TrimRightBy(s, p)| < |s|
    ensures var t := TrimRightBy(s, p); t == s[..|t|] && (t == "" || !p(t[|t| - 1]))
  {
    if s != "" && p(s[|s| - 1]) { TrimRightShrinks(s[..|s| - 1], p); }
  }

  /** Replacing one character by another touches every occurrence and nothing else. */
  lemma {:induction false} ReplaceCharPointwise(s: string, a: char, b: char)
    ensures var t := ReplaceAll(s, [a], [b]);
            |t| == |s| && forall i :: 0 <= i < |s| ==> t[i] == if s[i] == a then b else s[i]
  {
    if s != "" {
      ReplaceCharPointwise(s[1..], a, b);
      assert s[|[a]|..] == s[1..];
    }
  }

  // ---------------------------------------------------------------- decimal numbers

  predicate IsDigit(c: char) { '0' <= c <= '9' }

  function DigitChar(d: int): (c: char)
    requires 0 <= d < 10
    ensures IsDigit(c) && DigitValue(c) == d
  {
    (d + '0' as int) as char
  }

  function DigitValue(c: char): (d: int)
    requires IsDigit(c)
    ensures 0 <= d < 10
  {
    c as int - '0' as int
  }

  /** strconv.Itoa / strconv.FormatInt(n, 10). */
  function Itoa(n: int): string {
    if n < 0 then "-" + FormatNat(-n) else FormatNat(n)
  }

  function FormatNat(n: nat): (s: string)
    ensures s != "" && IsDigit(s[0])
  {
    if n < 10 then [DigitChar(n)] else FormatNat(n / 10) + [DigitChar(n % 10)]
  }

  function ParseDigits(s: string): Option<nat> {
    if s == "" then Some(0)
    else if !IsDigit(s[|s| - 1]) then None
    else match ParseDigits(s[..|s| - 1])
      case None => None
      case Some(hi) => Some(10 * hi + DigitValue(s[|s| - 1]))
  }

  /** A signed decimal numeral of any size. */
  function ParseDecimal(s: string): Option<int> {
    if s == "" then None
    else
      var digits := if s[0] == '-' || s[0] == '+' then s[1..] else s;
      if digits == "" then None
      else match ParseDigits(digits)
        case None => None
        case Some(n) => var k: int := n; Some(if s[0] == '-' then -k else k)
  }

  const MIN_INT64 := -0x8000_0000_0000_0000
  const MAX_INT64 := 0x7fff_ffff_ffff_ffff

  /** strconv.ParseInt(s, 10, 64), with every error as None. */
  function ParseInt64(s: string): Option<int> {
    match ParseDecimal(s)
    case Some(n) => if MIN_INT64 <= n <= MAX_INT64 then Some(n) else None
    case None => None
  }

  lemma {:induction false} FormatNatRoundTrip(n: nat)
    ensures ParseDigits(FormatNat(n)) == Some(n)
  {
    var s := FormatNat(n);
    if n < 10 {
      assert s[..|s| - 1] == "";
    } else {
      FormatNatRoundTrip(n / 10);
      assert s[..|s| - 1] == FormatNat(n / 10);
    }
  }

  lemma ItoaRoundTrip(n: int)
    ensures ParseDecimal(Itoa(n)) == Some(n)
    ensures MIN_INT64 <= n <= MAX_INT64 ==> ParseInt64(Itoa(n)) == Some(n)
  {
    if n < 0 {
      FormatNatRoundTrip(-n);
      assert Itoa(n)[1..] == FormatNat(-n);
    } else {
      FormatNatRoundTrip(n);
    }
  }

  lemma ItoaInjective(m: int, n: int)
    requires Itoa(m) == Itoa(n)
    ensures m == n
  {
    ItoaRoundTrip(m);
    ItoaRoundTrip(n);
  }

  /** Concatenation can be undone from the left. */
  lemma SamePrefix(w: string, x: string, y: string)
    ensures w + x == w + y <==> x == y
    ensures w + x <= w + y <==> x <= y
  {
    assert (w + x)[|w|..] == x && (w + y)[|w|..] == y;
    if w + x <= w + y { assert (w + y)[..|w + x|][|w|..] == y[..|x|]; }
  }
}
