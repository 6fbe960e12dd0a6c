/**
 * The JavaScript string built-ins that answer grading relies on: the white-space
 * class shared by `\s`, `String.prototype.trim` and `parseInt`, ASCII
 * lower-casing, trimming, the `replace(/\s+/g, " ")` collapse, and
 * `parseInt(s, 10)`.
 */
module JsText {
  import opened Wrappers

  /** The characters that `\s`, `trim()` and `parseInt` all skip as white space. */
  predicate IsSpace(c: char) {
    c == '\t' || c == '\n' || c == '\U{B}' || c == '\U{C}' || c == '\r' || c == ' ' ||
    c == '\U{A0}' || c == '\U{1680}' || ('\U{2000}' <= c <= '\U{200A}') ||
    c == '\U{2028}' || c == '\U{2029}' || c == '\U{202F}' || c == '\U{205F}' ||
    c == '\U{3000}' || c == '\U{FEFF}'
  }

  predicate AllSpace(s: string) {
    forall i :: 0 <= i < |s| ==> IsSpace(s[i])
  }

  /** Holds of a string that has at least one character other than white space. */
  predicate NonBlank(s: string) {
    exists i :: 0 <= i < |s| && !IsSpace(s[i])
  }

  /** No white space at either end. */
  predicate Trimmed(s: string) {
    s == [] || (!IsSpace(s[0]) && !IsSpace(s[|s| - 1]))
  }

  /** Every white-space character is a plain space and no two are adjacent. */
  ghost predicate Collapsed(s: string) {
    (forall i :: 0 <= i < |s| && IsSpace(s[i]) ==> s[i] == ' ') &&
    (forall i, j :: 0 <= i < j < |s| && j == i + 1 ==> !IsSpace(s[i]) || !IsSpace(s[j]))
  }

  predicate IsUpper(c: char) {
    'A' <= c <= 'Z'
  }

  /** Contains no upper-case ASCII letter. */
  predicate NoUpper(s: string) {
    forall i :: 0 <= i < |s| ==> !IsUpper(s[i])
  }

  // ---------------------------------------------------------------- toLowerCase

  function LowerChar(c: char): (r: char)
    ensures !IsUpper(r)
    ensures IsSpace(r) <==> IsSpace(c)
    ensures !IsUpper(c) ==> r == c
  {
    if IsUpper(c) then (c as int + 32) as char else c
  }

  /** `toLowerCase()`, restricted to the ASCII letters. */
  function Lower(s: string): (r: string)
    ensures |r| == |s| && NoUpper(r)
    ensures forall i :: 0 <= i < |s| ==> r[i] == LowerChar(s[i])
  {
    seq(|s|, i requires 0 <= i < |s| => LowerChar(s[i]))
  }

  lemma LowerOfNoUpper(s: string)
    requires NoUpper(s)
    ensures Lower(s) == s
  {
  }

  /** Lower-casing works character by character, so it distributes over concatenation. */
  lemma LowerAppend(a: string, b: string)
    ensures Lower(a + b) == Lower(a) + Lower(b)
  {
  }

  // ---------------------------------------------------------------------- trim

  /** Length of the white-space run that starts the string. */
  function LeadingSpaces(s: string): (k: nat)
    ensures k <= |s|
    ensures forall i :: 0 <= i < k ==> IsSpace(s[i])
    ensures k < |s| ==> !IsSpace(s[k])
  {
    if s == [] || !IsSpace(s[0]) then 0 else 1 + LeadingSpaces(s[1..])
  }

  /** Length of the white-space run that ends the string. */
  function TrailingSpaces(s: string): (k: nat)
    ensures k <= |s|
    ensures forall i :: |s| - k <= i < |s| ==> IsSpace(s[i])
    ensures k < |s| ==> !IsSpace(s[|s| - 1 - k])
  {
    if s == [] || !IsSpace(s[|s| - 1]) then 0 else 1 + TrailingSpaces(s[..|s| - 1])
  }

  /** Where `trim()` stops: before the trailing white-space run of what is left. */
  function TrimHi(s: string): (hi: nat)
    ensures LeadingSpaces(s) <= hi <= |s| && AllSpace(s[hi..])
    ensures LeadingSpaces(s) < hi ==> !IsSpace(s[hi - 1])
  {
    var lo := LeadingSpaces(s);
    var t := s[lo..];
    var hi := lo + |t| - TrailingSpaces(t);
    assert AllSpace(s[hi..]) by {
      forall i | 0 <= i < |s| - hi ensures IsSpace(s[hi..][i]) {
        assert s[hi..][i] == t[|t| - TrailingSpaces(t) + i];
      }
    }
    assert lo < hi ==> s[hi - 1] == t[|t| - 1 - TrailingSpaces(t)];
    hi
  }

  /** `trim()`: the slice left once both white-space runs are dropped. */
  function Trim(s: string): (r: string)
    ensures r == s[LeadingSpaces(s)..TrimHi(s)]
    ensures Trimmed(r)
  {
    s[LeadingSpaces(s)..TrimHi(s)]
  }

  /** A string with no white space at either end is its own trim. */
  lemma TrimOfTrimmed(s: string)
    requires Trimmed(s)
    ensures Trim(s) == s
  {
    if s != [] {
      assert LeadingSpaces(s) == 0;
      assert TrailingSpaces(s) == 0;
    }
  }

  /** Only white space trims to nothing. */
  lemma TrimEmpty(s: string)
    ensures Trim(s) == [] <==> AllSpace(s)
  {
  }

  /** White space around a trimmed, non-empty string is exactly what `trim()` drops. */
  lemma TrimPadded(pre: string, w: string, post: string)
    requires AllSpace(pre) && AllSpace(post) && w != [] && Trimmed(w)
    ensures Trim(pre + w + post) == w
  {
    var s := pre + w + post;
    var lo, hi := LeadingSpaces(s), TrimHi(s);
    var m := |pre| + |w|;
    assert s[|pre|] == w[0] && s[m - 1] == w[|w| - 1];
    assert lo == |pre| by {
      assert forall i :: 0 <= i < |pre| ==> s[i] == pre[i];
    }
    assert hi == m by {
      assert forall i :: m <= i < |s| ==> s[i] == post[i - m];
    }
    assert s[lo..hi] == w;
  }

  // --------------------------------------------------- replace(/\s+/g, " ")

  /** `replace(/\s+/g, " ")`: every maximal white-space run becomes one space. */
  function CollapseSpaces(s: string): (r: string)
    ensures r == [] <==> s == []
    ensures s != [] && !IsSpace(s[0]) ==> r[0] == s[0]
    decreases |s|
  {
    if s == [] then []
    else if IsSpace(s[0]) then [' '] + CollapseSpaces(s[LeadingSpaces(s)..])
    else [s[0]] + CollapseSpaces(s[1..])
  }

  /** The collapse leaves only single plain spaces. */
  lemma {:induction false} CollapseIsCollapsed(s: string)
    ensures Collapsed(CollapseSpaces(s))
    decreases |s|
  {
    if s != [] {
      var k := if IsSpace(s[0]) then LeadingSpaces(s) else 1;
      var c := if IsSpace(s[0]) then ' ' else s[0];
      var t := CollapseSpaces(s[k..]);
      CollapseIsCollapsed(s[k..]);
      assert IsSpace(s[0]) ==> t == [] || !IsSpace(t[0]);
      ConsCollapsed(c, t);
    }
  }

  lemma ConsCollapsed(c: char, t: string)
    requires Collapsed(t) && (IsSpace(c) ==> c == ' ' && (t == [] || !IsSpace(t[0])))
    ensures Collapsed([c] + t)
  {
    var s := [c] + t;
    forall i, j | 0 <= i < j < |s| && j == i + 1
      ensures !IsSpace(s[i]) || !IsSpace(s[j])
    {
      if i > 0 {
        assert s[i] == t[i - 1] && s[j] == t[j - 1];
      }
    }
  }

  lemma {:induction false} CollapseOfCollapsed(s: string)
    requires Collapsed(s)
    ensures CollapseSpaces(s) == s
    decreases |s|
  {
    if s != [] {
      var tail := s[1..];
      SliceKeepsCollapsed(s, 1, |s|);
      CollapseOfCollapsed(tail);
      if IsSpace(s[0]) {
        assert LeadingSpaces(s) == 1 by {
          assert |s| == 1 || !IsSpace(s[1]);
        }
        assert CollapseSpaces(s) == [' '] + CollapseSpaces(tail);
      } else {
        assert CollapseSpaces(s) == [s[0]] + CollapseSpaces(tail);
      }
      assert s == [s[0]] + tail;
    }
  }

  /**
   * A collapsed prefix that does not end in white space passes through the
   * collapse unchanged.
   */
  lemma {:induction false} CollapsePrefix(a: string, b: string)
    requires Collapsed(a) && (a == [] || !IsSpace(a[|a| - 1]))
    ensures CollapseSpaces(a + b) == a + CollapseSpaces(b)
    decreases |a|
  {
    if a == [] {
      assert a + b == b;
    } else {
      var s := a + b;
      var a' := a[1..];
      assert s[1..] == a' + b;
      SliceKeepsCollapsed(a, 1, |a|);
      assert a' == [] || a'[|a'| - 1] == a[|a| - 1];
      CollapsePrefix(a', b);
      if IsSpace(a[0]) {
        assert |a| > 1 && !IsSpace(a[1]);
        assert LeadingSpaces(s) == 1 by { assert s[1] == a[1]; }
        assert CollapseSpaces(s) == [a[0]] + CollapseSpaces(s[1..]);
      } else {
        assert CollapseSpaces(s) == [a[0]] + CollapseSpaces(s[1..]);
      }
      assert a == [a[0]] + a';
    }
  }

  /** A white-space run in front of a non-space becomes a single space. */
  lemma CollapseRun(run: string, b: string)
    requires run != [] && AllSpace(run) && (b == [] || !IsSpace(b[0]))
    ensures CollapseSpaces(run + b) == " " + CollapseSpaces(b)
  {
    var s := run + b;
    assert forall i :: 0 <= i < |run| ==> s[i] == run[i];
    if b != [] {
      assert s[|run|] == b[0];
    }
    assert LeadingSpaces(s) == |run|;
    assert s[|run|..] == b;
  }

  lemma SliceKeepsCollapsed(s: string, lo: nat, hi: nat)
    requires lo <= hi <= |s| && Collapsed(s)
    ensures Collapsed(s[lo..hi])
  {
    forall i | 0 <= i < hi - lo && IsSpace(s[lo..hi][i])
      ensures s[lo..hi][i] == ' ' && (i + 1 == hi - lo || !IsSpace(s[lo..hi][i + 1]))
    {
      assert s[lo..hi][i] == s[lo + i];
      if i + 1 < hi - lo {
        assert s[lo..hi][i + 1] == s[lo + i + 1];
      }
    }
  }

  lemma SliceKeepsNoUpper(s: string, lo: nat, hi: nat)
    requires lo <= hi <= |s| && NoUpper(s)
    ensures NoUpper(s[lo..hi])
  {
    assert forall i :: 0 <= i < hi - lo ==> s[lo..hi][i] == s[lo + i];
  }

  /** Collapsing brings in no letter: only plain spaces are added. */
  lemma {:induction false} CollapseKeepsNoUpper(s: string)
    requires NoUpper(s)
    ensures NoUpper(CollapseSpaces(s))
    decreases |s|
  {
    if s != [] {
      var k := if IsSpace(s[0]) then LeadingSpaces(s) else 1;
      SliceKeepsNoUpper(s, k, |s|);
      CollapseKeepsNoUpper(s[k..]);
    }
  }

  /** Collapsing a string that ends in a non-space keeps that end. */
  lemma {:induction false} CollapseKeepsEnd(s: string)
    requires s != [] && !IsSpace(s[|s| - 1])
    ensures !IsSpace(CollapseSpaces(s)[|CollapseSpaces(s)| - 1])
    decreases |s|
  {
    if |s| > 1 {
      var k := if IsSpace(s[0]) then LeadingSpaces(s) else 1;
      assert s[k..][|s[k..]| - 1] == s[|s| - 1];
      CollapseKeepsEnd(s[k..]);
    }
  }

  /** Collapsing a trimmed string leaves it trimmed. */
  lemma CollapseKeepsTrimmed(s: string)
    requires Trimmed(s)
    ensures Trimmed(CollapseSpaces(s))
  {
    if s != [] {
      CollapseKeepsEnd(s);
    }
  }

  /** Trimming a collapsed string leaves it collapsed. */
  lemma TrimKeepsCollapsed(s: string)
    requires Collapsed(s)
    ensures Collapsed(Trim(s))
  {
    SliceKeepsCollapsed(s, LeadingSpaces(s), TrimHi(s));
  }

  // ------------------------------------------------------- replace(/'/g, '"')

  /** `replace(/'/g, '"')`: every single quote becomes a double quote. */
  function ReplaceQuotes(s: string): (r: string)
    ensures |r| == |s| && '\'' !in r
    ensures forall i :: 0 <= i < |s| ==> r[i] == (if s[i] == '\'' then '"' else s[i])
  {
    seq(|s|, i requires 0 <= i < |s| => if s[i] == '\'' then '"' else s[i])
  }

  lemma ReplaceQuotesKeepsShape(s: string)
    ensures Collapsed(s) ==> Collapsed(ReplaceQuotes(s))
    ensures Trimmed(s) ==> Trimmed(ReplaceQuotes(s))
  {
    var r := ReplaceQuotes(s);
    assert forall i :: 0 <= i < |s| ==> (IsSpace(r[i]) <==> IsSpace(s[i])) && (IsSpace(s[i]) ==> r[i] == s[i]);
  }

  lemma ReplaceQuotesAppend(a: string, b: string)
    ensures ReplaceQuotes(a + b) == ReplaceQuotes(a) + ReplaceQuotes(b)
  {
  }

  /** Two strings of one length with white space at the same positions. */
  ghost predicate SameSpaces(s: string, t: string) {
    |s| == |t| && forall i :: 0 <= i < |s| ==> (IsSpace(s[i]) <==> IsSpace(t[i]))
  }

  /** `trim()` cuts strings with white space at the same positions at the same places. */
  lemma SameSpacesTrimBounds(s: string, t: string)
    requires SameSpaces(s, t)
    ensures LeadingSpaces(s) == LeadingSpaces(t) && TrimHi(s) == TrimHi(t)
  {
  }

  /** Replacing quotes and trimming can be done in either order. */
  lemma ReplaceQuotesCommutesTrim(s: string)
    ensures Trim(ReplaceQuotes(s)) == ReplaceQuotes(Trim(s))
  {
    var r := ReplaceQuotes(s);
    assert SameSpaces(s, r);
    SameSpacesTrimBounds(s, r);
  }

  /** Replacing quotes and collapsing white space can be done in either order. */
  lemma {:induction false} ReplaceQuotesCommutesCollapse(s: string)
    ensures CollapseSpaces(ReplaceQuotes(s)) == ReplaceQuotes(CollapseSpaces(s))
    decreases |s|
  {
    var r := ReplaceQuotes(s);
    if s == [] {
    } else if IsSpace(s[0]) {
      var k := LeadingSpaces(s);
      assert LeadingSpaces(r) == k by {
        assert SameSpaces(s, r);
        SameSpacesTrimBounds(s, r);
      }
      assert r[k..] == ReplaceQuotes(s[k..]);
      ReplaceQuotesCommutesCollapse(s[k..]);
      ReplaceQuotesAppend([' '], CollapseSpaces(s[k..]));
    } else {
      assert r[1..] == ReplaceQuotes(s[1..]);
      ReplaceQuotesCommutesCollapse(s[1..]);
      ReplaceQuotesAppend([s[0]], CollapseSpaces(s[1..]));
    }
  }

  lemma ReplaceQuotesOfQuoteless(s: string)
    requires '\'' !in s
    ensures ReplaceQuotes(s) == s
  {
  }

  // ------------------------------------------------------------ parseInt(s, 10)

  predicate IsDigit(c: char) {
    '0' <= c <= '9'
  }

  predicate AllDigits(s: string) {
    forall i :: 0 <= i < |s| ==> IsDigit(s[i])
  }

  /** Length of the longest run of decimal digits that starts the string. */
  function DigitPrefix(s: string): (k: nat)
    ensures k <= |s| && AllDigits(s[..k])
    ensures k < |s| ==> !IsDigit(s[k])
  {
    if s == [] || !IsDigit(s[0]) then 0
    else
      var k := 1 + DigitPrefix(s[1..]);
      assert forall i :: 1 <= i < k ==> s[..k][i] == s[1..][..k - 1][i - 1];
      k
  }

  /** The value of a string of decimal digits, most significant first. */
  function DigitsValue(d: string): nat
    requires AllDigits(d)
  {
    if d == [] then 0 else DigitsValue(d[..|d| - 1]) * 10 + (d[|d| - 1] as int - '0' as int)
  }

  /**
   * `parseInt(s, 10)`: skip leading white space, read an optional sign, then
   * the longest digit prefix; `None` stands for `NaN` (no digit there).
   */
  function ParseInt(s: string): (r: Option<int>)
    ensures r.Some? ==> exists i :: 0 <= i < |s| && IsDigit(s[i])
  {
    var t := s[LeadingSpaces(s)..];
    var negative := t != [] && t[0] == '-';
    var body := if t != [] && (t[0] == '-' || t[0] == '+') then t[1..] else t;
    var n := DigitPrefix(body);
    if n == 0 then None
    else
      assert IsDigit(body[..n][0]);
      var v: int := DigitsValue(body[..n]);
      Some(if negative then -v else v)
  }

  function DigitChar(d: nat): (c: char)
    requires d < 10
    ensures IsDigit(c) && c as int - '0' as int == d
  {
    ('0' as int + d) as char
  }

  /** `String(n)` for a natural number: its decimal digits without leading zeros. */
  function DecimalString(n: nat): (s: string)
    ensures s != [] && AllDigits(s)
  {
    if n < 10 then [DigitChar(n)] else DecimalString(n / 10) + [DigitChar(n % 10)]
  }

  lemma {:induction false} DigitsValueOfDecimal(n: nat)
    ensures DigitsValue(DecimalString(n)) == n
  {
    var s := DecimalString(n);
    if n >= 10 {
      DigitsValueOfDecimal(n / 10);
      assert s[..|s| - 1] == DecimalString(n / 10);
    }
  }

  /** Reading back the decimal form of a natural number gives the number. */
  lemma {:induction false} ParseIntOfDecimal(n: nat)
    ensures ParseInt(DecimalString(n)) == Some(n)
  {
    var s := DecimalString(n);
    assert !IsSpace(s[0]) && s[0] != '-' && s[0] != '+';
    assert LeadingSpaces(s) == 0;
    assert s[0..] == s;
    assert DigitPrefix(s) == |s|;
    assert s[..|s|] == s;
    DigitsValueOfDecimal(n);
  }

  /** Nothing but white space (the empty input included) reads as `NaN`. */
  lemma ParseIntOfBlank(s: string)
    requires AllSpace(s)
    ensures ParseInt(s) == None
  {
  }

  /** The white-space run at the front ends where the first non-space character is. */
  lemma {:induction false} LeadingSpacesAt(s: string, i: nat)
    requires i <= |s| && AllSpace(s[..i]) && (i == |s| || !IsSpace(s[i]))
    ensures LeadingSpaces(s) == i
  {
    if i > 0 {
      assert IsSpace(s[..i][0]);
      assert s[1..][..i - 1] == s[..i][1..];
      LeadingSpacesAt(s[1..], i - 1);
    }
  }

  /** The digit run at the front ends where the first non-digit is. */
  lemma {:induction false} DigitPrefixAt(s: string, k: nat)
    requires k <= |s| && AllDigits(s[..k]) && (k == |s| || !IsDigit(s[k]))
    ensures DigitPrefix(s) == k
  {
    if k > 0 {
      assert IsDigit(s[..k][0]);
      assert s[1..][..k - 1] == s[..k][1..];
      DigitPrefixAt(s[1..], k - 1);
    }
  }

  /**
   * What `parseInt` reads: white space up to `i`, an optional sign from `i`
   * to `j`, and the longest run of digits from `j` to `k` (leading zeros
   * allowed); whatever follows `k` is ignored.
   */
  lemma ParseIntOfParts(s: string, i: nat, j: nat, k: nat)
    requires i <= j < k <= |s| && AllSpace(s[..i])
    requires j == i || (j == i + 1 && (s[i] == '-' || s[i] == '+'))
    requires AllDigits(s[j..k]) && (k == |s| || !IsDigit(s[k]))
    ensures ParseInt(s) ==
      Some(if j > i && s[i] == '-' then -(DigitsValue(s[j..k]) as int) else DigitsValue(s[j..k]) as int)
  {
    assert IsDigit(s[j..k][0]);
    SignAt(s, i, j);
    LeadingSpacesAt(s, i);
    DigitRunAt(s, j, k);
    ParseIntSteps(s, s[j..]);
  }

  /** After the white space, an optional sign and then a digit: the unsigned body starts at `j`. */
  lemma SignAt(s: string, i: nat, j: nat)
    requires i <= j < |s|
    requires j == i || (j == i + 1 && (s[i] == '-' || s[i] == '+'))
    requires IsDigit(s[j])
    ensures !IsSpace(s[i]) && s[i..][0] == s[i]
    ensures s[j..] == if s[i..] != [] && (s[i..][0] == '-' || s[i..][0] == '+') then s[i..][1..] else s[i..]
  {
  }

  /** A maximal digit run from `j` to `k` is the digit prefix of the text from `j`. */
  lemma DigitRunAt(s: string, j: nat, k: nat)
    requires j <= k <= |s| && AllDigits(s[j..k]) && (k == |s| || !IsDigit(s[k]))
    ensures DigitPrefix(s[j..]) == k - j && s[j..][..k - j] == s[j..k]
  {
    assert s[j..][..k - j] == s[j..k];
    DigitPrefixAt(s[j..], k - j);
  }

  /**
   * The converse: when no digit follows the white space (up to `i`) and the
   * optional sign (up to `j`), the input reads as `NaN`.
   */
  lemma ParseIntWithoutDigit(s: string, i: nat, j: nat)
    requires i <= j <= |s| && AllSpace(s[..i]) && (i == |s| || !IsSpace(s[i]))
    requires j == i || (j == i + 1 && (s[i] == '-' || s[i] == '+'))
    requires j == i && i < |s| ==> s[i] != '-' && s[i] != '+'
    requires j == |s| || !IsDigit(s[j])
    ensures ParseInt(s) == None
  {
    LeadingSpacesAt(s, i);
    assert s[i..][(j - i)..] == s[j..];
  }

  /** `ParseInt` read off its steps: the text after the white space, the unsigned body, its digit prefix. */
  lemma ParseIntSteps(s: string, body: string)
    requires var t := s[LeadingSpaces(s)..];
      body == if t != [] && (t[0] == '-' || t[0] == '+') then t[1..] else t
    requires DigitPrefix(body) > 0
    ensures var t := s[LeadingSpaces(s)..];
      ParseInt(s) == Some(if t[0] == '-' then -(DigitsValue(body[..DigitPrefix(body)]) as int)
                          else DigitsValue(body[..DigitPrefix(body)]) as int)
  {
  }
}
