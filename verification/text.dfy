/** String rules shared by the terminal loop and the browser client:
    JavaScript's `String.prototype.trim` and the case-insensitive
    exit-phrase test `/^(good bye|goodbye|bye|exit|quit)$/i`. */
module Text {

  /** The characters `trim` removes: ECMAScript's WhiteSpace (TAB, VT, FF,
      ZWNBSP and every space separator of category Zs) and LineTerminator
      (LF, CR, LS, PS). */
  const JsWhitespace: set<char> :=
    {'\t', '\n', '\U{B}', '\U{C}', '\r', ' ', '\U{A0}', '\U{1680}',
     '\U{2000}', '\U{2001}', '\U{2002}', '\U{2003}', '\U{2004}', '\U{2005}',
     '\U{2006}', '\U{2007}', '\U{2008}', '\U{2009}', '\U{200A}',
     '\U{2028}', '\U{2029}', '\U{202F}', '\U{205F}', '\U{3000}', '\U{FEFF}'}

  predicate IsJsWhitespace(c: char) {
    c in JsWhitespace
  }

  predicate AllWhitespace(s: string) {
    forall i :: 0 <= i < |s| ==> IsJsWhitespace(s[i])
  }

  /** No whitespace at either end. */
  predicate Trimmed(s: string) {
    s == [] || (!IsJsWhitespace(s[0]) && !IsJsWhitespace(s[|s| - 1]))
  }

  /** Index of the first non-whitespace character at or after `i`, or
      `|s|` when there is none. */
  function SkipForward(s: string, i: nat): (k: nat)
    requires i <= |s|
    ensures i <= k <= |s|
    ensures forall n :: i <= n < k ==> IsJsWhitespace(s[n])
    ensures k < |s| ==> !IsJsWhitespace(s[k])
    decreases |s| - i
  {
    if i < |s| && IsJsWhitespace(s[i]) then SkipForward(s, i + 1) else i
  }

  /** The end of `s[lo..j]` once its trailing whitespace is dropped. */
  function SkipBackward(s: string, lo: nat, j: nat): (k: nat)
    requires lo <= j <= |s|
    ensures lo <= k <= j
    ensures forall n :: k <= n < j ==> IsJsWhitespace(s[n])
    ensures lo < k ==> !IsJsWhitespace(s[k - 1])
    decreases j
  {
    if lo < j && IsJsWhitespace(s[j - 1]) then SkipBackward(s, lo, j - 1) else j
  }

  /** `s[i..j]` is what is left of `s` once the whitespace at both ends is
      removed. */
  ghost predicate TrimBounds(s: string, i: int, j: int) {
    && 0 <= i <= j <= |s|
    && (forall n :: 0 <= n < i ==> IsJsWhitespace(s[n]))
    && (forall n :: j <= n < |s| ==> IsJsWhitespace(s[n]))
    && (i < j ==> !IsJsWhitespace(s[i]) && !IsJsWhitespace(s[j - 1]))
  }

  /** `s.trim()`: the infix of `s` left after removing whitespace at both
      ends; it is empty exactly when `s` is all whitespace. */
  function Trim(s: string): (r: string)
    ensures Trimmed(r)
    ensures exists i, j :: TrimBounds(s, i, j) && r == s[i..j]
    ensures r == [] <==> AllWhitespace(s)
  {
    var i := SkipForward(s, 0);
    var j := SkipBackward(s, i, |s|);
    assert i < |s| ==> i < j;
    assert TrimBounds(s, i, j);
    s[i..j]
  }

  /** Whatever infix satisfies `TrimBounds` is the trim: the bounds are
      unique. */
  lemma TrimBoundsUnique(s: string, i: int, j: int)
    requires TrimBounds(s, i, j)
    ensures Trim(s) == s[i..j]
  {
    var i' := SkipForward(s, 0);
    var j' := SkipBackward(s, i', |s|);
    assert i' < |s| ==> i' < j';
    if i < j {
      assert i == i';
      assert j == j';
    } else {
      assert i' == |s|;
    }
  }

  /** Any decomposition of `s` into whitespace, a trimmed middle and
      whitespace determines `Trim(s)`: the middle is the trim. */
  lemma TrimUnique(p: string, m: string, q: string)
    requires AllWhitespace(p) && AllWhitespace(q) && Trimmed(m)
    ensures Trim(p + m + q) == m
  {
    var s := p + m + q;
    assert s[|p|..|p| + |m|] == m;
    assert forall n :: 0 <= n < |p| ==> s[n] == p[n];
    assert forall n :: |p| + |m| <= n < |s| ==> s[n] == q[n - |p| - |m|];
    TrimBoundsUnique(s, |p|, |p| + |m|);
  }

  lemma TrimIdempotent(s: string)
    ensures Trim(Trim(s)) == Trim(s)
  {
    var r := Trim(s);
    assert [] + r + [] == r;
    TrimUnique([], r, []);
  }

  lemma TrimKeepsTrimmed(s: string)
    requires Trimmed(s)
    ensures Trim(s) == s
  {
    assert [] + s + [] == s;
    TrimUnique([], s, []);
  }

  /** ASCII lower-casing; every other character is its own case fold under
      a regular expression with the `i` flag and without the `u` flag. */
  function AsciiLower(c: char): char {
    if 'A' <= c <= 'Z' then (c as int + 32) as char else c
  }

  function Lower(s: string): string {
    seq(|s|, i requires 0 <= i < |s| => AsciiLower(s[i]))
  }

  predicate EqualsIgnoringCase(a: string, b: string) {
    |a| == |b| && forall i :: 0 <= i < |a| ==> AsciiLower(a[i]) == AsciiLower(b[i])
  }

  /** The alternatives of the exit pattern, all lower case. */
  const ExitPhrases: seq<string> := ["good bye", "goodbye", "bye", "exit", "quit"]

  /** `/^(good bye|goodbye|bye|exit|quit)$/i.test(s)`: the whole of `s`
      equals one alternative up to ASCII case. */
  predicate IsExitPhrase(s: string) {
    exists k :: 0 <= k < |ExitPhrases| && EqualsIgnoringCase(s, ExitPhrases[k])
  }

  /** Reference reading of the exit test: lower-case the input and look it
      up among the phrases. */
  lemma ExitPhraseIffLowerListed(s: string)
    ensures IsExitPhrase(s) <==> Lower(s) in ExitPhrases
  {
    forall k | 0 <= k < |ExitPhrases|
      ensures EqualsIgnoringCase(s, ExitPhrases[k]) <==> Lower(s) == ExitPhrases[k]
    {
      var p := ExitPhrases[k];
      assert Lower(p) == p;
      if EqualsIgnoringCase(s, p) {
        assert Lower(s) == Lower(p);
      }
      if Lower(s) == p {
        assert forall i :: 0 <= i < |s| ==> AsciiLower(s[i]) == AsciiLower(p[i]) by {
          forall i | 0 <= i < |s| ensures AsciiLower(s[i]) == AsciiLower(p[i]) {
            assert Lower(s)[i] == p[i];
          }
        }
      }
    }
  }

  lemma ExitPhraseMatches()
    ensures IsExitPhrase("Good Bye") && IsExitPhrase("QUIT") && IsExitPhrase("bYe")
  {
    assert EqualsIgnoringCase("Good Bye", ExitPhrases[0]);
    assert EqualsIgnoringCase("QUIT", ExitPhrases[4]);
    assert EqualsIgnoringCase("bYe", ExitPhrases[2]);
  }

  /** Near misses do not match: the pattern is anchored at both ends and
      spaces are literal. */
  lemma ExitPhraseNearMisses()
    ensures !IsExitPhrase("good  bye") && !IsExitPhrase("byebye") && !IsExitPhrase("")
  {
  }
}
