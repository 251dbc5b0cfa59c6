/** The browser client's `escapeHtml`, and a decoder of the five entities
    it writes, which is a left inverse of it. */
module Html {

  /** `s.replace(/c/g, rep)` for a one-character pattern and a replacement
      without `$` patterns. */
  function ReplaceAll(s: string, c: char, rep: string): (r: string)
    ensures c !in rep ==> c !in r
    ensures c !in s ==> r == s
    ensures |rep| >= 1 ==> |r| >= |s|
  {
    if s == [] then []
    else (if s[0] == c then rep else [s[0]]) + ReplaceAll(s[1..], c, rep)
  }

  lemma {:induction false} ReplaceAllAppend(a: string, b: string, c: char, rep: string)
    ensures ReplaceAll(a + b, c, rep) == ReplaceAll(a, c, rep) + ReplaceAll(b, c, rep)
    decreases |a|
  {
    if a == [] {
      assert a + b == b;
    } else {
      assert (a + b)[1..] == a[1..] + b;
      ReplaceAllAppend(a[1..], b, c, rep);
    }
  }

  /** The body of `escapeHtml(unsafe)`: five global replacements,
      ampersand first. */
  function ReplaceChain(s: string): string {
    ReplaceAll(ReplaceAll(ReplaceAll(ReplaceAll(ReplaceAll(
      s, '&', "&amp;"), '<', "&lt;"), '>', "&gt;"), '"', "&quot;"), '\'', "&#039;")
  }

  predicate IsSpecial(c: char) {
    c == '&' || c == '<' || c == '>' || c == '"' || c == '\''
  }

  /** The entity each character is written as. */
  function EscapeChar(c: char): (r: string)
    ensures |r| >= 1
    ensures '<' !in r && '>' !in r && '"' !in r && '\'' !in r
    ensures !IsSpecial(c) ==> r == [c]
  {
    match c
    case '&' => "&amp;"
    case '<' => "&lt;"
    case '>' => "&gt;"
    case '"' => "&quot;"
    case '\'' => "&#039;"
    case _ => [c]
  }

  /** Escaping character by character. */
  function EscapeEach(s: string): (r: string)
    ensures |r| >= |s|
    ensures '<' !in r && '>' !in r && '"' !in r && '\'' !in r
    ensures (forall i :: 0 <= i < |s| ==> !IsSpecial(s[i])) ==> r == s
  {
    if s == [] then []
    else
      var head, tail := EscapeChar(s[0]), EscapeEach(s[1..]);
      assert forall x :: x in head + tail ==> x in head || x in tail;
      assert (forall i :: 0 <= i < |s| ==> !IsSpecial(s[i])) ==> head + tail == [s[0]] + s[1..];
      head + tail
  }

  lemma ReplaceOne(c: char, x: char, rep: string)
    ensures ReplaceAll([c], x, rep) == if c == x then rep else [c]
  {
    assert [c][1..] == [];
    if c == x {
      assert rep + [] == rep;
    }
  }

  lemma ReplaceChainOneChar(c: char)
    ensures ReplaceChain([c]) == EscapeChar(c)
  {
    ReplaceOne(c, '&', "&amp;");
    if c == '&' {
      assert '<' !in "&amp;" && '>' !in "&amp;" && '"' !in "&amp;" && '\'' !in "&amp;";
    } else {
      ReplaceOne(c, '<', "&lt;");
      if c == '<' {
        assert '>' !in "&lt;" && '"' !in "&lt;" && '\'' !in "&lt;";
      } else {
        ReplaceOne(c, '>', "&gt;");
        if c == '>' {
          assert '"' !in "&gt;" && '\'' !in "&gt;";
        } else {
          ReplaceOne(c, '"', "&quot;");
          if c == '"' {
            assert '\'' !in "&quot;";
          } else {
            ReplaceOne(c, '\'', "&#039;");
          }
        }
      }
    }
  }

  /** The chained replacements equal the per-character map; the chain
      would not if `&` were replaced after the entities were written. */
  lemma {:induction false} ReplaceChainIsCharMap(s: string)
    ensures ReplaceChain(s) == EscapeEach(s)
    decreases |s|
  {
    if s != [] {
      var head, tail := [s[0]], s[1..];
      assert s == head + tail;
      var s1 := ReplaceAll(s, '&', "&amp;");
      ReplaceAllAppend(head, tail, '&', "&amp;");
      var h1, t1 := ReplaceAll(head, '&', "&amp;"), ReplaceAll(tail, '&', "&amp;");
      ReplaceAllAppend(h1, t1, '<', "&lt;");
      var h2, t2 := ReplaceAll(h1, '<', "&lt;"), ReplaceAll(t1, '<', "&lt;");
      ReplaceAllAppend(h2, t2, '>', "&gt;");
      var h3, t3 := ReplaceAll(h2, '>', "&gt;"), ReplaceAll(t2, '>', "&gt;");
      ReplaceAllAppend(h3, t3, '"', "&quot;");
      var h4, t4 := ReplaceAll(h3, '"', "&quot;"), ReplaceAll(t3, '"', "&quot;");
      ReplaceAllAppend(h4, t4, '\'', "&#039;");
      assert ReplaceChain(s) == ReplaceChain(head) + ReplaceChain(tail);
      ReplaceChainOneChar(s[0]);
      ReplaceChainIsCharMap(tail);
    }
  }

  /** `escapeHtml(unsafe)`: every character is written as its entity, or
      as itself when it is not special. */
  function EscapeHtml(s: string): (r: string)
    ensures r == EscapeEach(s)
  {
    ReplaceChainIsCharMap(s);
    ReplaceChain(s)
  }

  /** The escaped text holds no markup characters, is never shorter, and
      text without special characters is left alone. */
  lemma EscapeHtmlSafe(s: string)
    ensures var r := EscapeHtml(s);
            && '<' !in r && '>' !in r && '"' !in r && '\'' !in r
            && |r| >= |s|
            && ((forall i :: 0 <= i < |s| ==> !IsSpecial(s[i])) ==> r == s)
  {
  }

  /** Decodes the five entities `escapeHtml` writes; any other character,
      including any other entity, stands for itself. */
  function Unescape(s: string): string
    decreases |s|
  {
    if s == [] then []
    else if |s| >= 5 && s[..5] == "&amp;" then "&" + Unescape(s[5..])
    else if |s| >= 4 && s[..4] == "&lt;" then "<" + Unescape(s[4..])
    else if |s| >= 4 && s[..4] == "&gt;" then ">" + Unescape(s[4..])
    else if |s| >= 6 && s[..6] == "&quot;" then "\"" + Unescape(s[6..])
    else if |s| >= 6 && s[..6] == "&#039;" then "'" + Unescape(s[6..])
    else [s[0]] + Unescape(s[1..])
  }

  lemma UnescapeEntity(e: string, rest: string, c: char)
    requires e == EscapeChar(c)
    ensures Unescape(e + rest) == [c] + Unescape(rest)
  {
    var s := e + rest;
    if !IsSpecial(c) {
      assert s[0] == c && s[1..] == rest;
    } else {
      assert s[0] == '&';
      assert s[..|e|] == e && s[|e|..] == rest;
      if c == '&' {
        assert s[..5] == "&amp;";
      } else if c == '<' {
        assert !(|s| >= 5 && s[..5] == "&amp;") by { assert s[1] == 'l'; }
        assert s[..4] == "&lt;";
      } else if c == '>' {
        assert !(|s| >= 5 && s[..5] == "&amp;") by { assert s[1] == 'g'; }
        assert !(|s| >= 4 && s[..4] == "&lt;") by { assert s[1] == 'g'; }
        assert s[..4] == "&gt;";
      } else if c == '"' {
        assert !(|s| >= 5 && s[..5] == "&amp;") by { assert s[1] == 'q'; }
        assert !(|s| >= 4 && (s[..4] == "&lt;" || s[..4] == "&gt;")) by { assert s[1] == 'q'; }
        assert s[..6] == "&quot;";
      } else {
        assert !(|s| >= 5 && s[..5] == "&amp;") by { assert s[1] == '#'; }
        assert !(|s| >= 4 && (s[..4] == "&lt;" || s[..4] == "&gt;")) by { assert s[1] == '#'; }
        assert s[..6] != "&quot;" by { assert s[1] == '#'; }
        assert s[..6] == "&#039;";
      }
    }
  }

  /** Decoding the five entities `escapeHtml` writes recovers the text:
      `Unescape` is a left inverse of `EscapeHtml`. */
  lemma {:induction false} UnescapeEscape(s: string)
    ensures Unescape(EscapeEach(s)) == s
    ensures Unescape(EscapeHtml(s)) == s
    decreases |s|
  {
    if s != [] {
      UnescapeEntity(EscapeChar(s[0]), EscapeEach(s[1..]), s[0]);
      UnescapeEscape(s[1..]);
      assert s == [s[0]] + s[1..];
    }
  }

  /** Escaping never maps two texts to the same markup. */
  lemma EscapeHtmlInjective(a: string, b: string)
    ensures EscapeHtml(a) == EscapeHtml(b) ==> a == b
  {
    UnescapeEscape(a);
    UnescapeEscape(b);
  }
}
