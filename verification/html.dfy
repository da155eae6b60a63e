/** `escapeHtml`, the helper each page uses before putting card text into
    markup: three global replacements, `&` first, then `<`, then `>`. */
module Html {
  import opened Common

  /** Number of occurrences of `c` in `s`. */
  function Count(s: string, c: char): nat {
    if s == [] then 0 else (if s[0] == c then 1 else 0) + Count(s[1..], c)
  }

  /** `s.replace(/c/g, r)`: every occurrence of the character `c` replaced by `r`. */
  function ReplaceAll(s: string, c: char, r: string): (t: string)
    ensures c !in r ==> c !in t
    ensures forall x :: x != c && x !in r ==> (x in t <==> x in s)
  {
    if s == [] then [] else (if s[0] == c then r else [s[0]]) + ReplaceAll(s[1..], c, r)
  }

  /** The helper as the pages write it. */
  function EscapeHtml(s: string): (t: string)
    ensures '<' !in t && '>' !in t
  {
    ReplaceAll(ReplaceAll(ReplaceAll(s, '&', "&amp;"), '<', "&lt;"), '>', "&gt;")
  }

  /** `escapeHtml(s)` on a value that may be missing: `(s || '')` turns a
      missing or empty value into the empty string. */
  function EscapeInput(s: Option<string>): (t: string)
    ensures s == None ==> t == ""
    ensures '<' !in t && '>' !in t
  {
    EscapeHtml(s.GetOr(""))
  }

  /** Reference definition: the entity each single character stands for. */
  function EscapeChar(c: char): string {
    if c == '&' then "&amp;" else if c == '<' then "&lt;" else if c == '>' then "&gt;" else [c]
  }

  /** Reference definition: escaping in one left-to-right pass, one character at a time. */
  function EscapeOnePass(s: string): string {
    if s == [] then [] else EscapeChar(s[0]) + EscapeOnePass(s[1..])
  }

  /** Reads the entities back; the inverse of escaping. */
  function Unescape(t: string): string
    decreases |t|
  {
    if t == [] then []
    else if |t| >= 5 && t[..5] == "&amp;" then "&" + Unescape(t[5..])
    else if |t| >= 4 && t[..4] == "&lt;" then "<" + Unescape(t[4..])
    else if |t| >= 4 && t[..4] == "&gt;" then ">" + Unescape(t[4..])
    else [t[0]] + Unescape(t[1..])
  }

  lemma {:induction false} ReplaceAllAppend(a: string, b: string, c: char, r: string)
    ensures ReplaceAll(a + b, c, r) == ReplaceAll(a, c, r) + ReplaceAll(b, c, r)
  {
    if a != [] {
      assert (a + b)[0] == a[0];
      assert (a + b)[1..] == a[1..] + b;
      ReplaceAllAppend(a[1..], b, c, r);
    } else {
      assert a + b == b;
    }
  }

  lemma {:induction false} ReplaceAllAbsent(s: string, c: char, r: string)
    requires c !in s
    ensures ReplaceAll(s, c, r) == s
  {
    if s != [] {
      assert s[0] in s;
      assert forall x :: x in s[1..] ==> x in s;
      ReplaceAllAbsent(s[1..], c, r);
      assert [s[0]] + s[1..] == s;
    }
  }

  /** Escaping distributes over concatenation: each part is escaped on its own. */
  lemma EscapeHtmlAppend(a: string, b: string)
    ensures EscapeHtml(a + b) == EscapeHtml(a) + EscapeHtml(b)
  {
    var a1, b1 := ReplaceAll(a, '&', "&amp;"), ReplaceAll(b, '&', "&amp;");
    ReplaceAllAppend(a, b, '&', "&amp;");
    var a2, b2 := ReplaceAll(a1, '<', "&lt;"), ReplaceAll(b1, '<', "&lt;");
    ReplaceAllAppend(a1, b1, '<', "&lt;");
    ReplaceAllAppend(a2, b2, '>', "&gt;");
  }

  lemma ReplaceAllSingle(c: char, x: char, r: string)
    ensures ReplaceAll([c], x, r) == if c == x then r else [c]
  {
    assert [c][1..] == [];
  }

  lemma EscapeHtmlChar(c: char)
    ensures EscapeHtml([c]) == EscapeChar(c)
  {
    ReplaceAllSingle(c, '&', "&amp;");
    if c == '&' {
      ReplaceAllAbsent("&amp;", '<', "&lt;");
      ReplaceAllAbsent("&amp;", '>', "&gt;");
    } else if c == '<' {
      ReplaceAllSingle(c, '<', "&lt;");
      ReplaceAllAbsent("&lt;", '>', "&gt;");
    } else {
      ReplaceAllSingle(c, '<', "&lt;");
      ReplaceAllSingle(c, '>', "&gt;");
    }
  }

  /** The three successive replacements equal the one-pass rewrite: because `&`
      is replaced first, the `&` inside the `&lt;` and `&gt;` produced later is
      never escaped a second time. */
  lemma {:induction false} EscapeHtmlIsOnePass(s: string)
    ensures EscapeHtml(s) == EscapeOnePass(s)
  {
    if s == [] {
      assert EscapeHtml(s) == [];
    } else {
      assert s == [s[0]] + s[1..];
      EscapeHtmlAppend([s[0]], s[1..]);
      EscapeHtmlChar(s[0]);
      EscapeHtmlIsOnePass(s[1..]);
    }
  }

  lemma {:induction false} UnescapeOnePass(s: string)
    ensures Unescape(EscapeOnePass(s)) == s
  {
    if s != [] {
      var rest := EscapeOnePass(s[1..]);
      var t := EscapeOnePass(s);
      assert t == EscapeChar(s[0]) + rest;
      UnescapeOnePass(s[1..]);
      var c := s[0];
      if c == '&' {
        assert t[..5] == "&amp;" && t[5..] == rest;
      } else if c == '<' {
        assert |t| >= 5 ==> t[..5] != "&amp;" by { if |t| >= 5 { assert t[..5][1] == 'l'; } }
        assert t[..4] == "&lt;" && t[4..] == rest;
      } else if c == '>' {
        assert |t| >= 5 ==> t[..5] != "&amp;" by { if |t| >= 5 { assert t[..5][1] == 'g'; } }
        assert t[..4] != "&lt;" by { assert t[..4][1] == 'g'; }
        assert t[..4] == "&gt;" && t[4..] == rest;
      } else {
        assert t[0] == c;
        assert |t| >= 5 ==> t[..5] != "&amp;" by { if |t| >= 5 { assert t[..5][0] == c; } }
        assert |t| >= 4 ==> t[..4] != "&lt;" && t[..4] != "&gt;" by { if |t| >= 4 { assert t[..4][0] == c; } }
        assert t[1..] == rest;
      }
      assert s == [c] + s[1..];
    }
  }

  /** Round trip: escaping loses nothing, so the original text can be read back. */
  lemma UnescapeEscape(s: string)
    ensures Unescape(EscapeHtml(s)) == s
  {
    EscapeHtmlIsOnePass(s);
    UnescapeOnePass(s);
  }

  /** Distinct texts stay distinct once escaped. */
  lemma EscapeHtmlInjective(a: string, b: string)
    requires EscapeHtml(a) == EscapeHtml(b)
    ensures a == b
  {
    UnescapeEscape(a);
    UnescapeEscape(b);
  }

  /** Text with none of the three special characters is left exactly as it is. */
  lemma PlainTextUnchanged(s: string)
    requires '&' !in s && '<' !in s && '>' !in s
    ensures EscapeHtml(s) == s
  {
    ReplaceAllAbsent(s, '&', "&amp;");
    ReplaceAllAbsent(s, '<', "&lt;");
    ReplaceAllAbsent(s, '>', "&gt;");
  }

  /** Each `&` grows the text by four characters, each `<` or `>` by three. */
  lemma {:induction false} EscapeHtmlLength(s: string)
    ensures |EscapeHtml(s)| == |s| + 4 * Count(s, '&') + 3 * (Count(s, '<') + Count(s, '>'))
  {
    if s == [] {
      assert EscapeHtml(s) == [];
    } else {
      assert s == [s[0]] + s[1..];
      EscapeHtmlAppend([s[0]], s[1..]);
      EscapeHtmlChar(s[0]);
      EscapeHtmlLength(s[1..]);
    }
  }
}
