/**
 email_templates.ts: `escapeHtml`, four whole-string replacements one after the
 other, and why their order is safe.
 */
module EscapeHtml {

  /** `s.replace(/c/g, with_)` for a single character. */
  function ReplaceAll(s: string, c: char, with_: string): string {
    if s == "" then "" else (if s[0] == c then with_ else [s[0]]) + ReplaceAll(s[1..], c, with_)
  }

  function EscapeHtml(s: string): string {
    ReplaceAll(ReplaceAll(ReplaceAll(ReplaceAll(s, '&', "&amp;"), '<', "&lt;"), '>', "&gt;"), '"', "&quot;")
  }

  /** The entity of one character, or the character itself. */
  function Entity(c: char): string {
    if c == '&' then "&amp;"
    else if c == '<' then "&lt;"
    else if c == '>' then "&gt;"
    else if c == '"' then "&quot;"
    else [c]
  }

  /** All characters at once. */
  function Simultaneous(s: string): string {
    if s == "" then "" else Entity(s[0]) + Simultaneous(s[1..])
  }

  lemma {:induction false} ReplaceConcat(a: string, b: string, c: char, with_: string)
    ensures ReplaceAll(a + b, c, with_) == ReplaceAll(a, c, with_) + ReplaceAll(b, c, with_)
    decreases |a|
  {
    if a == "" {
      assert a + b == b;
    } else {
      assert (a + b)[1..] == a[1..] + b;
      ReplaceConcat(a[1..], b, c, with_);
    }
  }

  lemma EscapeConcat(a: string, b: string)
    ensures EscapeHtml(a + b) == EscapeHtml(a) + EscapeHtml(b)
  {
    ReplaceConcat(a, b, '&', "&amp;");
    var a1, b1 := ReplaceAll(a, '&', "&amp;"), ReplaceAll(b, '&', "&amp;");
    ReplaceConcat(a1, b1, '<', "&lt;");
    var a2, b2 := ReplaceAll(a1, '<', "&lt;"), ReplaceAll(b1, '<', "&lt;");
    ReplaceConcat(a2, b2, '>', "&gt;");
    ReplaceConcat(ReplaceAll(a2, '>', "&gt;"), ReplaceAll(b2, '>', "&gt;"), '"', "&quot;");
  }

  /** One replacement, on a single character or on a string it does not match. */
  lemma {:induction false} ReplaceIn(s: string, d: char, with_: string)
    requires |s| == 1 || d !in s
    ensures ReplaceAll(s, d, with_) == if s == [d] then with_ else s
    decreases |s|
  {
    if s != "" && s != [d] {
      ReplaceIn(s[1..], d, with_);
    }
  }

  /** The later replacements match nothing in an entity already written. */
  lemma EntitiesAreInert()
    ensures '<' !in "&amp;" && '>' !in "&amp;" && '"' !in "&amp;"
    ensures '>' !in "&lt;" && '"' !in "&lt;" && '"' !in "&gt;"
  {
  }

  lemma EscapeOne(c: char)
    ensures EscapeHtml([c]) == Entity(c)
  {
    EntitiesAreInert();
    ReplaceIn([c], '&', "&amp;");
    var s1 := if c == '&' then "&amp;" else [c];
    ReplaceIn(s1, '<', "&lt;");
    var s2 := if c == '<' then "&lt;" else s1;
    ReplaceIn(s2, '>', "&gt;");
    var s3 := if c == '>' then "&gt;" else s2;
    ReplaceIn(s3, '"', "&quot;");
  }

  /** Four replacements in a row are one substitution of every character at once. */
  lemma {:induction false} EscapeIsSimultaneous(s: string)
    ensures EscapeHtml(s) == Simultaneous(s)
    decreases |s|
  {
    if s != "" {
      assert s == [s[0]] + s[1..];
      EscapeConcat([s[0]], s[1..]);
      EscapeOne(s[0]);
      EscapeIsSimultaneous(s[1..]);
    }
  }

  /** The four characters that are escaped, and that no other one is. */
  lemma EscapedCharacters(c: char)
    ensures c == '&' ==> EscapeHtml([c]) == "&amp;"
    ensures c == '<' ==> EscapeHtml([c]) == "&lt;"
    ensures c == '>' ==> EscapeHtml([c]) == "&gt;"
    ensures c == '"' ==> EscapeHtml([c]) == "&quot;"
    ensures c != '&' && c != '<' && c != '>' && c != '"' ==> EscapeHtml([c]) == [c]
  {
    EscapeOne(c);
  }

  /** An ampersand at `i` begins one of the four entities. */
  predicate BeginsEntity(t: string, i: nat)
    requires i <= |t|
  {
    "&amp;" <= t[i..] || "&lt;" <= t[i..] || "&gt;" <= t[i..] || "&quot;" <= t[i..]
  }

  /** No raw markup character, and no ampersand that is not an entity's. */
  predicate Safe(t: string) {
    forall i :: 0 <= i < |t| ==>
      t[i] != '<' && t[i] != '>' && t[i] != '"' && (t[i] == '&' ==> BeginsEntity(t, i))
  }

  lemma SafePrepend(c: char, t: string)
    requires Safe(t)
    ensures Safe(Entity(c) + t)
  {
    var e := Entity(c);
    var all := e + t;
    forall i | 0 <= i < |all|
      ensures all[i] != '<' && all[i] != '>' && all[i] != '"' && (all[i] == '&' ==> BeginsEntity(all, i))
    {
      if i >= |e| {
        assert all[i] == t[i - |e|] && all[i..] == t[i - |e|..];
      } else if i == 0 {
        assert all[0..] == all && e <= all;
      }
    }
  }

  lemma {:induction false} EscapedIsSafe(s: string)
    ensures Safe(EscapeHtml(s))
    decreases |s|
  {
    EscapeIsSimultaneous(s);
    if s != "" {
      EscapeIsSimultaneous(s[1..]);
      EscapedIsSafe(s[1..]);
      SafePrepend(s[0], Simultaneous(s[1..]));
    }
  }

  /** What a browser reads back. */
  function Unescape(t: string): string
    decreases |t|
  {
    if t == "" then ""
    else if "&amp;" <= t then "&" + Unescape(t[5..])
    else if "&lt;" <= t then "<" + Unescape(t[4..])
    else if "&gt;" <= t then ">" + Unescape(t[4..])
    else if "&quot;" <= t then "\"" + Unescape(t[6..])
    else [t[0]] + Unescape(t[1..])
  }

  lemma UnescapeEntity(c: char, t: string)
    ensures Unescape(Entity(c) + t) == [c] + Unescape(t)
  {
    var all := Entity(c) + t;
    assert all[|Entity(c)|..] == t;
    if c == '&' {
      assert "&amp;" <= all;
    } else if c == '<' {
      assert "&lt;" <= all && all[1] == 'l';
    } else if c == '>' {
      assert "&gt;" <= all && all[1] == 'g';
    } else if c == '"' {
      assert "&quot;" <= all && all[1] == 'q';
    } else {
      assert all[0] == c;
    }
  }

  /** Unescaping gives the input back, so no two strings escape to the same one. */
  lemma {:induction false} UnescapeEscape(s: string)
    ensures Unescape(EscapeHtml(s)) == s
    decreases |s|
  {
    EscapeIsSimultaneous(s);
    if s != "" {
      EscapeIsSimultaneous(s[1..]);
      UnescapeEscape(s[1..]);
      UnescapeEntity(s[0], Simultaneous(s[1..]));
    }
  }

  lemma EscapeInjective(s1: string, s2: string)
    ensures EscapeHtml(s1) == EscapeHtml(s2) <==> s1 == s2
  {
    UnescapeEscape(s1);
    UnescapeEscape(s2);
  }
}
