/** `esc`, the HTML escaping applied to every value substituted into an
    e-mail template: five global single-character replacements, `&` first. */
module Escape {
  import opened Common

  /** `s.replace(/c/g, rep)` for a one-character pattern. */
  function ReplaceChar(s: string, c: char, rep: string): (r: string)
  {
    if s == [] then []
    else (if s[0] == c then rep else [s[0]]) + ReplaceChar(s[1..], c, rep)
  }

  /** The five replacements in the order the source applies them. */
  function Esc(s: string): string
  {
    ReplaceChar(ReplaceChar(ReplaceChar(ReplaceChar(ReplaceChar(s,
      '&', "&amp;"), '<', "&lt;"), '>', "&gt;"), '"', "&quot;"), '\'', "&#39;")
  }

  predicate IsSpecial(c: char) { c == '&' || c == '<' || c == '>' || c == '"' || c == '\'' }

  /** The entity of one character, or the character itself. */
  function EscChar(c: char): (r: string)
    ensures IsSpecial(c) <==> |r| > 1
    ensures !IsSpecial(c) ==> r == [c]
    ensures IsSpecial(c) ==> r[0] == '&' && r[|r| - 1] == ';'
  {
    if c == '&' then "&amp;"
    else if c == '<' then "&lt;"
    else if c == '>' then "&gt;"
    else if c == '"' then "&quot;"
    else if c == '\'' then "&#39;"
    else [c]
  }

  /** Per-character escaping: the reference `esc` is proved equal to. */
  function EscapeEach(s: string): string
  {
    if s == [] then [] else EscChar(s[0]) + EscapeEach(s[1..])
  }

  lemma {:induction false} ReplaceCharAppend(a: string, b: string, c: char, rep: string)
    ensures ReplaceChar(a + b, c, rep) == ReplaceChar(a, c, rep) + ReplaceChar(b, c, rep)
  {
    if a != [] {
      assert (a + b)[0] == a[0];
      assert (a + b)[1..] == a[1..] + b;
      ReplaceCharAppend(a[1..], b, c, rep);
    } else {
      assert a + b == b;
    }
  }

  lemma {:induction false} ReplaceCharAbsent(s: string, c: char, rep: string)
    requires c !in s
    ensures ReplaceChar(s, c, rep) == s
  {
    if s != [] {
      assert forall x :: x in s[1..] ==> x in s;
      ReplaceCharAbsent(s[1..], c, rep);
    }
  }

  /** Escaping distributes over concatenation: every replacement does. */
  lemma EscAppend(a: string, b: string)
    ensures Esc(a + b) == Esc(a) + Esc(b)
  {
    var a1, b1 := ReplaceChar(a, '&', "&amp;"), ReplaceChar(b, '&', "&amp;");
    ReplaceCharAppend(a, b, '&', "&amp;");
    var a2, b2 := ReplaceChar(a1, '<', "&lt;"), ReplaceChar(b1, '<', "&lt;");
    ReplaceCharAppend(a1, b1, '<', "&lt;");
    var a3, b3 := ReplaceChar(a2, '>', "&gt;"), ReplaceChar(b2, '>', "&gt;");
    ReplaceCharAppend(a2, b2, '>', "&gt;");
    var a4, b4 := ReplaceChar(a3, '"', "&quot;"), ReplaceChar(b3, '"', "&quot;");
    ReplaceCharAppend(a3, b3, '"', "&quot;");
    ReplaceCharAppend(a4, b4, '\'', "&#39;");
  }

  lemma ReplaceCharSingle(c: char, x: char, rep: string)
    ensures ReplaceChar([c], x, rep) == if c == x then rep else [c]
  {
    assert [c][1..] == [];
  }

  /** A character none of the five replacements targets is left alone. */
  lemma EscPlain(c: char)
    requires !IsSpecial(c)
    ensures Esc([c]) == [c]
  {
    ReplaceCharSingle(c, '&', "&amp;");
    ReplaceCharSingle(c, '<', "&lt;");
    ReplaceCharSingle(c, '>', "&gt;");
    ReplaceCharSingle(c, '"', "&quot;");
    ReplaceCharSingle(c, '\'', "&#39;");
  }

  /** After its own replacement, an entity holds none of the later targets. */
  lemma EscAmp()
    ensures Esc("&") == "&amp;"
  {
    var e := "&amp;";
    ReplaceCharSingle('&', '&', e);
    assert '<' !in e && '>' !in e && '"' !in e && '\'' !in e;
    ReplaceCharAbsent(e, '<', "&lt;");
    ReplaceCharAbsent(e, '>', "&gt;");
    ReplaceCharAbsent(e, '"', "&quot;");
    ReplaceCharAbsent(e, '\'', "&#39;");
  }

  lemma EscLt()
    ensures Esc("<") == "&lt;"
  {
    var e := "&lt;";
    ReplaceCharSingle('<', '&', "&amp;");
    ReplaceCharSingle('<', '<', e);
    assert '>' !in e && '"' !in e && '\'' !in e;
    ReplaceCharAbsent(e, '>', "&gt;");
    ReplaceCharAbsent(e, '"', "&quot;");
    ReplaceCharAbsent(e, '\'', "&#39;");
  }

  lemma EscGt()
    ensures Esc(">") == "&gt;"
  {
    ReplaceCharSingle('>', '&', "&amp;");
    ReplaceCharSingle('>', '<', "&lt;");
    ReplaceCharSingle('>', '>', "&gt;");
    ReplaceCharAbsent("&gt;", '"', "&quot;");
    ReplaceCharAbsent("&gt;", '\'', "&#39;");
  }

  lemma EscQuot()
    ensures Esc("\"") == "&quot;"
  {
    ReplaceCharSingle('"', '&', "&amp;");
    ReplaceCharSingle('"', '<', "&lt;");
    ReplaceCharSingle('"', '>', "&gt;");
    ReplaceCharSingle('"', '"', "&quot;");
    ReplaceCharAbsent("&quot;", '\'', "&#39;");
  }

  lemma EscApos()
    ensures Esc("'") == "&#39;"
  {
    ReplaceCharSingle('\'', '&', "&amp;");
    ReplaceCharSingle('\'', '<', "&lt;");
    ReplaceCharSingle('\'', '>', "&gt;");
    ReplaceCharSingle('\'', '"', "&quot;");
    ReplaceCharSingle('\'', '\'', "&#39;");
  }

  lemma EscSingle(c: char)
    ensures Esc([c]) == EscChar(c)
  {
    if c == '&' {
      EscAmp();
    } else if c == '<' {
      EscLt();
    } else if c == '>' {
      EscGt();
    } else if c == '"' {
      EscQuot();
    } else if c == '\'' {
      EscApos();
    } else {
      EscPlain(c);
    }
  }

  /** Because `&` is replaced first, `esc` is exactly per-character escaping. */
  lemma {:induction false} EscIsPerChar(s: string)
    ensures Esc(s) == EscapeEach(s)
  {
    if s != [] {
      assert s == [s[0]] + s[1..];
      EscAppend([s[0]], s[1..]);
      EscSingle(s[0]);
      EscIsPerChar(s[1..]);
    }
  }

  /** The escaped text holds none of `<`, `>`, `"`, `'` raw. */
  lemma {:induction false} EscapeEachNoRaw(s: string)
    ensures forall c :: c in EscapeEach(s) ==> c != '<' && c != '>' && c != '"' && c != '\''
  {
    if s != [] {
      EscapeEachNoRaw(s[1..]);
    }
  }

  lemma EscNoRaw(s: string)
    ensures '<' !in Esc(s) && '>' !in Esc(s) && '"' !in Esc(s) && '\'' !in Esc(s)
  {
    EscIsPerChar(s);
    EscapeEachNoRaw(s);
  }

  /** The character an entity at the start of `t` stands for, and the entity's length. */
  function EntityAt(t: string): (r: Option<(char, nat)>)
    ensures r.Some? ==> 1 < r.value.1 <= |t|
  {
    if t == [] || t[0] != '&' then None
    else if StartsWith(t, "&amp;") then Some(('&', 5))
    else if StartsWith(t, "&lt;") then Some(('<', 4))
    else if StartsWith(t, "&gt;") then Some(('>', 4))
    else if StartsWith(t, "&quot;") then Some(('"', 6))
    else if StartsWith(t, "&#39;") then Some(('\'', 5))
    else None
  }

  /** HTML entity decoding of the five entities `esc` produces. */
  function Unescape(t: string): string
    decreases |t|
  {
    if t == [] then []
    else match EntityAt(t)
      case Some((c, n)) => [c] + Unescape(t[n..])
      case None => [t[0]] + Unescape(t[1..])
  }

  lemma EntityOfEscChar(c: char, rest: string)
    requires IsSpecial(c)
    ensures EntityAt(EscChar(c) + rest) == Some((c, |EscChar(c)|))
  {
    var e := EscChar(c);
    var t := e + rest;
    assert t[..|e|] == e;
    assert t[1] == e[1];
  }

  lemma UnescapeStep(c: char, rest: string)
    ensures Unescape(EscChar(c) + rest) == [c] + Unescape(rest)
  {
    var t := EscChar(c) + rest;
    if IsSpecial(c) {
      EntityOfEscChar(c, rest);
      assert t[|EscChar(c)|..] == rest;
    } else {
      assert t[0] == c && t[1..] == rest;
    }
  }

  /** Decoding the escaped text gives the original back: nothing is escaped
      twice and nothing is lost. */
  lemma {:induction false} UnescapeEsc(s: string)
    ensures Unescape(Esc(s)) == s
  {
    EscIsPerChar(s);
    UnescapeEach(s);
  }

  lemma {:induction false} UnescapeEach(s: string)
    ensures Unescape(EscapeEach(s)) == s
  {
    if s != [] {
      UnescapeStep(s[0], EscapeEach(s[1..]));
      UnescapeEach(s[1..]);
    }
  }

  /** Escaping never shortens a text, and keeps its length only when no
      character needed escaping. */
  lemma {:induction false} EscapeEachGrows(s: string)
    ensures |EscapeEach(s)| >= |s|
    ensures |EscapeEach(s)| == |s| ==> forall c :: c in s ==> !IsSpecial(c)
  {
    if s != [] {
      EscapeEachGrows(s[1..]);
      assert forall c :: c in s ==> c == s[0] || c in s[1..];
    }
  }

  /** A text without special characters escapes to itself. */
  lemma {:induction false} EscapeEachPlain(s: string)
    requires forall c :: c in s ==> !IsSpecial(c)
    ensures EscapeEach(s) == s
  {
    if s != [] {
      assert s[0] in s;
      assert forall c :: c in s[1..] ==> c in s;
      EscapeEachPlain(s[1..]);
    }
  }

  lemma EscapeEachLength(s: string)
    ensures |EscapeEach(s)| >= |s|
    ensures |EscapeEach(s)| == |s| ==> forall c :: c in s ==> !IsSpecial(c)
    ensures (forall c :: c in s ==> !IsSpecial(c)) ==> EscapeEach(s) == s
  {
    EscapeEachGrows(s);
    if forall c :: c in s ==> !IsSpecial(c) {
      EscapeEachPlain(s);
    }
  }

  /** `esc` changes a text exactly when the text holds one of the five characters. */
  lemma EscIdentityIff(s: string)
    ensures Esc(s) == s <==> forall c :: c in s ==> !IsSpecial(c)
  {
    EscIsPerChar(s);
    EscapeEachLength(s);
  }
}
