/** Literal global replacement, `text.replace(/PATTERN/g, value)` and its
    word-bounded form `text.replace(/\bPATTERN\b/g, value)`, and a chain of
    such replacements applied left to right, as the renderer uses them.
    Patterns are plain upper-case tokens with no regular-expression
    operators except a literal `*`; values are taken literally (no `$`
    sequences). */
module Replace {
  import opened Common

  /** A token to search for; an empty regular expression is never used. */
  type Token = s: string | s != [] witness "?"

  /** One link of the chain: the token, whether it is wrapped in `\b`, and the value. */
  datatype Rule = Rule(pattern: Token, bounded: bool, value: string)

  predicate OccursAt(s: string, p: string, i: nat)
  {
    i + |p| <= |s| && s[i..i + |p|] == p
  }

  /** `s` holds no occurrence of `p`. */
  ghost predicate Absent(s: string, p: string)
  {
    forall k: nat :: !OccursAt(s, p, k)
  }

  /** `\b` between positions i - 1 and i: a word character on exactly one side. */
  predicate BoundaryAt(s: string, i: nat)
    requires i <= |s|
  {
    (i > 0 && IsWordChar(s[i - 1])) != (i < |s| && IsWordChar(s[i]))
  }

  predicate MatchAt(s: string, r: Rule, i: nat)
  {
    OccursAt(s, r.pattern, i) && (r.bounded ==> BoundaryAt(s, i) && BoundaryAt(s, i + |r.pattern|))
  }

  /** The scan of a global regular expression from position i: the leftmost
      match is replaced and the scan goes on after it; the boundary tests
      read the original text. */
  function ReplaceFrom(s: string, r: Rule, i: nat): string
    requires i <= |s|
    decreases |s| - i
  {
    if i + |r.pattern| > |s| then s[i..]
    else if MatchAt(s, r, i) then r.value + ReplaceFrom(s, r, i + |r.pattern|)
    else [s[i]] + ReplaceFrom(s, r, i + 1)
  }

  function ReplaceAll(s: string, r: Rule): string
  {
    ReplaceFrom(s, r, 0)
  }

  /** Where nothing matches from i on, the scan copies the rest of the text. */
  lemma {:induction false} NoMatchFrom(s: string, r: Rule, i: nat)
    requires i <= |s|
    requires forall k: nat :: i <= k ==> !MatchAt(s, r, k)
    ensures ReplaceFrom(s, r, i) == s[i..]
    decreases |s| - i
  {
    if i + |r.pattern| <= |s| {
      NoMatchFrom(s, r, i + 1);
      assert s[i..] == [s[i]] + s[i + 1..];
    }
  }

  /** A rule that matches nowhere leaves the text as it is. */
  lemma ReplaceAllNoMatch(s: string, r: Rule)
    requires forall k: nat :: !MatchAt(s, r, k)
    ensures ReplaceAll(s, r) == s
  {
    NoMatchFrom(s, r, 0);
  }

  /** In particular a rule whose token does not occur is idle. */
  lemma AbsentIsIdle(s: string, r: Rule)
    requires Absent(s, r.pattern)
    ensures ReplaceAll(s, r) == s
  {
    ReplaceAllNoMatch(s, r);
  }

  /** A stretch of output free of the value's characters was copied from the input. */
  lemma {:induction false} CopiedPrefix(s: string, r: Rule, i: nat, n: nat)
    requires r.value != [] && i <= |s|
    requires n <= |ReplaceFrom(s, r, i)|
    requires forall c :: c in ReplaceFrom(s, r, i)[..n] ==> c !in r.value
    ensures i + n <= |s| && ReplaceFrom(s, r, i)[..n] == s[i..i + n]
    decreases |s| - i
  {
    var out := ReplaceFrom(s, r, i);
    if n > 0 && i + |r.pattern| <= |s| {
      assert out[..n][0] == out[0] && out[0] in out[..n];
      assert r.value[0] in r.value;
      if !MatchAt(s, r, i) {
        CopiedChar(s, r, i, n);
        CopiedPrefix(s, r, i + 1, n - 1);
      }
    }
  }

  /** Where the scan copies a character, the stretch after it is free of
      the value's characters too. */
  lemma CopiedChar(s: string, r: Rule, i: nat, n: nat)
    requires i + |r.pattern| <= |s| && !MatchAt(s, r, i)
    requires 0 < n <= |ReplaceFrom(s, r, i)|
    requires forall c :: c in ReplaceFrom(s, r, i)[..n] ==> c !in r.value
    ensures ReplaceFrom(s, r, i)[..n] == [s[i]] + ReplaceFrom(s, r, i + 1)[..n - 1]
    ensures forall c :: c in ReplaceFrom(s, r, i + 1)[..n - 1] ==> c !in r.value
  {
    var out, rest := ReplaceFrom(s, r, i), ReplaceFrom(s, r, i + 1);
    assert out == [s[i]] + rest;
    assert out[..n] == [s[i]] + rest[..n - 1];
    assert forall c :: c in rest[..n - 1] ==> c in out[..n];
  }

  /** Text behind a value free of `q`'s characters hides no `q` across the join. */
  lemma AbsentAfterValue(v: string, rest: string, q: string)
    requires q != [] && q[0] !in v && Absent(rest, q)
    ensures Absent(v + rest, q)
  {
    var out := v + rest;
    forall k: nat ensures !OccursAt(out, q, k) {
      if k < |v| {
        if k + |q| <= |out| {
          assert out[k..k + |q|][0] == v[k] && v[k] in v;
        }
      } else {
        if k + |q| <= |out| {
          assert out[k..k + |q|] == rest[k - |v|..k - |v| + |q|];
        }
        assert !OccursAt(rest, q, k - |v|);
      }
    }
  }

  /** One character in front of a text without `q` makes a `q` only at the front. */
  lemma AbsentAfterChar(x: char, rest: string, q: string)
    requires Absent(rest, q) && !OccursAt([x] + rest, q, 0)
    ensures Absent([x] + rest, q)
  {
    var out := [x] + rest;
    forall k: nat | k > 0 ensures !OccursAt(out, q, k) {
      if k + |q| <= |out| {
        assert out[k..k + |q|] == rest[k - 1..k - 1 + |q|];
      }
      assert !OccursAt(rest, q, k - 1);
    }
  }

  /** The scan creates no occurrence of `q` when the value shares no
      character with `q` and every occurrence of `q` in the input is a match. */
  lemma {:induction false} ScanAbsent(s: string, r: Rule, i: nat, q: string)
    requires r.value != [] && q != [] && i <= |s|
    requires forall c :: c in q ==> c !in r.value
    requires forall k: nat :: i <= k && OccursAt(s, q, k) ==> MatchAt(s, r, k)
    ensures Absent(ReplaceFrom(s, r, i), q)
    decreases |s| - i
  {
    if i + |r.pattern| > |s| {
      TailAbsent(s, r, i, q);
    } else if MatchAt(s, r, i) {
      ScanAbsent(s, r, i + |r.pattern|, q);
      assert q[0] in q;
      AbsentAfterValue(r.value, ReplaceFrom(s, r, i + |r.pattern|), q);
    } else {
      var rest := ReplaceFrom(s, r, i + 1);
      ScanAbsent(s, r, i + 1, q);
      CopiedOccurrence(s, r, i, q);
      AbsentAfterChar(s[i], rest, q);
    }
  }

  lemma TailAbsent(s: string, r: Rule, i: nat, q: string)
    requires i <= |s| && i + |r.pattern| > |s|
    requires forall k: nat :: i <= k && OccursAt(s, q, k) ==> MatchAt(s, r, k)
    ensures Absent(ReplaceFrom(s, r, i), q)
  {
    var out := ReplaceFrom(s, r, i);
    assert out == s[i..];
    forall k: nat ensures !OccursAt(out, q, k) {
      var m: nat := i + k;
      if k + |q| <= |out| {
        var x, y := out[k..k + |q|], s[m..m + |q|];
        assert forall j :: 0 <= j < |q| ==> x[j] == y[j];
      }
      assert OccursAt(out, q, k) ==> OccursAt(s, q, m);
    }
  }

  /** An occurrence of `q` at the front of the scan's output, where `q`
      shares no character with the value, was copied from the input. */
  lemma CopiedOccurrence(s: string, r: Rule, i: nat, q: string)
    requires r.value != [] && i <= |s|
    requires forall c :: c in q ==> c !in r.value
    ensures OccursAt(ReplaceFrom(s, r, i), q, 0) ==> OccursAt(s, q, i)
  {
    var out := ReplaceFrom(s, r, i);
    if OccursAt(out, q, 0) {
      assert out[..|q|] == q;
      CopiedPrefix(s, r, i, |q|);
    }
  }

  /** A plain rule whose value shares no character with its token leaves no
      occurrence of the token behind. */
  lemma ReplaceClears(s: string, r: Rule)
    requires r.value != [] && !r.bounded
    requires forall c :: c in r.pattern ==> c !in r.value
    ensures Absent(ReplaceAll(s, r), r.pattern)
  {
    ScanAbsent(s, r, 0, r.pattern);
  }

  /** A rule whose value shares no character with `q` does not create `q`. */
  lemma ReplaceKeepsAbsent(s: string, r: Rule, q: string)
    requires r.value != [] && q != []
    requires forall c :: c in q ==> c !in r.value
    requires Absent(s, q)
    ensures Absent(ReplaceAll(s, r), q)
  {
    ScanAbsent(s, r, 0, q);
  }

  /** A text without `p` holds no token that contains `p`. */
  lemma AbsentInside(s: string, p: string, q: string, at: nat)
    requires Absent(s, p) && OccursAt(q, p, at)
    ensures Absent(s, q)
  {
    forall k: nat ensures !OccursAt(s, q, k) {
      var m: nat := k + at;
      if k + |q| <= |s| {
        var u, v := s[k..k + |q|][at..at + |p|], s[m..m + |p|];
        assert forall j :: 0 <= j < |p| ==> u[j] == v[j];
      }
      assert !OccursAt(s, p, m);
      assert OccursAt(s, q, k) ==> OccursAt(s, p, m);
    }
  }

  /** Text behind a token-free tail holds the token only before the tail. */
  lemma AbsentBehind(c: string, b: string, p: string)
    requires p != [] && Absent(b, p)
    ensures forall j: nat :: |c| <= j ==> !OccursAt(c + b, p, j)
  {
    forall j: nat | |c| <= j ensures !OccursAt(c + b, p, j) {
      if j + |p| <= |c + b| {
        var m: nat := j - |c|;
        var x, y := (c + b)[j..j + |p|], b[m..m + |p|];
        assert forall i :: 0 <= i < |p| ==> x[i] == y[i];
        assert !OccursAt(b, p, m);
      }
    }
  }

  /** With no occurrence of the token after a match, the scan copies the rest. */
  lemma TailCopied(a: string, r: Rule, b: string)
    requires Absent(b, r.pattern)
    ensures ReplaceFrom(a + r.pattern + b, r, |a| + |r.pattern|) == b
  {
    var s := a + r.pattern + b;
    var n := |a| + |r.pattern|;
    assert s == (a + r.pattern) + b;
    AbsentBehind(a + r.pattern, b, r.pattern);
    forall j: nat | n <= j ensures !MatchAt(s, r, j) {
      assert !OccursAt(s, r.pattern, j);
    }
    NoMatchFrom(s, r, n);
    assert s[n..] == b;
  }

  /** At a match with no occurrence of the token after it, the scan puts
      the value in and copies the rest. */
  lemma MatchThenRest(a: string, r: Rule, b: string)
    requires Absent(b, r.pattern)
    requires MatchAt(a + r.pattern + b, r, |a|)
    ensures ReplaceFrom(a + r.pattern + b, r, |a|) == r.value + b
  {
    TailCopied(a, r, b);
    MatchStep(a + r.pattern + b, r, |a|);
  }

  /** One step of the scan past a position where nothing matches. */
  lemma SkipStep(s: string, r: Rule, i: nat)
    requires i + |r.pattern| <= |s| && !MatchAt(s, r, i)
    ensures ReplaceFrom(s, r, i) == [s[i]] + ReplaceFrom(s, r, i + 1)
  {
  }

  /** One step of the scan over a match. */
  lemma MatchStep(s: string, r: Rule, i: nat)
    requires MatchAt(s, r, i)
    ensures ReplaceFrom(s, r, i) == r.value + ReplaceFrom(s, r, i + |r.pattern|)
  {
  }

  /** One character of `a` before the match is copied by the scan. */
  lemma ScanStep(a: string, r: Rule, b: string, k: nat)
    requires k < |a| && !MatchAt(a + r.pattern + b, r, k)
    requires ReplaceFrom(a + r.pattern + b, r, k + 1) == a[k + 1..] + r.value + b
    ensures ReplaceFrom(a + r.pattern + b, r, k) == a[k..] + r.value + b
  {
    var s := a + r.pattern + b;
    assert ReplaceFrom(s, r, k) == [a[k]] + ReplaceFrom(s, r, k + 1) by {
      assert s[k] == a[k];
      SkipStep(s, r, k);
    }
    assert a[k..] + r.value + b == [a[k]] + (a[k + 1..] + r.value + b) by {
      assert a[k..] == [a[k]] + a[k + 1..];
    }
  }

  /** The first match of a rule, with no occurrence of its token after it,
      is replaced and everything around it is kept. */
  lemma {:induction false} ScanToMatch(a: string, r: Rule, b: string, k: nat)
    requires k <= |a| && Absent(b, r.pattern)
    requires MatchAt(a + r.pattern + b, r, |a|)
    requires forall j: nat :: k <= j < |a| ==> !MatchAt(a + r.pattern + b, r, j)
    ensures ReplaceFrom(a + r.pattern + b, r, k) == a[k..] + r.value + b
    decreases |a| - k
  {
    if k == |a| {
      MatchThenRest(a, r, b);
      assert a[k..] == [];
    } else {
      ScanToMatch(a, r, b, k + 1);
      ScanStep(a, r, b, k);
    }
  }

  /** A text too short to hold the token does not hold it. */
  lemma ShortAbsent(b: string, p: string)
    requires |b| < |p|
    ensures Absent(b, p)
  {
  }

  /** A single occurrence of a plain rule's token, with no earlier
      occurrence and too little text after it for another one, is replaced
      and everything around it is kept. */
  lemma ReplaceInside(a: string, p: string, b: string, v: string)
    requires p != [] && |b| < |p|
    requires forall j: nat :: j < |a| ==> !OccursAt(a + p + b, p, j)
    ensures ReplaceAll(a + p + b, Rule(p, false, v)) == a + v + b
  {
    var s := a + p + b;
    assert s[|a|..|a| + |p|] == p;
    ShortAbsent(b, p);
    ScanToMatch(a, Rule(p, false, v), b, 0);
  }

  /** A token followed by a suffix that does not hold it: a plain rule for
      the token turns it into the value and keeps the suffix, so a longer
      token listed after a shorter one it starts with is cut apart first. */
  lemma TokenThenSuffix(p: string, suffix: string, v: string)
    requires p != [] && Absent(suffix, p)
    ensures ReplaceAll(p + suffix, Rule(p, false, v)) == v + suffix
  {
    var s := [] + p + suffix;
    assert s == p + suffix;
    assert s[0..|p|] == p;
    ScanToMatch([], Rule(p, false, v), suffix, 0);
  }

  /** A text without one of the token's characters does not hold the token. */
  lemma ForeignCharAbsent(s: string, p: string, c: char)
    requires c in p && c !in s
    ensures Absent(s, p)
  {
    forall k: nat ensures !OccursAt(s, p, k) {
      if k + |p| <= |s| {
        assert forall x :: x in s[k..k + |p|] ==> x in s;
      }
    }
  }

  /** A rule whose token holds a character the text lacks is idle. */
  lemma ForeignCharIdle(s: string, r: Rule, c: char)
    requires c in r.pattern && c !in s
    ensures ReplaceAll(s, r) == s
  {
    ForeignCharAbsent(s, r.pattern, c);
    AbsentIsIdle(s, r);
  }

  /** A token standing as a word of its own, with no earlier occurrence and
      none after it, is replaced by a word-bounded rule. */
  lemma BoundedWordInText(a: string, p: string, b: string, v: string)
    requires p != [] && IsWordChar(p[0]) && IsWordChar(p[|p| - 1])
    requires a == [] || !IsWordChar(a[|a| - 1])
    requires b == [] || !IsWordChar(b[0])
    requires Absent(b, p)
    requires forall j: nat :: j < |a| ==> !OccursAt(a + p + b, p, j)
    ensures ReplaceAll(a + p + b, Rule(p, true, v)) == a + v + b
  {
    var s, r := a + p + b, Rule(p, true, v);
    assert s[|a|..|a| + |p|] == p;
    assert s[|a|] == p[0] && s[|a| + |p| - 1] == p[|p| - 1];
    if a != [] {
      assert s[|a| - 1] == a[|a| - 1];
    }
    if b != [] {
      assert s[|a| + |p|] == b[0];
    }
    assert MatchAt(s, r, |a|);
    ScanToMatch(a, r, b, 0);
  }

  /** In particular a token that is the whole text. */
  lemma BoundedWholeWord(p: string, v: string)
    requires p != [] && IsWordChar(p[0]) && IsWordChar(p[|p| - 1])
    ensures ReplaceAll(p, Rule(p, true, v)) == v
  {
    ShortAbsent([], p);
    BoundedWordInText([], p, [], v);
    assert [] + p + [] == p && [] + v + [] == v;
  }

  /** A word-bounded rule leaves its token alone where a word character
      runs into it (`ORDERDATE` for `\bDATE\b`). */
  lemma BoundedInsideWord(before: string, p: string, v: string)
    requires p != [] && before != [] && IsWordChar(before[|before| - 1]) && IsWordChar(p[0])
    requires forall k: nat :: k < |before| ==> !OccursAt(before + p, p, k)
    ensures ReplaceAll(before + p, Rule(p, true, v)) == before + p
  {
    var s := before + p;
    var r := Rule(p, true, v);
    forall k: nat ensures !MatchAt(s, r, k) {
      if k == |before| {
        assert s[k - 1] == before[|before| - 1] && s[k] == p[0];
      }
    }
    ReplaceAllNoMatch(s, r);
  }

  /** The chain `text.replace(...).replace(...)...`, first rule first. */
  function ApplyChain(s: string, rules: seq<Rule>): string
  {
    if rules == [] then s
    else ReplaceAll(ApplyChain(s, rules[..|rules| - 1]), rules[|rules| - 1])
  }

  lemma ChainStep(s: string, rules: seq<Rule>, m: nat)
    requires m < |rules|
    ensures ApplyChain(s, rules[..m + 1]) == ReplaceAll(ApplyChain(s, rules[..m]), rules[m])
  {
    assert rules[..m + 1][..m] == rules[..m];
  }

  /** A chain whose every rule leaves a text alone leaves it alone. */
  lemma {:induction false} ChainKeeps(s: string, rules: seq<Rule>, m: nat)
    requires m <= |rules|
    requires forall k :: 0 <= k < m ==> ReplaceAll(s, rules[k]) == s
    ensures ApplyChain(s, rules[..m]) == s
    decreases m
  {
    if m == 0 {
      assert rules[..0] == [];
    } else {
      ChainKeeps(s, rules, m - 1);
      ChainStep(s, rules, m - 1);
    }
  }

  /** Rule m then acts on the text the chain has left alone so far. */
  lemma ChainFires(s: string, rules: seq<Rule>, m: nat, v: string)
    requires m < |rules| && ApplyChain(s, rules[..m]) == s && ReplaceAll(s, rules[m]) == v
    ensures ApplyChain(s, rules[..m + 1]) == v
  {
    ChainStep(s, rules, m);
  }

  /** A text the first m rules leave alone, and that rules m and m + 1 leave
      alone too, becomes v at rule m + 2. */
  lemma KeepsTwoThenFires(s: string, rules: seq<Rule>, m: nat, v: string)
    requires m + 2 < |rules| && ApplyChain(s, rules[..m]) == s
    requires ReplaceAll(s, rules[m]) == s && ReplaceAll(s, rules[m + 1]) == s
    requires ReplaceAll(s, rules[m + 2]) == v
    ensures ApplyChain(s, rules[..m + 2]) == s && ApplyChain(s, rules[..m + 3]) == v
  {
    ChainFires(s, rules, m, s);
    ChainFires(s, rules, m + 1, s);
    ChainFires(s, rules, m + 2, v);
  }

  /** `p` starts `t`, and `t` is too short to hold `p` twice. */
  predicate StartsOnce(t: string, p: string)
  {
    |p| <= |t| < 2 * |p| && t[..|p|] == p
  }

  /** A plain rule whose token starts a text too short to hold it twice
      replaces that one occurrence and keeps the rest. */
  lemma PrefixFires(t: string, r: Rule)
    requires !r.bounded && StartsOnce(t, r.pattern)
    ensures ReplaceAll(t, r) == r.value + t[|r.pattern|..]
  {
    var p := r.pattern;
    assert t == p + t[|p|..];
    assert r == Rule(p, false, r.value);
    ShortAbsent(t[|p|..], p);
    TokenThenSuffix(p, t[|p|..], r.value);
  }

  /** Rule m of a chain that has left such a text alone so far replaces
      the token it starts with. */
  lemma PrefixStep(t: string, rules: seq<Rule>, m: nat, p: Token, v: string)
    requires m < |rules| && rules[m] == Rule(p, false, v) && ApplyChain(t, rules[..m]) == t
    requires StartsOnce(t, p)
    ensures ApplyChain(t, rules[..m + 1]) == v + t[|p|..]
  {
    PrefixFires(t, rules[m]);
    ChainFires(t, rules, m, v + t[|p|..]);
  }

  lemma ForeignIdleAt(s: string, r: Rule, i: nat)
    requires i < |r.pattern| && r.pattern[i] !in s
    ensures ReplaceAll(s, r) == s
  {
    ForeignCharIdle(s, r, r.pattern[i]);
  }

  /** A rule is idle on a text shorter than its pattern. */
  lemma ShortIdle(s: string, r: Rule)
    requires |s| < |r.pattern|
    ensures ReplaceAll(s, r) == s
  {
    ShortAbsent(s, r.pattern);
    AbsentIsIdle(s, r);
  }

  /** Once `q` is gone after rule i, rules with non-empty values free of
      `q`'s characters keep it gone. */
  lemma {:induction false} AbsentThrough(s: string, rules: seq<Rule>, i: nat, m: nat, q: string)
    requires i < m <= |rules| && q != []
    requires Absent(ApplyChain(s, rules[..i + 1]), q)
    requires forall k :: i < k < m ==> rules[k].value != [] && forall c :: c in q ==> c !in rules[k].value
    ensures Absent(ApplyChain(s, rules[..m]), q)
    decreases m
  {
    if m > i + 1 {
      AbsentThrough(s, rules, i, m - 1, q);
      ChainStep(s, rules, m - 1);
      ReplaceKeepsAbsent(ApplyChain(s, rules[..m - 1]), rules[m - 1], q);
    }
  }

  /** A shadowed rule never fires: when a plain rule i for a token contained
      in rule j's token runs first, and every value from rule i up to rule j
      is non-empty and shares no character with rule j's token, then rule j
      finds nothing to replace, whatever the template. */
  lemma ShadowedRuleIdle(s: string, rules: seq<Rule>, i: nat, j: nat, at: nat)
    requires i < j < |rules|
    requires !rules[i].bounded && OccursAt(rules[j].pattern, rules[i].pattern, at)
    requires forall k :: i <= k < j ==> rules[k].value != [] && forall c :: c in rules[j].pattern ==> c !in rules[k].value
    ensures ApplyChain(s, rules[..j + 1]) == ApplyChain(s, rules[..j])
  {
    var p, q := rules[i].pattern, rules[j].pattern;
    assert forall c :: c in p ==> c in q by {
      assert p == q[at..at + |p|];
    }
    ChainStep(s, rules, i);
    ReplaceClears(ApplyChain(s, rules[..i]), rules[i]);
    AbsentInside(ApplyChain(s, rules[..i + 1]), p, q, at);
    AbsentThrough(s, rules, i, j, q);
    ChainStep(s, rules, j);
    AbsentIsIdle(ApplyChain(s, rules[..j]), rules[j]);
  }
}
