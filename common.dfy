/** Small building blocks shared by every module: an Option type, the string
    truthiness of JavaScript's `||`, ASCII character classes and
    `String.prototype.trim`. */
module Common {

  datatype Option<+T> = None | Some(value: T)

  /** `a || b` on two strings: the empty string is the only falsy string. */
  function Or(a: string, b: string): (r: string)
    ensures r == a || r == b
    ensures r == "" <==> a == "" && b == ""
    ensures a != "" ==> r == a
  {
    if a != "" then a else b
  }

  /** An optional value (`x?.field`) with a string fallback (`|| b`). */
  function OrElse(a: Option<string>, b: string): (r: string)
    ensures a.Some? && a.value != "" ==> r == a.value
    ensures (a.None? || a.value == "") ==> r == b
  {
    if a.Some? then Or(a.value, b) else b
  }

  predicate IsDigit(c: char) { '0' <= c <= '9' }

  predicate IsUpperAscii(c: char) { 'A' <= c <= 'Z' }

  predicate IsLowerAscii(c: char) { 'a' <= c <= 'z' }

  /** The characters `\w` matches in a JavaScript regular expression without the `u` flag. */
  predicate IsWordChar(c: char) { IsDigit(c) || IsUpperAscii(c) || IsLowerAscii(c) || c == '_' }

  /** `"x".toUpperCase()` restricted to ASCII letters; every other character is kept. */
  function UpperAscii(c: char): (r: char)
    ensures IsLowerAscii(c) ==> IsUpperAscii(r) && r as int == c as int - 32
    ensures !IsLowerAscii(c) ==> r == c
  {
    if IsLowerAscii(c) then (c as int - 32) as char else c
  }

  /** The ECMAScript WhiteSpace and LineTerminator code points, which `trim` removes. */
  predicate IsJsWhitespace(c: char)
  {
    c == '\t' || c == '\n' || c == '\U{000B}' || c == '\U{000C}' || c == '\r' || c == ' ' ||
    c == '\U{00A0}' || c == '\U{1680}' || ('\U{2000}' <= c <= '\U{200A}') ||
    c == '\U{2028}' || c == '\U{2029}' || c == '\U{202F}' || c == '\U{205F}' || c == '\U{3000}' ||
    c == '\U{FEFF}'
  }

  function TrimStart(s: string): (r: string)
    ensures |r| <= |s|
  {
    if s != [] && IsJsWhitespace(s[0]) then TrimStart(s[1..]) else s
  }

  function TrimEnd(s: string): (r: string)
    ensures |r| <= |s|
  {
    if s != [] && IsJsWhitespace(s[|s| - 1]) then TrimEnd(s[..|s| - 1]) else s
  }

  /** `TrimStart` keeps a suffix that does not start with whitespace. */
  lemma {:induction false} TrimStartShape(s: string)
    ensures TrimStart(s) == s[|s| - |TrimStart(s)|..]
    ensures TrimStart(s) == [] || !IsJsWhitespace(TrimStart(s)[0])
  {
    if s != [] && IsJsWhitespace(s[0]) {
      TrimStartShape(s[1..]);
    }
  }

  /** `TrimEnd` keeps a prefix that does not end with whitespace. */
  lemma {:induction false} TrimEndShape(s: string)
    ensures TrimEnd(s) == s[..|TrimEnd(s)|]
    ensures TrimEnd(s) == [] || !IsJsWhitespace(TrimEnd(s)[|TrimEnd(s)| - 1])
  {
    if s != [] && IsJsWhitespace(s[|s| - 1]) {
      TrimEndShape(s[..|s| - 1]);
    }
  }

  /** Everything `TrimStart` cuts away is white space. */
  lemma {:induction false} TrimStartCut(s: string)
    ensures forall i :: 0 <= i < |s| - |TrimStart(s)| ==> IsJsWhitespace(s[i])
  {
    if s != [] && IsJsWhitespace(s[0]) {
      TrimStartCut(s[1..]);
    }
  }

  /** Everything `TrimEnd` cuts away is white space. */
  lemma {:induction false} TrimEndCut(s: string)
    ensures forall i :: |TrimEnd(s)| <= i < |s| ==> IsJsWhitespace(s[i])
  {
    if s != [] && IsJsWhitespace(s[|s| - 1]) {
      TrimEndCut(s[..|s| - 1]);
    }
  }

  /** `s.trim()`. */
  function Trim(s: string): string
  {
    TrimEnd(TrimStart(s))
  }

  /** Trimming removes exactly the surrounding whitespace: the result is a
      slice of the input that neither starts nor ends with whitespace, and
      everything cut away on either side is whitespace. */
  lemma TrimIsSlice(s: string)
    ensures exists a, b ::
              && 0 <= a <= b <= |s| && Trim(s) == s[a..b]
              && (forall i :: 0 <= i < a ==> IsJsWhitespace(s[i]))
              && (forall i :: b <= i < |s| ==> IsJsWhitespace(s[i]))
    ensures Trim(s) == [] || (!IsJsWhitespace(Trim(s)[0]) && !IsJsWhitespace(Trim(s)[|Trim(s)| - 1]))
  {
    var t := TrimStart(s);
    var a := |s| - |t|;
    var b := a + |TrimEnd(t)|;
    TrimStartShape(s);
    TrimEndShape(t);
    assert Trim(s) == s[a..b];
    assert forall i :: 0 <= i < a ==> IsJsWhitespace(s[i]) by {
      TrimStartCut(s);
    }
    assert forall i :: b <= i < |s| ==> IsJsWhitespace(s[i]) by {
      TrimEndCut(t);
      assert forall i :: b <= i < |s| ==> s[i] == t[i - a];
    }
    if Trim(s) != [] {
      assert Trim(s)[0] == t[0];
    }
  }

  /** Text without white space is its own trim. */
  lemma TrimPlain(s: string)
    requires forall c :: c in s ==> !IsJsWhitespace(c)
    ensures Trim(s) == s
  {
    if s != [] {
      assert s[0] in s && s[|s| - 1] in s;
    }
  }

  /** Trimming keeps every character that is not white space. */
  lemma TrimKeeps(s: string, i: nat)
    requires i < |s| && !IsJsWhitespace(s[i])
    ensures s[i] in Trim(s)
  {
    var t := TrimStart(s);
    var a := |s| - |t|;
    TrimStartCut(s);
    TrimStartShape(s);
    assert a <= i;
    assert t[i - a] == s[i];
    var r := TrimEnd(t);
    TrimEndCut(t);
    TrimEndShape(t);
    assert i - a < |r|;
    assert r[i - a] == s[i];
  }

  /** Text that does not start with white space loses only its trailing white space. */
  lemma TrimSolidStart(s: string)
    requires s != [] && !IsJsWhitespace(s[0])
    ensures Trim(s) == TrimEnd(s)
  {
  }

  /** Trimming twice changes nothing. */
  lemma TrimIdempotent(s: string)
    ensures Trim(Trim(s)) == Trim(s)
  {
    var t := Trim(s);
    TrimIsSlice(s);
    if t != [] {
      assert TrimStart(t) == t;
      assert TrimEnd(t) == t;
    }
  }

  predicate StartsWith(s: string, prefix: string)
  {
    |prefix| <= |s| && s[..|prefix|] == prefix
  }

  /** Number of elements of `s` satisfying `p` (the length of `s.filter(p)`). */
  function Count<T>(s: seq<T>, p: T -> bool): (n: nat)
    ensures n <= |s|
  {
    if s == [] then 0 else (if p(s[0]) then 1 else 0) + Count(s[1..], p)
  }

  /** `s.filter(p)`. */
  function Filter<T>(s: seq<T>, p: T -> bool): (r: seq<T>)
    ensures |r| <= |s|
  {
    if s == [] then [] else (if p(s[0]) then [s[0]] else []) + Filter(s[1..], p)
  }

  /** The filtered sequence has one element per element satisfying `p`, and
      holds exactly the elements of `s` that satisfy `p`. */
  lemma {:induction false} FilterSpec<T>(s: seq<T>, p: T -> bool)
    ensures |Filter(s, p)| == Count(s, p)
    ensures forall x :: x in Filter(s, p) <==> x in s && p(x)
  {
    if s != [] {
      FilterSpec(s[1..], p);
      assert forall x :: x in s <==> x == s[0] || x in s[1..];
    }
  }

  lemma {:induction false} CountAppend<T>(s: seq<T>, t: seq<T>, p: T -> bool)
    ensures Count(s + t, p) == Count(s, p) + Count(t, p)
  {
    if s != [] {
      assert (s + t)[1..] == s[1..] + t;
      assert (s + t)[0] == s[0];
      CountAppend(s[1..], t, p);
    } else {
      assert s + t == t;
    }
  }

  lemma {:induction false} FilterAppend<T>(s: seq<T>, t: seq<T>, p: T -> bool)
    ensures Filter(s + t, p) == Filter(s, p) + Filter(t, p)
  {
    if s != [] {
      assert (s + t)[1..] == s[1..] + t;
      assert (s + t)[0] == s[0];
      FilterAppend(s[1..], t, p);
    } else {
      assert s + t == t;
    }
  }

  /** Filtering keeps a sequence whose every element passes, and empties one
      where none does. */
  lemma {:induction false} FilterAllOrNone<T>(s: seq<T>, p: T -> bool)
    ensures (forall x :: x in s ==> p(x)) ==> Filter(s, p) == s
    ensures (forall x :: x in s ==> !p(x)) ==> Filter(s, p) == []
  {
    if s != [] {
      FilterAllOrNone(s[1..], p);
      assert s[0] in s;
      assert forall x :: x in s[1..] ==> x in s;
    }
  }

  /** Nothing is counted where no element satisfies `p`. */
  lemma {:induction false} CountNone<T>(s: seq<T>, p: T -> bool)
    requires forall x :: x in s ==> !p(x)
    ensures Count(s, p) == 0
  {
    if s != [] {
      assert s[0] in s;
      assert forall x :: x in s[1..] ==> x in s;
      CountNone(s[1..], p);
    }
  }

  /** A positive count means some element satisfies `p`. */
  lemma {:induction false} CountPositive<T>(s: seq<T>, p: T -> bool)
    requires Count(s, p) > 0
    ensures exists x :: x in s && p(x)
  {
    if p(s[0]) {
      assert s[0] in s;
    } else {
      CountPositive(s[1..], p);
      assert forall x :: x in s[1..] ==> x in s;
    }
  }

  /** Filtering on `p` does not change how many elements satisfy a `q` that implies `p`. */
  lemma {:induction false} CountOfFilter<T>(s: seq<T>, p: T -> bool, q: T -> bool)
    requires forall x :: q(x) ==> p(x)
    ensures Count(Filter(s, p), q) == Count(s, q)
  {
    if s != [] {
      CountOfFilter(s[1..], p, q);
      CountAppend(if p(s[0]) then [s[0]] else [], Filter(s[1..], p), q);
    }
  }

  /** Replacing one element changes the count by what the two elements contribute. */
  lemma CountUpdate<T>(s: seq<T>, i: nat, x: T, p: T -> bool)
    requires i < |s|
    ensures Count(s[i := x], p) == Count(s, p) - (if p(s[i]) then 1 else 0) + (if p(x) then 1 else 0)
  {
    var a, b := s[..i], s[i + 1..];
    assert s == a + [s[i]] + b;
    assert s[i := x] == a + [x] + b;
    CountAppend(a + [s[i]], b, p);
    CountAppend(a, [s[i]], p);
    CountAppend(a + [x], b, p);
    CountAppend(a, [x], p);
  }

  /** Every element satisfies exactly one of `p` and its negation. */
  lemma {:induction false} CountComplement<T>(s: seq<T>, p: T -> bool, q: T -> bool)
    requires forall x :: q(x) <==> !p(x)
    ensures Count(s, p) + Count(s, q) == |s|
  {
    if s != [] {
      CountComplement(s[1..], p, q);
    }
  }

  /** Two predicates no element satisfies together count at most the length. */
  lemma {:induction false} CountDisjoint<T>(s: seq<T>, p: T -> bool, q: T -> bool)
    requires forall x :: !(p(x) && q(x))
    ensures Count(s, p) + Count(s, q) <= |s|
  {
    if s != [] {
      CountDisjoint(s[1..], p, q);
    }
  }

  /** The first position of `s` whose element satisfies `p` (`findIndex`, with None for -1). */
  function FirstIndex<T>(s: seq<T>, p: T -> bool): (r: Option<nat>)
    ensures r.Some? ==> r.value < |s| && p(s[r.value]) && forall j :: 0 <= j < r.value ==> !p(s[j])
    ensures r.None? ==> forall j :: 0 <= j < |s| ==> !p(s[j])
  {
    if s == [] then None
    else if p(s[0]) then Some(0)
    else match FirstIndex(s[1..], p)
      case None => None
      case Some(k) => Some(k + 1)
  }
  /** No element satisfies `p`, so there is no first one. */
  lemma NoneFound<T>(s: seq<T>, p: T -> bool)
    requires forall x :: x in s ==> !p(x)
    ensures FirstIndex(s, p) == None
  {
  }

  /** The first element satisfying `p` is the first such element after a prefix without one. */
  lemma {:induction false} FirstIndexAfter<T>(a: seq<T>, x: T, b: seq<T>, p: T -> bool)
    requires forall y :: y in a ==> !p(y)
    requires p(x)
    ensures FirstIndex(a + [x] + b, p) == Some(|a|)
  {
    if a != [] {
      assert (a + [x] + b)[1..] == a[1..] + [x] + b;
      assert a[0] in a;
      assert forall y :: y in a[1..] ==> y in a;
      FirstIndexAfter(a[1..], x, b, p);
    }
  }
}
