/** Redeem codes and the admin API over them: the code generator, the
    redeem path of the local store, the batch generator behind
    `/api/generate`, the `/api/stats` and `/api/codes` views, and the
    24-hour admin tokens. Random draws are inputs; times are integer
    milliseconds. */
module Codes {
  import opened Common
  import Ledger

  /** The characters a code is drawn from. */
  const Alphabet: string := "ABCDEFGHIJKLMNOPQRSTUVWXYZ0123456789"

  const LifetimeDays: int := 36500

  const MonthDays: int := 31

  /** One stored code. */
  datatype CodeEntry = CodeEntry(code: string, codeType: string, used: bool,
                                 usedBy: Option<string>, usedAt: Option<int>)

  /** What a redeem attempt answers. */
  datatype RedeemOutcome = InvalidOrUsed | Activated(codeType: string, expiry: int) | UnknownType

  /** What `/api/generate` answers. */
  datatype GenerateOutcome = InvalidParameters | Generated(codes: seq<string>) | DrawsExhausted

  /** The counters of `/api/stats`. */
  datatype CodeStats = CodeStats(total: nat, unused: nat, used: nat, lifetime: nat, days31: nat)

  // ---------------------------------------------------------------- the generator

  /** Sixteen values of `Math.floor(Math.random() * 36)`. */
  predicate ValidDraws(d: seq<nat>)
  {
    |d| == 16 && forall i :: 0 <= i < 16 ==> d[i] < 36
  }

  /** The characters for a run of draws. */
  function Chars(d: seq<nat>): (r: string)
    requires forall i :: 0 <= i < |d| ==> d[i] < 36
    ensures |r| == |d|
  {
    seq(|d|, i requires 0 <= i < |d| => Alphabet[d[i]])
  }

  /** `parts.join(sep)`. */
  function Join(parts: seq<string>, sep: string): string
  {
    if |parts| == 0 then ""
    else if |parts| == 1 then parts[0]
    else parts[0] + sep + Join(parts[1..], sep)
  }

  /** The four groups of four characters. */
  function Parts(d: seq<nat>): (r: seq<string>)
    requires ValidDraws(d)
  {
    [Chars(d[0..4]), Chars(d[4..8]), Chars(d[8..12]), Chars(d[12..16])]
  }

  /** The code the draws give: `XXXX-XXXX-XXXX-XXXX`. */
  function CodeText(d: seq<nat>): string
    requires ValidDraws(d)
  {
    Join(Parts(d), "-")
  }

  /** `generateCode`: four groups, each built one character at a time, joined with dashes. */
  method GenerateCode(draws: seq<nat>) returns (code: string)
    requires ValidDraws(draws)
    ensures code == CodeText(draws)
  {
    var parts: seq<string> := [];
    for i := 0 to 4
      invariant |parts| == i
      invariant forall k :: 0 <= k < i ==> parts[k] == Chars(draws[4 * k..4 * k + 4])
    {
      var part := "";
      for j := 0 to 4
        invariant part == Chars(draws[4 * i..4 * i + j])
      {
        assert draws[4 * i..4 * i + j + 1] == draws[4 * i..4 * i + j] + [draws[4 * i + j]];
        part := part + [Alphabet[draws[4 * i + j]]];
      }
      parts := parts + [part];
    }
    assert parts == Parts(draws);
    code := Join(parts, "-");
  }

  /** The character of draw `i`, by arithmetic on the character codes. */
  function Symbol(i: nat): (c: char)
    requires i < 36
  {
    if i < 26 then ('A' as int + i) as char else ('0' as int + i - 26) as char
  }

  /** The draw a code character stands for. */
  function Unsymbol(c: char): nat
  {
    if 'A' <= c <= 'Z' then c as int - 'A' as int
    else if '0' <= c <= '9' then c as int - '0' as int + 26
    else 0
  }

  lemma AlphabetIsSymbols()
    ensures |Alphabet| == 36
    ensures forall i :: 0 <= i < 36 ==> Alphabet[i] == Symbol(i)
  {
  }

  /** Reading the draws back off a code. */
  function DrawsOf(code: string): (d: seq<nat>)
    requires |code| == 19
    ensures |d| == 16
  {
    seq(16, k requires 0 <= k < 16 => Unsymbol(code[k + k / 4]))
  }

  /** The layout of a code: 19 characters, dashes at 4, 9 and 14, and the
      draws' characters in between. */
  lemma CodeLayout(d: seq<nat>)
    requires ValidDraws(d)
    ensures |CodeText(d)| == 19
    ensures CodeText(d)[4] == '-' && CodeText(d)[9] == '-' && CodeText(d)[14] == '-'
    ensures forall k :: 0 <= k < 16 ==> CodeText(d)[k + k / 4] == Alphabet[d[k]]
  {
    var p := Parts(d);
    assert Join(p[3..], "-") == p[3];
    assert Join(p[2..], "-") == p[2] + "-" + p[3];
    assert Join(p[1..], "-") == p[1] + "-" + (p[2] + "-" + p[3]);
    assert CodeText(d) == p[0] + "-" + (p[1] + "-" + (p[2] + "-" + p[3]));
    forall k | 0 <= k < 16 ensures CodeText(d)[k + k / 4] == Alphabet[d[k]] {
      assert p[k / 4][k % 4] == Alphabet[d[k]];
    }
  }

  /** A code gives back the draws it was made from. */
  lemma DrawsRoundTrip(d: seq<nat>)
    requires ValidDraws(d)
    ensures |CodeText(d)| == 19 && DrawsOf(CodeText(d)) == d
  {
    CodeLayout(d);
    AlphabetIsSymbols();
    forall k | 0 <= k < 16 ensures DrawsOf(CodeText(d))[k] == d[k] {
      assert Alphabet[d[k]] == Symbol(d[k]);
    }
  }

  /** Different draws give different codes. */
  lemma CodeTextInjective(d1: seq<nat>, d2: seq<nat>)
    requires ValidDraws(d1) && ValidDraws(d2) && CodeText(d1) == CodeText(d2)
    ensures d1 == d2
  {
    DrawsRoundTrip(d1);
    DrawsRoundTrip(d2);
  }

  // ---------------------------------------------------------------- the views

  predicate Unused(e: CodeEntry) { !e.used }

  predicate IsUsed(e: CodeEntry) { e.used }

  predicate IsLifetime(e: CodeEntry) { e.codeType == "lifetime" }

  predicate IsMonth(e: CodeEntry) { e.codeType == "31days" }

  /** `/api/stats`. */
  function Stats(codes: seq<CodeEntry>): CodeStats
  {
    CodeStats(|codes|, Count(codes, Unused), Count(codes, IsUsed),
              Count(codes, IsLifetime), Count(codes, IsMonth))
  }

  /** Every code is either used or unused, and no code is of both types. */
  lemma StatsAddUp(codes: seq<CodeEntry>)
    ensures Stats(codes).unused + Stats(codes).used == Stats(codes).total
    ensures Stats(codes).lifetime + Stats(codes).days31 <= Stats(codes).total
  {
    CountComplement(codes, Unused, IsUsed);
    CountDisjoint(codes, IsLifetime, IsMonth);
  }

  /** `/api/codes?filter=...`; a missing or unknown filter lists everything. */
  function Listed(codes: seq<CodeEntry>, filter: string): seq<CodeEntry>
  {
    if filter == "31days" then Filter(codes, IsMonth)
    else if filter == "lifetime" then Filter(codes, IsLifetime)
    else if filter == "unused" then Filter(codes, Unused)
    else if filter == "used" then Filter(codes, IsUsed)
    else codes
  }

  /** The listing is the stored codes that pass the filter, as many as the
      statistics count; `unused` and `used` split the store between them. */
  lemma ListedSpec(codes: seq<CodeEntry>, filter: string)
    ensures filter == "unused" ==>
      (forall e :: e in Listed(codes, filter) <==> e in codes && !e.used) &&
      |Listed(codes, filter)| == Stats(codes).unused
    ensures filter == "used" ==>
      (forall e :: e in Listed(codes, filter) <==> e in codes && e.used) &&
      |Listed(codes, filter)| == Stats(codes).used
    ensures filter == "lifetime" ==>
      (forall e :: e in Listed(codes, filter) <==> e in codes && e.codeType == "lifetime") &&
      |Listed(codes, filter)| == Stats(codes).lifetime
    ensures filter == "31days" ==>
      (forall e :: e in Listed(codes, filter) <==> e in codes && e.codeType == "31days") &&
      |Listed(codes, filter)| == Stats(codes).days31
    ensures filter !in {"unused", "used", "lifetime", "31days"} ==> Listed(codes, filter) == codes
    ensures |Listed(codes, "unused")| + |Listed(codes, "used")| == |codes|
  {
    FilterSpec(codes, Unused);
    FilterSpec(codes, IsUsed);
    FilterSpec(codes, IsLifetime);
    FilterSpec(codes, IsMonth);
    StatsAddUp(codes);
  }

  // ---------------------------------------------------------------- redeeming

  /** The position of the first unused entry for `code`. */
  function FindUnused(codes: seq<CodeEntry>, code: string): (r: Option<nat>)
    ensures r.Some? ==> r.value < |codes| && codes[r.value].code == code && !codes[r.value].used
    ensures r.Some? ==> forall j :: 0 <= j < r.value ==> codes[j].code != code || codes[j].used
    ensures r.None? <==> forall j :: 0 <= j < |codes| ==> codes[j].code != code || codes[j].used
  {
    if codes == [] then None
    else if codes[0].code == code && !codes[0].used then Some(0)
    else match FindUnused(codes[1..], code)
      case None => None
      case Some(k) => Some(k + 1)
  }

  /** The entry after it was redeemed by `user` at `now`. */
  function Consumed(e: CodeEntry, user: string, now: int): CodeEntry
  {
    e.(used := true, usedBy := Some(user), usedAt := Some(now))
  }

  /** How many unused entries hold `code`. */
  function UnusedCopies(codes: seq<CodeEntry>, code: string): nat
  {
    Count(codes, (e: CodeEntry) => e.code == code && !e.used)
  }

  /** Redeeming uses up exactly one unused copy of the code. */
  lemma RedeemUsesOneCopy(codes: seq<CodeEntry>, code: string, user: string, now: int)
    requires FindUnused(codes, code).Some?
    ensures var i := FindUnused(codes, code).value;
      UnusedCopies(codes[i := Consumed(codes[i], user, now)], code) == UnusedCopies(codes, code) - 1
  {
    var i := FindUnused(codes, code).value;
    CountUpdate(codes, i, Consumed(codes[i], user, now), (e: CodeEntry) => e.code == code && !e.used);
  }

  /** Some unused copy is found exactly when one is counted. */
  lemma {:induction false} UnusedCopiesFound(codes: seq<CodeEntry>, code: string)
    ensures UnusedCopies(codes, code) > 0 <==> FindUnused(codes, code).Some?
  {
    if codes != [] {
      UnusedCopiesFound(codes[1..], code);
    }
  }

  /** A code stored once can be redeemed once: after that, nothing is found. */
  lemma RedeemedOnce(codes: seq<CodeEntry>, code: string, user: string, now: int)
    requires UnusedCopies(codes, code) == 1
    ensures FindUnused(codes, code).Some?
    ensures var i := FindUnused(codes, code).value;
      FindUnused(codes[i := Consumed(codes[i], user, now)], code).None?
  {
    UnusedCopiesFound(codes, code);
    var i := FindUnused(codes, code).value;
    RedeemUsesOneCopy(codes, code, user, now);
    UnusedCopiesFound(codes[i := Consumed(codes[i], user, now)], code);
  }

  class CodeStore {
    var codes: seq<CodeEntry>

    constructor(codes0: seq<CodeEntry>)
      ensures codes == codes0
    {
      codes := codes0;
    }

    /** `redeemCode` on the local store: the first unused entry for the
        code is marked used before its type is looked at, so a code of an
        unknown type is spent without granting anything. */
    method Redeem(code: string, user: string, now: int, ledgers: Ledger.Ledgers) returns (r: RedeemOutcome)
      modifies this, ledgers
      ensures FindUnused(old(codes), code).None? ==>
                r == InvalidOrUsed && codes == old(codes) && ledgers.access == old(ledgers.access)
      ensures FindUnused(old(codes), code).Some? ==>
                var i := FindUnused(old(codes), code).value;
                var e := old(codes)[i];
                && codes == old(codes)[i := Consumed(e, user, now)]
                && (e.codeType == "lifetime" ==>
                      r == Activated("lifetime", now + LifetimeDays * Ledger.DayMs) &&
                      ledgers.access == old(ledgers.access)[user := now + LifetimeDays * Ledger.DayMs])
                && (e.codeType == "31days" ==>
                      r == Activated("31days", now + MonthDays * Ledger.DayMs) &&
                      ledgers.access == old(ledgers.access)[user := now + MonthDays * Ledger.DayMs])
                && (e.codeType != "lifetime" && e.codeType != "31days" ==>
                      r == UnknownType && ledgers.access == old(ledgers.access))
      ensures ledgers.limits == old(ledgers.limits)
    {
      var found := FindUnused(codes, code);
      if found.None? {
        return InvalidOrUsed;
      }
      var i := found.value;
      var e := codes[i];
      codes := codes[i := Consumed(e, user, now)];
      if e.codeType == "lifetime" {
        var expiry := ledgers.SetUserAccess(user, LifetimeDays, now);
        r := Activated("lifetime", expiry);
      } else if e.codeType == "31days" {
        var expiry := ledgers.SetUserAccess(user, MonthDays, now);
        r := Activated("31days", expiry);
      } else {
        r := UnknownType;
      }
    }

    /** Whether a code is already stored or was made earlier in this batch. */
    static predicate Taken(stored: seq<CodeEntry>, made: seq<string>, code: string)
    {
      (exists e :: e in stored && e.code == code) || code in made
    }

    /** `/api/generate`: after the parameter check, `count` codes, each
        drawn again until it is neither stored nor made earlier in the
        batch, and each stored unused as it is made. `draws` stands for the
        random numbers; the model gives up if they run out. */
    method GenerateCodes(codeType: string, count: int, draws: seq<seq<nat>>) returns (r: GenerateOutcome)
      requires forall d :: d in draws ==> ValidDraws(d)
      modifies this
      ensures codeType == "" || count < 1 || count > 1000 ==> r == InvalidParameters && codes == old(codes)
      ensures codeType != "" && 1 <= count <= 1000 ==> !r.InvalidParameters?
      ensures r.Generated? ==>
        && |r.codes| == count
        && (forall i, j :: 0 <= i < j < |r.codes| ==> r.codes[i] != r.codes[j])
        && (forall c, e :: c in r.codes && e in old(codes) ==> e.code != c)
        && (forall c :: c in r.codes ==> exists d :: d in draws && c == CodeText(d))
        && codes == old(codes) + seq(|r.codes|, i requires 0 <= i < |r.codes| => CodeEntry(r.codes[i], codeType, false, None, None))
    {
      if codeType == "" || count < 1 || count > 1000 {
        return InvalidParameters;
      }
      var stored := codes;
      var made: seq<string> := [];
      var next := 0;
      while |made| < count
        invariant next <= |draws| && |made| <= count
        invariant stored == old(codes)
        invariant forall i, j :: 0 <= i < j < |made| ==> made[i] != made[j]
        invariant forall c, e :: c in made && e in stored ==> e.code != c
        invariant forall c :: c in made ==> exists d :: d in draws && c == CodeText(d)
        invariant codes == stored + seq(|made|, i requires 0 <= i < |made| => CodeEntry(made[i], codeType, false, None, None))
        decreases |draws| - next
      {
        var code := "";
        var isNew := false;
        ghost var start := next;
        while !isNew
          modifies {}
          invariant start <= next <= |draws|
          invariant isNew ==> start < next
          invariant isNew ==> !Taken(stored, made, code) && exists d :: d in draws && code == CodeText(d)
          decreases |draws| - next, if isNew then 0 else 1
        {
          if next == |draws| {
            return DrawsExhausted;
          }
          code := GenerateCode(draws[next]);
          assert draws[next] in draws;
          next := next + 1;
          isNew := !Taken(stored, made, code);
        }
        var entry := CodeEntry(code, codeType, false, None, None);
        ghost var prior := seq(|made|, i requires 0 <= i < |made| => CodeEntry(made[i], codeType, false, None, None));
        assert codes == stored + prior;
        codes := codes + [entry];
        made := made + [code];
        ghost var added := seq(|made|, i requires 0 <= i < |made| => CodeEntry(made[i], codeType, false, None, None));
        assert added == prior + [entry];
        assert codes == stored + added;
      }
      r := Generated(made);
    }
  }

  /** Every code of a batch starts out redeemable exactly once. */
  lemma GeneratedRedeemableOnce(stored: seq<CodeEntry>, made: seq<string>, codeType: string, c: string)
    requires forall i, j :: 0 <= i < j < |made| ==> made[i] != made[j]
    requires forall x, e :: x in made && e in stored ==> e.code != x
    requires c in made
    ensures UnusedCopies(stored + seq(|made|, i requires 0 <= i < |made| => CodeEntry(made[i], codeType, false, None, None)), c) == 1
  {
    var p := (e: CodeEntry) => e.code == c && !e.used;
    var added := seq(|made|, i requires 0 <= i < |made| => CodeEntry(made[i], codeType, false, None, None));
    assert Count(stored, p) == 0 by {
      CountNone(stored, p);
    }
    var k :| 0 <= k < |made| && made[k] == c;
    var before, after := added[..k], added[k + 1..];
    assert Count(before, p) == 0 by {
      forall e | e in before ensures !p(e) {
        var j :| 0 <= j < k && e == added[j];
      }
      CountNone(before, p);
    }
    assert Count(after, p) == 0 by {
      forall e | e in after ensures !p(e) {
        var j :| k < j < |made| && e == added[j];
      }
      CountNone(after, p);
    }
    assert Count(added, p) == 1 by {
      assert added == before + [added[k]] + after;
      CountAppend(before + [added[k]], after, p);
      CountAppend(before, [added[k]], p);
    }
    CountAppend(stored, added, p);
  }

  // ---------------------------------------------------------------- admin tokens

  /** A token is good for 24 hours after it was issued. */
  predicate Live(tokens: map<string, int>, token: string, now: int)
  {
    token in tokens && now - tokens[token] <= 24 * 60 * 60 * 1000
  }

  /** The names every plain JavaScript object inherits from `Object.prototype`.
      Looking one of them up on `{}` yields a function or an object, which is
      truthy. */
  const InheritedNames: set<string> :=
    {"constructor", "__proto__", "toString", "toLocaleString", "valueOf",
     "hasOwnProperty", "isPrototypeOf", "propertyIsEnumerable",
     "__defineGetter__", "__defineSetter__", "__lookupGetter__", "__lookupSetter__"}

  /** The verdict of `checkAuth` as written, on a table held in a plain object.
      An inherited name is found by the lookup, its `createdAt` is undefined,
      the age is NaN, and NaN is not greater than a day, so the name passes. */
  function AuthAsWritten(tokens: map<string, int>, token: string, now: int): bool
  {
    if token in tokens then now - tokens[token] <= 24 * 60 * 60 * 1000
    else token in InheritedNames
  }

  /** With no admin logged in, `?token=constructor` passes as written. */
  lemma ConstructorPassesAsWritten(now: int)
    ensures AuthAsWritten(map[], "constructor", now)
    ensures !Live(map[], "constructor", now)
  {
  }

  /** The lookup as written and an own-key check disagree exactly on the
      inherited names that were never issued, and there the lookup lets the
      request in. */
  lemma AuthAsWrittenVersusOwnKey(tokens: map<string, int>, token: string, now: int)
    ensures AuthAsWritten(tokens, token, now) != Live(tokens, token, now)
        <==> token !in tokens && token in InheritedNames
    ensures Live(tokens, token, now) ==> AuthAsWritten(tokens, token, now)
  {
  }

  class AdminSessions {
    /** Issue time of every admin token. */
    var tokens: map<string, int>

    constructor()
      ensures tokens == map[]
    {
      tokens := map[];
    }

    /** `/api/login`: the right password gets a new token; `password` and
        `admin` are absent when the request or the environment lacks them. */
    method Login(password: Option<string>, admin: Option<string>, token: string, now: int) returns (r: Option<string>)
      modifies this
      ensures password == admin ==> r == Some(token) && tokens == old(tokens)[token := now]
      ensures password != admin ==> r == None && tokens == old(tokens)
    {
      if password == admin {
        tokens := tokens[token := now];
        r := Some(token);
      } else {
        r := None;
      }
    }

    /** `checkAuth` as written: a live token passes and an expired one is
        deleted, but a name the table inherits passes too. */
    method CheckAuth(token: string, now: int) returns (ok: bool)
      modifies this
      ensures ok == AuthAsWritten(old(tokens), token, now)
      ensures ok <==> if token in old(tokens) then Live(old(tokens), token, now) else token in InheritedNames
      ensures !ok ==> token !in tokens
      ensures tokens == if token in old(tokens) && !ok then old(tokens) - {token} else old(tokens)
    {
      if token !in tokens {
        return token in InheritedNames;
      }
      if now - tokens[token] > 24 * 60 * 60 * 1000 {
        tokens := tokens - {token};
        return false;
      }
      return true;
    }

    /** `checkAuth` with an own-key lookup: exactly a live token passes, and
        an expired one is deleted. */
    method CheckOwnAuth(token: string, now: int) returns (ok: bool)
      modifies this
      ensures ok <==> Live(old(tokens), token, now)
      ensures !ok ==> token !in tokens
      ensures tokens == if token in old(tokens) && !ok then old(tokens) - {token} else old(tokens)
    {
      if token !in tokens {
        return false;
      }
      if now - tokens[token] > 24 * 60 * 60 * 1000 {
        tokens := tokens - {token};
        return false;
      }
      return true;
    }
  }

  /** A token that has expired stays expired. */
  lemma ExpiryIsFinal(tokens: map<string, int>, token: string, now: int, later: int)
    requires token in tokens && !Live(tokens, token, now) && now <= later
    ensures !Live(tokens, token, later)
  {
  }
}
