/** The per-user ledgers that decide who may use the order form: the
    remaining-uses counts (`limits.json`) and the time-based access expiry
    (`access.json`), each a dictionary keyed by user id that a call loads,
    changes in one entry and writes back. Times are integer milliseconds. */
module Ledger {
  import opened Common

  /** Milliseconds in a day; `setDate(getDate() + days)` is taken as adding whole days. */
  const DayMs: int := 86400000

  /** What `checkUserAccess` returns: the `hasAccess`, `noAccess` and
      `expired` flags of the result object and its expiry date, if any. */
  datatype AccessStatus = AccessStatus(hasAccess: bool, noAccess: bool, expired: bool, expiry: Option<int>)

  /** How the gate in front of the order form answers. */
  datatype GateOutcome = RejectNoAccess | RejectExpired | RejectNoUses | Proceed

  class Ledgers {
    /** Remaining uses per user. */
    var limits: map<string, int>
    /** Access expiry per user. */
    var access: map<string, int>

    constructor(limits0: map<string, int>, access0: map<string, int>)
      ensures limits == limits0 && access == access0
    {
      limits := limits0;
      access := access0;
    }

    /** `getUserLimit`: the stored count, 0 for an unknown user. */
    function GetUserLimit(user: string): int
      reads this
    {
      if user in limits then limits[user] else 0
    }

    /** `setUserLimit`: overwrite one user's count. */
    method SetUserLimit(user: string, limit: int)
      modifies this
      ensures limits == old(limits)[user := limit]
      ensures GetUserLimit(user) == limit
      ensures access == old(access)
    {
      limits := limits[user := limit];
    }

    /** `decreaseUserLimit`: take one use from a known user with uses left
        and return what remains; an unknown user gets 0 and nothing is written. */
    method DecreaseUserLimit(user: string) returns (remaining: int)
      modifies this
      ensures user !in old(limits) ==> remaining == 0 && limits == old(limits)
      ensures user in old(limits) ==> limits == Decreased(old(limits), user) && remaining == limits[user]
      ensures remaining == GetUserLimit(user)
      ensures old(GetUserLimit(user)) >= 0 ==> remaining >= 0
      ensures access == old(access)
    {
      if user in limits {
        if limits[user] > 0 {
          limits := limits[user := limits[user] - 1];
        }
        remaining := limits[user];
      } else {
        remaining := 0;
      }
    }

    /** `setUserAccess`: access for `days` days from `now`, replacing any earlier expiry. */
    method SetUserAccess(user: string, days: int, now: int) returns (expiry: int)
      modifies this
      ensures expiry == now + days * DayMs
      ensures access == old(access)[user := expiry]
      ensures limits == old(limits)
    {
      expiry := now + days * DayMs;
      access := access[user := expiry];
    }

    /** `checkUserAccess` at time `now`. */
    function CheckUserAccess(user: string, now: int): (r: AccessStatus)
      reads this
      ensures r.hasAccess <==> user in access && now <= access[user]
      ensures r.noAccess <==> user !in access
      ensures r.expired <==> user in access && now > access[user]
      ensures r.expiry.Some? <==> user in access
      ensures user in access ==> r.expiry == Some(access[user])
    {
      if user !in access then AccessStatus(false, true, false, None)
      else if now > access[user] then AccessStatus(false, false, true, Some(access[user]))
      else AccessStatus(true, false, false, Some(access[user]))
    }

    /** The gate of the form button, reading the ledgers at time `now`. */
    function Gate(user: string, now: int): GateOutcome
      reads this
    {
      GateOf(CheckUserAccess(user, now), GetUserLimit(user))
    }

    /** Only time-based access opens the form: the remaining-uses count is
        never consulted, so a user with uses left but no access is turned away. */
    lemma GateIsAccess(user: string, now: int)
      ensures Gate(user, now) == Proceed <==> user in access && now <= access[user]
      ensures Gate(user, now) != RejectNoUses
      ensures user !in access ==> Gate(user, now) == RejectNoAccess
      ensures user in access && now > access[user] ==> Gate(user, now) == RejectExpired
    {
      StatusesNeverReachLimit(CheckUserAccess(user, now), GetUserLimit(user));
    }

    /** The accounting after a mail was sent at time `now`: with access
        nothing is counted, otherwise one use is taken; the remaining count
        is returned in the second case. */
    method RecordSend(user: string, now: int) returns (remaining: Option<int>)
      modifies this
      ensures user in old(access) && now <= old(access)[user] ==> remaining == None && limits == old(limits)
      ensures !(user in old(access) && now <= old(access)[user]) ==>
                limits == (if user in old(limits) then Decreased(old(limits), user) else old(limits)) &&
                remaining == Some(if user in old(limits) then limits[user] else 0)
      ensures access == old(access)
    {
      var status := CheckUserAccess(user, now);
      if status.hasAccess {
        remaining := None;
      } else {
        var r := DecreaseUserLimit(user);
        remaining := Some(r);
      }
    }
  }

  /** The count map after one use is taken from `user`: positive counts go down by one. */
  function Decreased(limits: map<string, int>, user: string): (r: map<string, int>)
    requires user in limits
    ensures user in r && r.Keys == limits.Keys
  {
    if limits[user] > 0 then limits[user := limits[user] - 1] else limits
  }

  /** Taking a use never makes a count negative, takes exactly one use when
      one is left, and touches no other user's count. */
  lemma DecreasedSpec(limits: map<string, int>, user: string)
    requires user in limits
    ensures limits[user] >= 0 ==> Decreased(limits, user)[user] >= 0
    ensures limits[user] > 0 ==> Decreased(limits, user)[user] == limits[user] - 1
    ensures limits[user] <= 0 ==> Decreased(limits, user)[user] == limits[user]
    ensures forall v :: v in limits && v != user ==> Decreased(limits, user)[v] == limits[v]
  {
  }

  /** A count only reaches zero: `n` sends take a count of `n` to 0 and never below. */
  lemma {:induction false} DecreasedRepeatedly(limits: map<string, int>, user: string, n: nat)
    requires user in limits && limits[user] >= 0
    ensures DecreasedTimes(limits, user, n)[user] == if n <= limits[user] then limits[user] - n else 0
  {
    if n > 0 {
      DecreasedRepeatedly(limits, user, n - 1);
    }
  }

  /** `n` successive decrements of one user. */
  function DecreasedTimes(limits: map<string, int>, user: string, n: nat): (r: map<string, int>)
    requires user in limits
    ensures user in r
  {
    if n == 0 then limits else Decreased(DecreasedTimes(limits, user, n - 1), user)
  }

  /** The gate: without access, a missing record and an expired one are
      turned away first; only then is the remaining-uses count read. */
  function GateOf(status: AccessStatus, limit: int): (r: GateOutcome)
    ensures r == Proceed <==> status.hasAccess || (!status.noAccess && !status.expired && limit != 0)
  {
    if !status.hasAccess then
      if status.noAccess then RejectNoAccess
      else if status.expired then RejectExpired
      else if limit == 0 then RejectNoUses
      else Proceed
    else Proceed
  }

  /** Every status `checkUserAccess` can return that denies access carries
      `noAccess` or `expired`, so the gate's remaining-uses branch is dead. */
  lemma StatusesNeverReachLimit(status: AccessStatus, limit: int)
    requires status.hasAccess || status.noAccess || status.expired
    ensures GateOf(status, limit) != RejectNoUses
    ensures GateOf(status, limit) == Proceed <==> status.hasAccess
    ensures GateOf(status, limit) == GateOf(status, 0)
  {
  }
}
