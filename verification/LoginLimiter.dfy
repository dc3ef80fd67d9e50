/** The table of failed logins: bounded, with a ban after five failures in a window (internal/session/store.go).
    Times are seconds. */
module LoginLimiter {
  import opened Paths

  const WINDOW: int := 5 * 60
  const BAN: int := 15 * 60
  const LIMIT: int := 5

  datatype Attempt = Attempt(failures: int, windowStart: int, bannedUntil: Option<int>, touchedAt: int)

  datatype Decision = Allowed | Invalid | Banned

  type Logins = map<string, Attempt>

  // ---- What the steps mean ---------------------------------------------------------------------

  predicate Expired(a: Attempt, now: int) {
    (a.bannedUntil.Some? ==> now >= a.bannedUntil.value) && now >= a.windowStart + WINDOW
  }

  function Purged(logins: Logins, now: int): Logins {
    map key | key in logins && !Expired(logins[key], now) :: logins[key]
  }

  predicate IsBanned(a: Attempt, now: int) {
    a.bannedUntil.Some? && now < a.bannedUntil.value
  }

  /** The entry after one more failure. */
  function Failed(previous: Option<Attempt>, now: int): Attempt {
    var base := if previous.None? || now >= previous.value.windowStart + WINDOW then Attempt(0, now, None, now)
      else previous.value;
    var failures := base.failures + 1;
    Attempt(failures, base.windowStart, if failures >= LIMIT then Some(now + BAN) else base.bannedUntil, now)
  }

  function Find(logins: Logins, key: string): Option<Attempt> {
    if key in logins then Some(logins[key]) else None
  }

  /** Least recently touched, and among those the first in string order. */
  predicate Oldest(logins: Logins, key: string) {
    && key in logins
    && forall k :: k in logins && k != key ==>
         logins[key].touchedAt < logins[k].touchedAt
           || (logins[key].touchedAt == logins[k].touchedAt && StringBefore(key, k))
  }

  /** Every entry is counting or banned, touched no later than now, and a ban lasts beyond its window. */
  predicate WellFormed(a: Attempt, now: int) {
    && a.windowStart <= a.touchedAt <= now && a.failures >= 1
    && (a.failures >= LIMIT <==> a.bannedUntil.Some?)
    && (a.bannedUntil.Some? ==> a.windowStart + BAN <= a.bannedUntil.value)
  }

  predicate Sound(logins: Logins, capacity: int, now: int) {
    |logins| <= capacity && forall key :: key in logins ==> WellFormed(logins[key], now)
  }

  /** One authorization, as a relation between tables. Only a full table makes room, by its oldest entry. */
  ghost predicate Steps(before: Logins, capacity: int, now: int, key: string, valid: bool, after: Logins, d: Decision) {
    var purged := Purged(before, now);
    if key in purged && IsBanned(purged[key], now) then
      d == Banned && after == purged[key := purged[key].(touchedAt := now)]
    else if valid then
      d == Allowed && after == purged - {key}
    else
      var entry := Failed(Find(purged, key), now);
      && d == (if entry.bannedUntil.Some? then Banned else Invalid)
      && if key !in purged && |purged| == capacity
         then exists victim :: Oldest(purged, victim) && after == (purged - {victim})[key := entry]
         else after == purged[key := entry]
  }

  class Limiter {
    const capacity: int
    var logins: Logins

    constructor (capacity: int)
      requires capacity > 0
      ensures this.capacity == capacity && logins == map[]
    {
      this.capacity := capacity;
      logins := map[];
    }

    method PurgeLoginAttempts(now: int)
      modifies this
      ensures logins == Purged(old(logins), now)
    {
      var todo := logins.Keys;
      while todo != {}
        invariant todo <= old(logins).Keys
        invariant logins == map key | key in old(logins) && (key in todo || !Expired(old(logins)[key], now)) ::
                    old(logins)[key]
      {
        var key :| key in todo;
        todo := todo - {key};
        if Expired(logins[key], now) {
          logins := logins - {key};
        }
      }
    }

    method EvictLoginAttempt() returns (ghost victim: string)
      requires logins != map[]
      modifies this
      ensures Oldest(old(logins), victim) && logins == old(logins) - {victim}
    {
      var todo, best: Option<string> := logins.Keys, None;
      while todo != {}
        invariant logins == old(logins) && todo <= logins.Keys && (best.None? ==> todo == logins.Keys)
        invariant best.Some? ==> best.value in logins && best.value !in todo
        invariant best.Some? ==> forall k :: k in logins && k !in todo && k != best.value ==>
                  OlderThan(logins, best.value, k)
      {
        var key :| key in todo;
        todo := todo - {key};
        if best.None? || logins[key].touchedAt < logins[best.value].touchedAt
           || (logins[key].touchedAt == logins[best.value].touchedAt && StringBefore(key, best.value)) {
          if best.Some? {
            forall k | k in logins && k !in todo && k != key && k != best.value ensures OlderThan(logins, key, k) {
              OlderTransitive(logins, key, best.value, k);
            }
          }
          best := Some(key);
        } else {
          StringBeforeTotal(key, best.value);
        }
      }
      assert best.Some? by {
        assert logins.Keys != {};
      }
      victim := best.value;
      logins := logins - {best.value};
    }

    /** The policy for one login. With a clock that does not run backwards the table stays sound and bounded. */
    method AuthorizeLogin(key: string, valid: bool, now: int) returns (d: Decision)
      requires capacity > 0 && exists past :: past <= now && Sound(logins, capacity, past)
      modifies this
      ensures Steps(old(logins), capacity, now, key, valid, logins, d)
      ensures Sound(logins, capacity, now)
    {
      ghost var before := logins;
      PurgeLoginAttempts(now);
      ghost var purged := logins;
      PurgedIsSound(before, capacity, now);
      if key in logins && IsBanned(logins[key], now) {
        logins := logins[key := logins[key].(touchedAt := now)];
        assert logins.Keys == purged.Keys;
        return Banned;
      }
      if valid {
        logins := logins - {key};
        assert logins.Keys <= purged.Keys;
        SmallerMap(logins.Keys, purged.Keys);
        return Allowed;
      }
      d := RecordFailure(key, now);
    }

    /** Counts a failure, making room first if the address is new and the table full. */
    method RecordFailure(key: string, now: int) returns (d: Decision)
      requires capacity > 0 && Sound(logins, capacity, now)
      requires key in logins ==> !IsBanned(logins[key], now)
      requires forall k :: k in logins ==> (logins[k].bannedUntil.Some? ==> IsBanned(logins[k], now))
      modifies this
      ensures var entry := Failed(Find(old(logins), key), now);
              && d == (if entry.bannedUntil.Some? then Banned else Invalid)
              && if key !in old(logins) && |old(logins)| == capacity
                 then exists victim :: Oldest(old(logins), victim) && logins == (old(logins) - {victim})[key := entry]
                 else logins == old(logins)[key := entry]
      ensures Sound(logins, capacity, now)
    {
      ghost var before := logins;
      var known := key in logins;
      var attempt := if known then logins[key] else Attempt(0, now, None, now);
      if !known || now >= attempt.windowStart + WINDOW {
        attempt := Attempt(0, now, None, now);
      }
      attempt := attempt.(failures := attempt.failures + 1);
      attempt := attempt.(touchedAt := now);
      if attempt.failures >= LIMIT {
        attempt := attempt.(bannedUntil := Some(now + BAN));
      }
      assert attempt == Failed(Find(before, key), now);
      if !known && |logins| == capacity {
        ghost var victim := EvictLoginAttempt();
        RemovalShrinks(before, victim);
      }
      InsertionIsSound(logins, capacity, now, key, attempt);
      logins := logins[key := attempt];
      d := if attempt.bannedUntil.Some? then Banned else Invalid;
    }
  }

  lemma {:induction false} RemovalShrinks(logins: Logins, victim: string)
    requires victim in logins
    ensures |logins - {victim}| == |logins| - 1
  {
  }

  lemma {:induction false} InsertionIsSound(logins: Logins, capacity: int, now: int, key: string, entry: Attempt)
    requires Sound(logins, capacity, now) && WellFormed(entry, now) && (key in logins || |logins| < capacity)
    ensures Sound(logins[key := entry], capacity, now)
  {
  }

  predicate OlderThan(logins: Logins, a: string, b: string)
    requires a in logins && b in logins
  {
    logins[a].touchedAt < logins[b].touchedAt || (logins[a].touchedAt == logins[b].touchedAt && StringBefore(a, b))
  }

  lemma {:induction false} OlderTransitive(logins: Logins, a: string, b: string, c: string)
    requires a in logins && b in logins && c in logins && OlderThan(logins, a, b) && OlderThan(logins, b, c)
    ensures OlderThan(logins, a, c)
  {
    if StringBefore(a, b) && StringBefore(b, c) {
      StringBeforeTransitive(a, b, c);
    }
  }

  lemma {:induction false} SmallerMap(a: set<string>, b: set<string>)
    requires a <= b
    ensures |a| <= |b|
  {
    assert b == a + (b - a);
  }

  /** After purging, an entry with a ban is banned now and every other has fewer than five failures. */
  lemma {:induction false} PurgedIsSound(logins: Logins, capacity: int, now: int)
    requires exists past :: past <= now && Sound(logins, capacity, past)
    ensures Sound(Purged(logins, now), capacity, now)
    ensures forall key :: key in Purged(logins, now) ==>
              if Purged(logins, now)[key].bannedUntil.Some? then IsBanned(Purged(logins, now)[key], now)
              else Purged(logins, now)[key].failures < LIMIT
  {
    assert Purged(logins, now).Keys <= logins.Keys;
    SmallerMap(Purged(logins, now).Keys, logins.Keys);
  }

  // ---- Histories -------------------------------------------------------------------------------

  datatype Call = Call(key: string, valid: bool, at: int)

  /** Calls in time order, each table following from the one before. */
  ghost predicate History(capacity: int, tables: seq<Logins>, calls: seq<Call>, decisions: seq<Decision>) {
    && |tables| == |calls| + 1 && |decisions| == |calls|
    && forall i {:trigger calls[i]} :: 0 <= i < |calls| ==>
         && Steps(tables[i], capacity, calls[i].at, calls[i].key, calls[i].valid, tables[i + 1], decisions[i])
         && (i > 0 ==> calls[i - 1].at <= calls[i].at)
  }

  /** The call made room by dropping this address. */
  predicate Evicts(before: Logins, call: Call, after: Logins, key: string) {
    key in Purged(before, call.at) && key != call.key && key !in after
  }

  lemma {:induction false} StepKeepsBan(before: Logins, capacity: int, call: Call, after: Logins, d: Decision,
                                        key: string, until: int)
    requires Steps(before, capacity, call.at, call.key, call.valid, after, d) && !Evicts(before, call, after, key)
    requires key in before && before[key].bannedUntil == Some(until) && call.at < until
    ensures key in after && after[key].bannedUntil == Some(until)
    ensures call.key == key ==> d == Banned
  {
  }

  /** Call k comes before the ban's end and does not evict the address. */
  predicate Quiet(tables: seq<Logins>, calls: seq<Call>, k: nat, key: string, until: int)
    requires k < |calls| < |tables|
  {
    calls[k].at < until && !Evicts(tables[k], calls[k], tables[k + 1], key)
  }

  /** A ban lasts: until its end, and unless it is evicted, every login from the address is refused, even with valid
      credentials. */
  lemma {:induction false} BanHolds(capacity: int, tables: seq<Logins>, calls: seq<Call>, decisions: seq<Decision>,
                                    i: nat, j: nat, key: string, until: int)
    requires History(capacity, tables, calls, decisions) && i <= j < |calls|
    requires key in tables[i] && tables[i][key].bannedUntil == Some(until)
    requires forall k {:trigger Quiet(tables, calls, k, key, until)} :: i <= k <= j ==>
              Quiet(tables, calls, k, key, until)
    ensures key in tables[j + 1] && tables[j + 1][key].bannedUntil == Some(until)
    ensures calls[j].key == key ==> decisions[j] == Banned
  {
    if i < j {
      BanHolds(capacity, tables, calls, decisions, i, j - 1, key, until);
    }
    assert Quiet(tables, calls, j, key, until);
    var call := calls[j];
    StepKeepsBan(tables[j], capacity, call, tables[j + 1], decisions[j], key, until);
  }

  /** And it ends: a login with valid credentials is allowed from the moment the ban is over. */
  lemma {:induction false} BanEnds(before: Logins, capacity: int, call: Call, after: Logins, d: Decision, until: int)
    requires Steps(before, capacity, call.at, call.key, call.valid, after, d) && call.valid
    requires call.key in before ==> before[call.key].bannedUntil.None? || before[call.key].bannedUntil == Some(until)
    requires until <= call.at
    ensures d == Allowed && call.key !in after
  {
  }

  function FailuresUpTo(calls: seq<Call>, key: string, n: nat): nat
    requires n <= |calls|
  {
    if n == 0 then 0 else FailuresUpTo(calls, key, n - 1) + if calls[n - 1].key == key then 1 else 0
  }

  /** The entry of an address whose first failure was at `start` and which has failed `n` times since. */
  predicate Counting(logins: Logins, key: string, start: int, n: nat) {
    if n == 0 then key !in logins
    else key in logins && logins[key].failures == n && logins[key].windowStart == start && logins[key].bannedUntil.None?
  }

  lemma {:induction false} OtherStepKeepsCount(before: Logins, capacity: int, call: Call, after: Logins, d: Decision,
                                               key: string, start: int, n: nat)
    requires Steps(before, capacity, call.at, call.key, call.valid, after, d) && !Evicts(before, call, after, key)
    requires call.key != key && Counting(before, key, start, n) && start <= call.at < start + WINDOW
    ensures Counting(after, key, start, n)
  {
  }

  lemma {:induction false} OwnStepCounts(before: Logins, capacity: int, call: Call, after: Logins, d: Decision,
                                         start: int, n: nat)
    requires Steps(before, capacity, call.at, call.key, call.valid, after, d) && !call.valid
    requires Counting(before, call.key, start, n) && n < LIMIT && start <= call.at < start + WINDOW
              && (n == 0 ==> call.at == start)
    ensures n + 1 < LIMIT ==> d == Invalid && Counting(after, call.key, start, n + 1)
    ensures n + 1 == LIMIT ==> d == Banned && call.key in after && after[call.key].bannedUntil == Some(call.at + BAN)
  {
  }

  /** Before its fifth failure within the window of its first, an address is only counted, whatever others do. */
  lemma {:induction false} FailuresAreCounted(capacity: int, tables: seq<Logins>, calls: seq<Call>,
                                              decisions: seq<Decision>,
                                              key: string, start: int, n: nat)
    requires History(capacity, tables, calls, decisions) && n <= |calls| && key !in tables[0]
    requires forall k {:trigger calls[k]} :: 0 <= k < n ==>
               && start <= calls[k].at < start + WINDOW && !Evicts(tables[k], calls[k], tables[k + 1], key)
               && (calls[k].key == key ==>
                     !calls[k].valid && (FailuresUpTo(calls, key, k) == 0 ==> calls[k].at == start))
    requires FailuresUpTo(calls, key, n) < LIMIT
    ensures Counting(tables[n], key, start, FailuresUpTo(calls, key, n))
  {
    if n > 0 {
      FailuresAreCounted(capacity, tables, calls, decisions, key, start, n - 1);
      var call := calls[n - 1];
      if call.key == key {
        OwnStepCounts(tables[n - 1], capacity, call, tables[n], decisions[n - 1], start,
                      FailuresUpTo(calls, key, n - 1));
      } else {
        OtherStepKeepsCount(tables[n - 1], capacity, call, tables[n], decisions[n - 1], key, start,
                            FailuresUpTo(calls, key, n - 1));
      }
    }
  }

  /** The fifth failure within five minutes of the first bans the address for exactly fifteen minutes, unless its entry
      was evicted on the way. */
  lemma {:induction false} FifthFailureBans(capacity: int, tables: seq<Logins>, calls: seq<Call>,
                                            decisions: seq<Decision>, key: string, start: int, n: nat)
    requires History(capacity, tables, calls, decisions) && n < |calls| && key !in tables[0]
    requires forall k {:trigger calls[k]} :: 0 <= k <= n ==>
               && start <= calls[k].at < start + WINDOW && !Evicts(tables[k], calls[k], tables[k + 1], key)
               && (calls[k].key == key ==>
                     !calls[k].valid && (FailuresUpTo(calls, key, k) == 0 ==> calls[k].at == start))
    requires calls[n].key == key && FailuresUpTo(calls, key, n) == LIMIT - 1
    ensures decisions[n] == Banned && key in tables[n + 1] && tables[n + 1][key].bannedUntil == Some(calls[n].at + BAN)
  {
    FailuresAreCounted(capacity, tables, calls, decisions, key, start, n);
    OwnStepCounts(tables[n], capacity, calls[n], tables[n + 1], decisions[n], start, LIMIT - 1);
  }
}
