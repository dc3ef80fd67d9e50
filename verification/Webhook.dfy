/** The retry schedule of one webhook delivery (internal/outbox/payload.go, internal/webhook/http.go,
    internal/store/queries/outbox.sql). Times are seconds. */
module Webhook {
  import opened Paths

  const RETRY_DEADLINE: int := 24 * 3600
  const LEASE: int := 30

  const DELAYS: seq<int> := [30, 60, 120, 240, 480, 960, 1920, 3600, 7200, 14400, 21600]

  /** The wait after the given attempt, counted from one; the last entry of the table is a cap. */
  function DeliveryDelay(attempt: int): (delay: int)
    ensures 30 <= delay <= 21600
  {
    var index := (if attempt < 1 then 1 else attempt) - 1;
    DELAYS[if index >= |DELAYS| then |DELAYS| - 1 else index]
  }

  lemma {:induction false} DelayMonotone(a: int, b: int)
    requires a <= b
    ensures DeliveryDelay(a) <= DeliveryDelay(b)
  {
  }

  /** The least time that passes before the attempt after `n` failed ones. */
  function TotalDelay(n: nat): (t: int)
    ensures t >= 0
  {
    if n == 0 then 0 else TotalDelay(n - 1) + DeliveryDelay(n)
  }

  lemma {:induction false} TotalDelayCrossesDeadline()
    ensures TotalDelay(12) == 72210 < RETRY_DEADLINE <= TotalDelay(13)
  {
    assert TotalDelay(4) == 450;
    assert TotalDelay(8) == 7410;
  }

  lemma {:induction false} TotalDelayMonotone(m: nat, n: nat)
    requires m <= n
    ensures TotalDelay(m) <= TotalDelay(n)
  {
    if m < n {
      TotalDelayMonotone(m, n - 1);
    }
  }

  // ---- One delivery ----------------------------------------------------------------------------

  datatype Status = Pending | Delivering | Succeeded | Dead

  datatype Delivery = Delivery(status: Status, attempts: int, first: Option<int>, next: Option<int>, leasedAt: int)

  datatype Outcome = Outcome(status: Status, next: Option<int>)

  /** Retry after the delay, unless that is not before the deadline. */
  function FailureResult(attempts: int, first: Option<int>, now: int): Outcome {
    var next := now + DeliveryDelay(attempts);
    if first.Some? && next >= first.value + RETRY_DEADLINE then Outcome(Dead, None) else Outcome(Pending, Some(next))
  }

  /** A worker leases the delivery at a time, or commits the result of the attempt it leased. A claim whose worker
      crashed is never committed; its lease runs out and the delivery is leased again. */
  datatype Act = Claim(at: int) | CommitFailure(at: int) | CommitSuccess(at: int)

  predicate Enabled(d: Delivery, act: Act) {
    match act
    case Claim(at) =>
      && (d.status.Pending? || d.status.Delivering?)
      && d.next.Some? && d.next.value <= at
      && (d.status.Delivering? ==> d.leasedAt + LEASE <= at)
    case CommitFailure(at) => d.status.Delivering? && d.leasedAt <= at
    case CommitSuccess(at) => d.status.Delivering? && d.leasedAt <= at
  }

  function After(d: Delivery, act: Act): Delivery
    requires Enabled(d, act)
  {
    match act
    case Claim(at) => Delivery(Delivering, d.attempts + 1, if d.first.None? then Some(at) else d.first, d.next, at)
    case CommitFailure(at) =>
      var r := FailureResult(d.attempts, d.first, at);
      d.(status := r.status, next := r.next)
    case CommitSuccess(_) => d.(status := Succeeded, next := None)
  }

  function New(at: int): Delivery {
    Delivery(Pending, 0, None, Some(at), at)
  }

  /** The delivery after a run of acts, if every one of them was possible. */
  function Run(d: Delivery, acts: seq<Act>): Option<Delivery> {
    if acts == [] then Some(d)
    else
      var before := Run(d, acts[..|acts| - 1]);
      if before.Some? && Enabled(before.value, acts[|acts| - 1]) then Some(After(before.value, acts[|acts| - 1]))
      else None
  }

  function Failures(acts: seq<Act>): nat {
    if acts == [] then 0 else Failures(acts[..|acts| - 1]) + if acts[|acts| - 1].CommitFailure? then 1 else 0
  }

  /** After `k` committed failures: at least as many attempts were counted, and unless the delivery is over its next
      attempt lies at least their total delay after the first. */
  predicate OnSchedule(d: Delivery, k: nat) {
    && d.attempts >= k + (if d.status.Delivering? then 1 else 0)
    && (d.status.Pending? || d.status.Delivering? ==> d.next.Some?)
    && (d.status.Pending? && k == 0 ==> d.first.None?)
    && (d.first.None? ==> d.status.Pending? && k == 0)
    && (d.status.Delivering? ==> d.first.Some? && d.next.value <= d.leasedAt && d.first.value <= d.leasedAt)
    && (k > 0 && (d.status.Pending? || d.status.Delivering?) ==>
          d.first.value + TotalDelay(k) <= d.next.value < d.first.value + RETRY_DEADLINE)
  }

  lemma {:induction false} ActKeepsSchedule(d: Delivery, act: Act, k: nat)
    requires OnSchedule(d, k) && Enabled(d, act)
    ensures OnSchedule(After(d, act), k + if act.CommitFailure? then 1 else 0)
  {
  }

  lemma {:induction false} RunKeepsSchedule(at: int, acts: seq<Act>)
    requires Run(New(at), acts).Some?
    ensures OnSchedule(Run(New(at), acts).value, Failures(acts))
  {
    if acts != [] {
      var n := |acts| - 1;
      RunKeepsSchedule(at, acts[..n]);
      ActKeepsSchedule(Run(New(at), acts[..n]).value, acts[n], Failures(acts[..n]));
    }
  }

  /** A delivery that failed and is left pending has its next attempt within a day of the first. */
  lemma {:induction false} PendingIsWithinDeadline(at: int, acts: seq<Act>)
    requires Run(New(at), acts).Some? && Run(New(at), acts).value.status.Pending? && Failures(acts) > 0
    ensures var d := Run(New(at), acts).value;
            d.first.Some? && d.next.Some? && d.next.value < d.first.value + RETRY_DEADLINE
  {
  }

  /** After thirteen failures the delivery is not pending and cannot be claimed. */
  lemma {:induction false} ThirteenthEnds(d: Delivery, k: nat)
    requires OnSchedule(d, k) && k >= 13
    ensures !d.status.Pending? && !d.status.Delivering?
  {
    TotalDelayCrossesDeadline();
    TotalDelayMonotone(13, k);
  }

  /** No more than thirteen failures are ever committed, however many claims crash in between and however late the
      attempts are. */
  lemma {:induction false} AtMostThirteenFailures(at: int, acts: seq<Act>)
    requires Run(New(at), acts).Some?
    ensures Failures(acts) <= 13
  {
    if acts != [] {
      var before := acts[..|acts| - 1];
      AtMostThirteenFailures(at, before);
      RunKeepsSchedule(at, before);
      if Failures(before) == 13 {
        ThirteenthEnds(Run(New(at), before).value, 13);
      }
    }
  }

  // ---- The bound is reached --------------------------------------------------------------------

  /** Every attempt made and failed the moment it is due. */
  function Prompt(k: nat): seq<Act> {
    if k == 0 then [] else Prompt(k - 1) + [Claim(TotalDelay(k - 1))] + [CommitFailure(TotalDelay(k - 1))]
  }

  lemma {:induction false} RunAttempt(d: Delivery, acts: seq<Act>, at: int)
    requires Run(d, acts).Some? && Enabled(Run(d, acts).value, Claim(at))
    ensures var claimed := After(Run(d, acts).value, Claim(at));
            Run(d, acts + [Claim(at)] + [CommitFailure(at)]) == Some(After(claimed, CommitFailure(at)))
    ensures Failures(acts + [Claim(at)] + [CommitFailure(at)]) == Failures(acts) + 1
  {
  }

  /** The delivery after `k` prompt failures. */
  function PromptState(k: nat): Delivery {
    if k == 0 then New(0)
    else if k < 13 then Delivery(Pending, k, Some(0), Some(TotalDelay(k)), TotalDelay(k - 1))
    else Delivery(Dead, k, Some(0), None, TotalDelay(k - 1))
  }

  lemma {:induction false} PromptStep(k: nat)
    requires k < 13
    ensures Enabled(PromptState(k), Claim(TotalDelay(k)))
    ensures After(After(PromptState(k), Claim(TotalDelay(k))), CommitFailure(TotalDelay(k))) == PromptState(k + 1)
  {
    TotalDelayCrossesDeadline();
    if k < 12 {
      TotalDelayMonotone(k + 1, 12);
    }
    assert TotalDelay(k + 1) == TotalDelay(k) + DeliveryDelay(k + 1);
  }

  lemma {:induction false} PromptRun(k: nat)
    requires k <= 13
    ensures Run(New(0), Prompt(k)) == Some(PromptState(k)) && Failures(Prompt(k)) == k
  {
    if k > 0 {
      PromptRun(k - 1);
      PromptStep(k - 1);
      RunAttempt(New(0), Prompt(k - 1), TotalDelay(k - 1));
    }
  }

  /** Thirteen failures do happen, and the thirteenth ends the delivery. */
  lemma {:induction false} ThirteenFailuresHappen()
    ensures Run(New(0), Prompt(13)).Some? && Failures(Prompt(13)) == 13 && Run(New(0), Prompt(13)).value.status.Dead?
  {
    PromptRun(13);
  }
}
