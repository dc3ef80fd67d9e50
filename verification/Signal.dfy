/** The broadcast latch that wakes long polls, and why no wake-up is lost (internal/outbox/signal.go,
    internal/store/repository_outbox.go, internal/nativeapi/handler.go). */
module Signals {

  /** A channel that carries nothing and can only be closed. */
  class Channel {
    var closed: bool
    constructor () ensures !closed { closed := false; }
  }

  class Signal {
    var ch: Channel?
    /** Every channel ever handed out, oldest first; all but the last are closed. */
    ghost var handed: seq<Channel>

    ghost predicate Valid()
      reads this, handed
    {
      && (ch == null ==> handed == [])
      && (ch != null ==> handed != [] && handed[|handed| - 1] == ch && !ch.closed)
      && (forall i :: 0 <= i < |handed| - 1 ==> handed[i].closed && handed[i] != handed[|handed| - 1])
    }

    /** The number of the open channel, counting from the first one ever installed. */
    ghost function Current(): nat reads this { if handed == [] then 0 else |handed| - 1 }

    /** A channel is closed exactly if a later one is installed, which is what a sleeping waiter waits for. */
    lemma {:induction false} ClosedExactly(k: nat)
      requires Valid() && k < |handed|
      ensures handed[k].closed <==> k < Current()
    {
      if k == |handed| - 1 {
        return;
      }
    }

    constructor ()
      ensures Valid() && fresh(handed) && Current() == 0
    {
      var c := new Channel();
      ch := c;
      handed := [c];
    }

    /** The channel that the next Notify closes. */
    method Snapshot() returns (c: Channel)
      requires Valid()
      modifies this
      ensures Valid() && !c.closed && ch == c && handed != [] && handed[Current()] == c && Current() == old(Current())
      ensures old(ch) != null ==> handed == old(handed) && c == old(ch)
      ensures old(ch) == null ==> fresh(c) && handed == [c]
    {
      if ch == null {
        var made := new Channel();
        ch := made;
        handed := [made];
      }
      c := ch;
    }

    /** Closes the channel that snapshot holders wait on and installs an open one; channels closed before stay
        closed. */
    method Notify()
      requires Valid()
      modifies this, handed
      ensures Valid() && fresh(ch) && Current() == old(Current()) + 1
      ensures old(ch) != null ==> old(ch).closed && handed == old(handed) + [ch]
      ensures forall c :: c in old(handed) ==> c.closed
    {
      if ch == null {
        var made := new Channel();
        ch := made;
        handed := [made];
      }
      ch.closed := true;
      var next := new Channel();
      ch := next;
      handed := handed + [next];
    }
  }

  // ---- Writers and waiters ---------------------------------------------------------------------

  /** Where a long poll is in its round: it holds no channel, holds one, has read the log through `seen`, or is parked
      on the channel with everything up to `seen` accounted for. Channels are numbered in the order they were
      installed. */
  datatype Waiter = Idle | Holding(channel: nat) | HasRead(channel: nat, seen: nat) | Parked(channel: nat, seen: nat)

  /** `events[i]` says whether the writer of event i has called Notify yet; `current` is the open channel. */
  datatype System = System(events: seq<bool>, current: nat, waiters: map<int, Waiter>)

  datatype Action =
    | Commit                    // a transaction with an event commits
    | Notify(event: nat)        // its writer, afterwards, notifies
    | Ping                      // a transaction without an event notifies
    | Snapshot(who: int)
    | Read(who: int)            // the high-water mark is read and the log listed up to it
    | Park(who: int)            // nothing matched
    | Wake(who: int)            // the channel is closed
    | Leave(who: int)           // a page, the deadline, shutdown or the caller ends the round

  predicate Enabled(s: System, a: Action) {
    match a
    case Commit => true
    case Notify(e) => e < |s.events| && !s.events[e]
    case Ping => true
    case Snapshot(who) => who in s.waiters && s.waiters[who].Idle?
    case Read(who) => who in s.waiters && s.waiters[who].Holding?
    case Park(who) => who in s.waiters && s.waiters[who].HasRead?
    case Wake(who) => who in s.waiters && s.waiters[who].Parked? && s.waiters[who].channel < s.current
    case Leave(who) => who in s.waiters
  }

  function After(s: System, a: Action): System
    requires Enabled(s, a)
  {
    match a
    case Commit => s.(events := s.events + [false])
    case Notify(e) => s.(events := s.events[e := true], current := s.current + 1)
    case Ping => s.(current := s.current + 1)
    case Snapshot(who) => s.(waiters := s.waiters[who := Holding(s.current)])
    case Read(who) => s.(waiters := s.waiters[who := HasRead(s.waiters[who].channel, |s.events|)])
    case Park(who) => s.(waiters := s.waiters[who := Parked(s.waiters[who].channel, s.waiters[who].seen)])
    case Wake(who) => s.(waiters := s.waiters[who := Idle])
    case Leave(who) => s.(waiters := s.waiters[who := Idle])
  }

  /** No event past what the waiter has seen was notified while its channel is open. */
  predicate Alert(s: System, w: Waiter) {
    match w
    case Idle => true
    case Holding(c) => c <= s.current
    case HasRead(c, seen) => c <= s.current && seen <= |s.events| && (c == s.current ==> Unnotified(s, seen))
    case Parked(c, seen) => c <= s.current && seen <= |s.events| && (c == s.current ==> Unnotified(s, seen))
  }

  predicate Unnotified(s: System, seen: nat) {
    forall e :: seen <= e < |s.events| ==> !s.events[e]
  }

  predicate Inv(s: System) {
    forall who :: who in s.waiters ==> Alert(s, s.waiters[who])
  }

  lemma {:induction false} StepKeepsInv(s: System, a: Action)
    requires Inv(s) && Enabled(s, a)
    ensures Inv(After(s, a))
  {
  }

  predicate Run(states: seq<System>, actions: seq<Action>) {
    && |states| == |actions| + 1
    && forall i {:trigger actions[i]} :: 0 <= i < |actions| ==>
         Enabled(states[i], actions[i]) && states[i + 1] == After(states[i], actions[i])
  }

  lemma {:induction false} RunKeepsInv(states: seq<System>, actions: seq<Action>, i: nat)
    requires Run(states, actions) && i < |states| && Inv(states[0])
    ensures Inv(states[i])
  {
    if i > 0 {
      RunKeepsInv(states, actions, i - 1);
      assert states[i] == After(states[i - 1], actions[i - 1]);
      StepKeepsInv(states[i - 1], actions[i - 1]);
    }
  }

  /** If a waiter sleeps on an open channel while an event lies past what it has seen, that event's Notify is still to
      come, and when it comes the waiter can wake. */
  lemma {:induction false} NoLostWakeUp(states: seq<System>, actions: seq<Action>, i: nat, who: int, e: nat)
    requires Run(states, actions) && i < |states|
    requires states[0].events == [] && forall w :: w in states[0].waiters ==> states[0].waiters[w].Idle?
    requires who in states[i].waiters && states[i].waiters[who].Parked?
              && states[i].waiters[who].channel == states[i].current
    requires states[i].waiters[who].seen <= e < |states[i].events|
    ensures Enabled(states[i], Notify(e))
    ensures Enabled(After(states[i], Notify(e)), Wake(who))
  {
    RunKeepsInv(states, actions, i);
    assert Alert(states[i], states[i].waiters[who]);
  }
}
