/** The cursor-paged, long-polled feed over the growing event log (internal/nativeapi/handler.go,
    internal/store/repository_outbox.go). */
module EventFeed {
  import opened Paths

  datatype EventType = CompletedEvent | FailedEvent | OtherEvent

  datatype Event = Event(sequence: int, kind: EventType, hash: string, validPayload: bool)

  /** What a client asks for; an empty hash means every download. */
  datatype Query = Query(completed: bool, failed: bool, hash: string, limit: int, long: bool) {
    predicate Valid() { (completed || failed) && 1 <= limit <= 500 }

    predicate Matches(e: Event) {
      && ((completed && e.kind.CompletedEvent?) || (failed && e.kind.FailedEvent?))
      && (hash == "" || e.hash == hash)
    }
  }

  /** Sequence numbers are positive and increase along the log. */
  predicate Ordered(log: seq<Event>) {
    && (forall e :: e in log ==> e.sequence > 0)
    && (forall i, j :: 0 <= i < j < |log| ==> log[i].sequence < log[j].sequence)
  }

  function Latest(log: seq<Event>): int {
    if log == [] then 0 else log[|log| - 1].sequence
  }

  /** The events that the query selects with a sequence after `from` and up to `to`, in order. */
  function Selected(log: seq<Event>, q: Query, from: int, to: int): seq<Event> {
    if log == [] then []
    else
      var last := log[|log| - 1];
      Selected(log[..|log| - 1], q, from, to) + if from < last.sequence <= to && q.Matches(last) then [last] else []
  }

  // ---- Facts about selections ------------------------------------------------------------------

  lemma {:induction false} OrderedPrefix(log: seq<Event>, n: nat)
    requires Ordered(log) && n <= |log|
    ensures Ordered(log[..n]) && Latest(log[..n]) <= Latest(log)
    ensures Latest(log) >= 0
  {
  }

  /** Nothing above the high-water mark can be selected. */
  lemma {:induction false} SelectedMembers(log: seq<Event>, q: Query, from: int, to: int, e: Event)
    ensures e in Selected(log, q, from, to) <==> e in log && from < e.sequence <= to && q.Matches(e)
  {
    if log != [] {
      SelectedMembers(log[..|log| - 1], q, from, to, e);
      assert log == log[..|log| - 1] + [log[|log| - 1]];
    }
  }

  lemma {:induction false} SelectedOrdered(log: seq<Event>, q: Query, from: int, to: int)
    requires Ordered(log)
    ensures Ordered(Selected(log, q, from, to))
  {
    if log != [] {
      var n := |log| - 1;
      OrderedPrefix(log, n);
      SelectedOrdered(log[..n], q, from, to);
      var s := Selected(log[..n], q, from, to);
      forall e | e in s ensures 0 < e.sequence < log[n].sequence {
        SelectedMembers(log[..n], q, from, to, e);
        var i :| 0 <= i < n && log[..n][i] == e;
      }
      assert log[n] in log;
      assert forall i :: 0 <= i < |s| ==> s[i] in s;
    }
  }

  /** Events appended later do not change what lies up to an old high-water mark. */
  lemma {:induction false} SelectedStable(log: seq<Event>, more: seq<Event>, q: Query, from: int, to: int)
    requires Ordered(log + more) && to <= Latest(log)
    ensures Selected(log + more, q, from, to) == Selected(log, q, from, to)
    decreases |more|
  {
    if more == [] {
      assert log + more == log;
    } else {
      var n := |more| - 1;
      var all := log + more;
      assert all[..|all| - 1] == log + more[..n];
      OrderedPrefix(all, |all| - 1);
      SelectedStable(log, more[..n], q, from, to);
      if log != [] {
        assert all[|log| - 1] == log[|log| - 1];
        assert all[|all| - 1].sequence > Latest(log);
      } else {
        assert all[|all| - 1] in all;
      }
    }
  }

  /** Adjacent ranges add up. */
  lemma {:induction false} SelectedSplits(log: seq<Event>, q: Query, from: int, mid: int, to: int)
    requires Ordered(log) && from <= mid <= to
    ensures Selected(log, q, from, to) == Selected(log, q, from, mid) + Selected(log, q, mid, to)
  {
    if log != [] {
      var n := |log| - 1;
      OrderedPrefix(log, n);
      SelectedSplits(log[..n], q, from, mid, to);
      if log[n].sequence <= mid {
        assert forall i :: 0 <= i < n ==> log[..n][i].sequence < log[n].sequence;
        NothingAbove(log[..n], q, mid, to);
      }
    }
  }

  lemma {:induction false} NothingAbove(log: seq<Event>, q: Query, from: int, to: int)
    requires forall i :: 0 <= i < |log| ==> log[i].sequence <= from
    ensures Selected(log, q, from, to) == []
  {
    if log != [] {
      NothingAbove(log[..|log| - 1], q, from, to);
    }
  }

  /** Cutting a selection after its n-th event is the selection up to that event's sequence. */
  lemma {:induction false} SelectedPrefix(log: seq<Event>, q: Query, from: int, to: int, n: nat)
    requires Ordered(log) && 0 < n <= |Selected(log, q, from, to)|
    ensures var cut := Selected(log, q, from, to)[n - 1].sequence;
            from < cut <= to && Selected(log, q, from, cut) == Selected(log, q, from, to)[..n]
  {
    var all := Selected(log, q, from, to);
    var cut := all[n - 1].sequence;
    SelectedMembers(log, q, from, to, all[n - 1]);
    SelectedSplits(log, q, from, cut, to);
    SelectedOrdered(log, q, from, to);
    var head, tail := Selected(log, q, from, cut), Selected(log, q, cut, to);
    if |head| < n {
      assert all[n - 1] == tail[n - 1 - |head|];
      assert all[n - 1] in tail;
      SelectedMembers(log, q, cut, to, all[n - 1]);
    } else if |head| > n {
      assert all[|head| - 1] == head[|head| - 1];
      assert head[|head| - 1] in head;
      SelectedMembers(log, q, from, cut, head[|head| - 1]);
    }
    assert all[..n] == head;
  }

  // ---- The server ------------------------------------------------------------------------------

  datatype Listed = Events(events: seq<Event>) | BadRange | StorageError

  datatype Response = Page(items: seq<Event>, next: int, more: bool) | InvalidRequest | InternalError | NoResponse

  /** What ends a park: the signal, the fixed timer, shutdown of the runtime, or the caller going away. */
  datatype WakeReason = Signalled | TimerFired | ShuttingDown | CallerGone

  predicate Grown(before: seq<Event>, after: seq<Event>) {
    before <= after && Ordered(after)
  }

  /** A page holds exactly the selected events after `start` up to its next cursor, which never passes the log. */
  predicate GoodPage(log: seq<Event>, q: Query, start: int, r: Response)
    requires r.Page?
  {
    && start <= r.next <= Latest(log)
    && r.items == Selected(log, q, start, r.next)
    && |r.items| <= q.limit && (r.more ==> |r.items| == q.limit)
  }

  predicate Corrupt(log: seq<Event>) {
    exists e :: e in log && !e.validPayload
  }

  class Feed {
    var log: seq<Event>
    /** A read of the store failed for an outside reason. */
    var faulted: bool

    /** Other transactions commit events. */
    method Others()
      requires Ordered(log)
      modifies this`log
      ensures Grown(old(log), log)
    {
      var more: seq<Event> := *;
      if Ordered(log + more) {
        log := log + more;
      }
    }

    method LatestEventSequence() returns (r: Option<int>)
      modifies this`faulted
      ensures r.Some? ==> r.value == Latest(log)
      ensures faulted == (old(faulted) || r.None?)
    {
      var fault: bool := *;
      if fault {
        faulted := true;
        return None;
      }
      r := Some(Latest(log));
    }

    /** The first `limit` selected events. */
    method ListDownloadEvents(q: Query, after: int, through: int, limit: int) returns (r: Listed)
      requires Ordered(log)
      modifies this`faulted
      ensures r.Events? ==> after <= through
      ensures r.Events? ==> |r.events| <= limit && |r.events| <= |Selected(log, q, after, through)|
      ensures r.Events? ==> r.events == Selected(log, q, after, through)[..|r.events|]
      ensures r.Events? && |r.events| < limit ==> r.events == Selected(log, q, after, through)
      ensures 0 <= after <= through && 1 <= limit <= 501 && (q.completed || q.failed) ==> !r.BadRange?
      ensures faulted == (old(faulted) || r.StorageError?)
    {
      if after < 0 || through < 0 || after > through || limit < 1 || limit > 501 || (!q.completed && !q.failed) {
        return BadRange;
      }
      var fault: bool := *;
      if fault {
        faulted := true;
        return StorageError;
      }
      var events: seq<Event> := [];
      for i := 0 to |log|
        invariant |events| <= limit && |events| <= |Selected(log[..i], q, after, through)|
        invariant events == Selected(log[..i], q, after, through)[..|events|]
        invariant |events| < limit ==> events == Selected(log[..i], q, after, through)
      {
        assert log[..i + 1][..i] == log[..i];
        if |events| < limit && after < log[i].sequence <= through && q.Matches(log[i]) {
          events := events + [log[i]];
        }
      }
      assert log[..|log|] == log;
      r := Events(events);
    }

    /** Answers with the listed events; one event more than the limit says that there are more. */
    method WriteEvents(q: Query, events: seq<Event>, highWater: int, ghost from: int) returns (r: Response)
      requires Ordered(log) && q.Valid() && from <= highWater <= Latest(log)
      requires |events| <= q.limit + 1 && |events| <= |Selected(log, q, from, highWater)|
      requires events == Selected(log, q, from, highWater)[..|events|]
      requires |events| < q.limit + 1 ==> events == Selected(log, q, from, highWater)
      ensures r.Page? || (r.InternalError? && Corrupt(log))
      ensures r.Page? ==> GoodPage(log, q, from, r) && (!r.more ==> r.next == highWater)
    {
      ghost var all := Selected(log, q, from, highWater);
      for i := 0 to |events|
      {
        if !events[i].validPayload {
          assert events[i] in all;
          SelectedMembers(log, q, from, highWater, events[i]);
          return InternalError;
        }
      }
      var more := |events| > q.limit;
      var next, items := highWater, events;
      if more {
        items := events[..q.limit];
        next := items[|items| - 1].sequence;
        SelectedPrefix(log, q, from, highWater, q.limit);
        assert items == all[..q.limit];
      }
      r := Page(items, next, more);
    }

    /** Lists from the cursor and answers, for a request that began at `start` and found nothing up to the cursor. */
    method Answer(q: Query, events: seq<Event>, highWater: int, cursor: int, ghost start: int) returns (r: Response)
      requires Ordered(log) && q.Valid() && start <= cursor <= highWater <= Latest(log)
                && Selected(log, q, start, cursor) == []
      requires |events| <= q.limit + 1 && |events| <= |Selected(log, q, cursor, highWater)|
      requires events == Selected(log, q, cursor, highWater)[..|events|]
      requires |events| < q.limit + 1 ==> events == Selected(log, q, cursor, highWater)
      ensures r.Page? || (r.InternalError? && Corrupt(log))
      ensures r.Page? ==> GoodPage(log, q, start, r)
    {
      r := WriteEvents(q, events, highWater, cursor);
      if r.Page? {
        SelectedSplits(log, q, start, cursor, r.next);
      }
    }

    /** The last round after the timer or shutdown. */
    method FinalEventsScan(q: Query, cursor: int, ghost start: int) returns (r: Response)
      requires Ordered(log) && q.Valid() && 0 <= start <= cursor <= Latest(log) && Selected(log, q, start, cursor) == []
      modifies this
      ensures Grown(old(log), log) && (old(faulted) ==> faulted)
      ensures r.Page? ==> GoodPage(log, q, start, r)
      ensures r.Page? || (r.InternalError? && (faulted || Corrupt(log)))
    {
      ghost var seen := log;
      Others();
      CursorCarries(seen, log, q, start, cursor);
      var highWater := LatestEventSequence();
      if highWater.None? {
        return InternalError;
      }
      var listed := ListDownloadEvents(q, cursor, highWater.value, q.limit + 1);
      if !listed.Events? {
        return InternalError;
      }
      r := Answer(q, listed.events, highWater.value, cursor, start);
    }

    /** The feed request. `start` is the cursor that the page continues from: the client's, or the first high-water
        mark when the client asked for the latest. */
    method ServeEvents(q: Query, cursorIn: int, latestIn: bool) returns (r: Response, ghost start: int)
      requires Ordered(log) && q.Valid() && cursorIn >= 0
      modifies this
      ensures Grown(old(log), log) && (old(faulted) ==> faulted)
      ensures r.Page? ==> GoodPage(log, q, start, r)
      ensures r.Page? ==> if latestIn then Latest(old(log)) <= start else start == cursorIn
      ensures !latestIn && cursorIn <= Latest(old(log)) ==> r != InvalidRequest
      ensures r == InternalError ==> faulted || Corrupt(log)
    {
      var cursor, latest, checked := cursorIn, latestIn, false;
      start := cursorIn;
      var wakes: nat := *;
      while true
        invariant Grown(old(log), log) && (old(faulted) ==> faulted)
        invariant checked ==> 0 <= start <= cursor <= Latest(log) && Selected(log, q, start, cursor) == []
        invariant checked ==> !latest && if latestIn then Latest(old(log)) <= start else start == cursorIn
        invariant !checked ==> start == cursor == cursorIn && latest == latestIn
        decreases wakes
      {
        var gone: bool := *;
        if gone {
          return NoResponse, start;
        }
        ghost var seen := log;
        Others();
        GrownOn(old(log), seen, log, q, start, cursor, checked);
        var highWater := LatestEventSequence();
        if highWater.None? {
          return InternalError, start;
        }
        if latest {
          latest := false;
          cursor := highWater.value;
          start := cursor;
        } else if !checked && cursor > highWater.value {
          return InvalidRequest, start;
        }
        if !checked {
          EmptyRange(log, q, start);
        }
        checked := true;
        var listed := ListDownloadEvents(q, cursor, highWater.value, q.limit + 1);
        if !listed.Events? {
          return InternalError, start;
        }
        if listed.events != [] || !q.long {
          r := Answer(q, listed.events, highWater.value, cursor, start);
          return;
        }
        SelectedSplits(log, q, start, cursor, highWater.value);
        cursor := highWater.value;
        var reason: WakeReason := *;
        if wakes == 0 && reason.Signalled? {
          reason := TimerFired;
        }
        match reason {
          case Signalled => wakes := wakes - 1;
          case CallerGone => return NoResponse, start;
          case _ =>
            r := FinalEventsScan(q, cursor, start);
            return;
        }
      }
    }
  }

  lemma {:induction false} LatestGrows(before: seq<Event>, after: seq<Event>)
    requires Grown(before, after)
    ensures 0 <= Latest(before) <= Latest(after)
  {
  }

  lemma {:induction false} GrownOn(first: seq<Event>, before: seq<Event>, after: seq<Event>, q: Query, start: int,
                                   cursor: int, checked: bool)
    requires Grown(first, before) && Grown(before, after)
    requires checked ==> start <= cursor <= Latest(before) && Selected(before, q, start, cursor) == []
    ensures Grown(first, after) && 0 <= Latest(first) <= Latest(before) <= Latest(after)
    ensures checked ==> cursor <= Latest(after) && Selected(after, q, start, cursor) == []
  {
    LatestGrows(first, before);
    LatestGrows(before, after);
    if checked {
      CursorCarries(before, after, q, start, cursor);
    }
  }

  lemma {:induction false} EmptyRange(log: seq<Event>, q: Query, at: int)
    ensures Selected(log, q, at, at) == []
  {
    if log != [] {
      EmptyRange(log[..|log| - 1], q, at);
    }
  }

  lemma {:induction false} CursorCarries(before: seq<Event>, after: seq<Event>, q: Query, start: int, cursor: int)
    requires Grown(before, after) && start <= cursor <= Latest(before)
    ensures Selected(after, q, start, cursor) == Selected(before, q, start, cursor)
    ensures cursor <= Latest(after)
  {
    assert before + after[|before|..] == after;
    SelectedStable(before, after[|before|..], q, start, cursor);
    LatestGrows(before, after);
  }

  // ---- Following the cursor --------------------------------------------------------------------

  /** What a client that follows `next` has received in its first `n` pages. */
  function Received(pages: seq<Response>, n: nat): seq<Event>
    requires n <= |pages| && forall i :: 0 <= i < n ==> pages[i].Page?
  {
    if n == 0 then [] else Received(pages, n - 1) + pages[n - 1].items
  }

  /** The cursor that page i was asked with. */
  function CursorOf(start: int, pages: seq<Response>, i: nat): int
    requires i <= |pages| && forall j :: 0 <= j < |pages| ==> pages[j].Page?
  {
    if i == 0 then start else pages[i - 1].next
  }

  /** Page i was served from logs[i], which has grown since page i - 1, and continues where that one ended. */
  predicate Served(q: Query, start: int, logs: seq<seq<Event>>, pages: seq<Response>, i: nat)
    requires i < |pages| == |logs| && forall j :: 0 <= j < |pages| ==> pages[j].Page?
  {
    && Ordered(logs[i]) && GoodPage(logs[i], q, CursorOf(start, pages, i), pages[i])
    && (i > 0 ==> Grown(logs[i - 1], logs[i]))
  }

  predicate Followed(q: Query, start: int, logs: seq<seq<Event>>, pages: seq<Response>) {
    && |logs| == |pages| && (forall i :: 0 <= i < |pages| ==> pages[i].Page?)
    && (forall i {:trigger Served(q, start, logs, pages, i)} :: 0 <= i < |pages| ==> Served(q, start, logs, pages, i))
  }

  lemma {:induction false} NextPage(q: Query, start: int, before: seq<Event>, log: seq<Event>, got: seq<Event>,
                                    mid: int, page: Response)
    requires page.Page? && Grown(before, log) && start <= mid <= Latest(before)
              && got == Selected(before, q, start, mid)
    requires GoodPage(log, q, mid, page)
    ensures got + page.items == Selected(log, q, start, page.next)
  {
    CursorCarries(before, log, q, start, mid);
    SelectedSplits(log, q, start, mid, page.next);
  }

  /** Through any mix of full, empty, timed-out and shutdown pages, the client has received exactly the selected events
      between its first and its present cursor, each once and in order. */
  lemma {:induction false} ExactlyOncePaging(q: Query, start: int, logs: seq<seq<Event>>, pages: seq<Response>, n: nat)
    requires Followed(q, start, logs, pages) && n < |pages|
    ensures start <= pages[n].next <= Latest(logs[n])
    ensures Received(pages, n + 1) == Selected(logs[n], q, start, pages[n].next)
    ensures Ordered(Received(pages, n + 1))
  {
    assert Served(q, start, logs, pages, n);
    if n == 0 {
      assert Received(pages, 0) == [];
    } else {
      ExactlyOncePaging(q, start, logs, pages, n - 1);
      NextPage(q, start, logs[n - 1], logs[n], Received(pages, n), pages[n - 1].next, pages[n]);
    }
    SelectedOrdered(logs[n], q, start, pages[n].next);
  }
}
