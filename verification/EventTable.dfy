/** The webhook table of every interleaving, row by row: what each commit put there and what
    became of it. */
module EventTable {
  import opened Options
  import opened Tables
  import opened Ledger
  import opened Interleaving
  import opened Guarantees
  import Deliveries

  /** The mark that transaction `t` committed, if it got that far. */
  function MarkOf(log: seq<Entry>, t: Tid): Option<Mark> {
    if log == [] then None
    else
      var e := log[|log| - 1];
      if e.Second? && e.tid == t then Some(Mark(e.hook.eventId, e.outcome, e.hook.markNow))
      else MarkOf(log[..|log| - 1], t)
  }

  /** What a request's first commit inserts: a gift's event is marked in the same commit. */
  function InsertedRow(req: Request): EventRow {
    if req.Deliver? then NewEvent(req) else MarkRow(NewEvent(req), None, req.gift.now)
  }

  /** What has become of that row by the end of the log. */
  function RowOf(log: seq<Entry>, t: Tid, req: Request): EventRow {
    var m := MarkOf(log, t);
    if req.Deliver? && m.Some? then MarkWith(NewEvent(req), m.value.outcome, m.value.at) else InsertedRow(req)
  }

  /** One row for each of the first `n` commits that recorded its event as new. */
  function RowsOf(log: seq<Entry>, n: nat): seq<EventRow>
    requires n <= |log|
  {
    if n == 0 then []
    else
      var e := log[n - 1];
      if e.First? && e.isNew then RowsOf(log, n - 1) + [RowOf(log, e.tid, e.req)] else RowsOf(log, n - 1)
  }

  lemma MarkOfSnoc(log: seq<Entry>, e: Entry, t: Tid)
    ensures MarkOf(log + [e], t)
            == if e.Second? && e.tid == t then Some(Mark(e.hook.eventId, e.outcome, e.hook.markNow)) else MarkOf(log, t)
  {
    assert (log + [e])[..|log|] == log;
  }

  lemma {:induction false} Unmarked(log: seq<Entry>, t: Tid)
    requires forall i :: 0 <= i < |log| && log[i].Second? ==> log[i].tid != t
    ensures MarkOf(log, t) == None
  {
    if log != [] {
      Unmarked(log[..|log| - 1], t);
    }
  }

  /** What a first commit does to the table. */
  lemma TxEvents(db: Db, req: Request)
    ensures Tx(db, req).events
            == if RecordsEvent(req) && !Taken(db, EventKey(EventIdOf(req))) then db.events + [InsertedRow(req)]
               else db.events
  {
    assert Taken(db, EventKey(EventIdOf(req))) <==> FindEvent(db.events, EventIdOf(req)).Some?;
    if !req.Deliver? && req.gift.rail == Test && FindEvent(db.events, EventIdOf(req)).None? {
      MarkOnNew(db.events, NewEvent(req), Mark(EventIdOf(req), Done, req.gift.now));
    }
  }

  lemma {:induction false} RowsAfterFirst(log: seq<Entry>, e: Entry, n: nat)
    requires n <= |log| && e.First?
    ensures RowsOf(log + [e], n) == RowsOf(log, n)
  {
    if n > 0 {
      RowsAfterFirst(log, e, n - 1);
      MarkOfSnoc(log, e, log[n - 1].tid);
    }
  }

  /** A mark changes the one row of its event and no other. */
  lemma {:induction false} RowsAfterSecond(log: seq<Entry>, e: Entry, n: nat)
    requires n <= |log| && e.Second? && MarkOf(log, e.tid) == None
    requires forall i :: 0 <= i < |log| && log[i].First? && log[i].isNew ==>
               (log[i].tid == e.tid <==> EventIdOf(log[i].req) == e.hook.eventId)
               && (log[i].tid == e.tid ==> log[i].req == Deliver(e.hook))
    ensures RowsOf(log + [e], n) == MarkEvents(RowsOf(log, n), Mark(e.hook.eventId, e.outcome, e.hook.markNow))
  {
    if n > 0 {
      RowsAfterSecond(log, e, n - 1);
      var c := log[n - 1];
      MarkOfSnoc(log, e, c.tid);
      if c.First? && c.isNew {
        var m := Mark(e.hook.eventId, e.outcome, e.hook.markNow);
        assert RowOf(log, c.tid, c.req).providerEventId == EventIdOf(c.req);
        MarkSnoc(RowsOf(log, n - 1), RowOf(log, c.tid, c.req), m);
      }
    }
  }

  lemma MarkSnoc(events: seq<EventRow>, e: EventRow, m: Mark)
    ensures MarkEvents(events + [e], m)
            == MarkEvents(events, m) + [if e.providerEventId == m.eventId then MarkWith(e, m.outcome, m.at) else e]
  {
  }

  lemma FirstCommitKeepsTable(s: State, s1: State, e: Entry)
    requires History(s) && History(s1) && e.First? && s1.log == s.log + [e]
    requires s.db == Replay(s.log) && s1.db == Tx(s.db, e.req)
    requires s.db.events == RowsOf(s.log, |s.log|)
    ensures s1.db.events == RowsOf(s1.log, |s1.log|)
  {
    assert s1.log[..|s.log|] == s.log && s1.log[|s.log|] == e;
    assert e.isNew <==> RecordsEvent(e.req) && !Taken(s.db, EventKey(EventIdOf(e.req)));
    NotYetMarked(s, s1, e);
    hide History, Taken, Tx;
    TxEvents(s.db, e.req);
    RowsAfterFirst(s.log, e, |s.log|);
    MarkOfSnoc(s.log, e, e.tid);
  }

  lemma NotYetMarked(s: State, s1: State, e: Entry)
    requires SecondsOk(s) && FirstsOk(s1) && e.First? && s1.log == s.log + [e]
    ensures MarkOf(s.log, e.tid) == None
  {
    forall i | 0 <= i < |s.log| && s.log[i].Second? ensures s.log[i].tid != e.tid {
      var j :| 0 <= j < |s.log| && s.log[j] == First(s.log[i].tid, Deliver(s.log[i].hook), true);
      assert s1.log[j].tid != s1.log[|s.log|].tid;
    }
    Unmarked(s.log, e.tid);
  }

  lemma MarkersOwnEvent(s: State, s1: State, e: Entry)
    requires History(s) && SecondsOk(s1) && e.Second? && s1.log == s.log + [e]
    ensures MarkOf(s.log, e.tid) == None
    ensures forall i :: 0 <= i < |s.log| && s.log[i].First? && s.log[i].isNew ==>
              (s.log[i].tid == e.tid <==> EventIdOf(s.log[i].req) == e.hook.eventId)
              && (s.log[i].tid == e.tid ==> s.log[i].req == Deliver(e.hook))
  {
    assert s1.log[|s.log|] == e;
    forall i | 0 <= i < |s.log| && s.log[i].Second? ensures s.log[i].tid != e.tid {
      assert s1.log[i] == s.log[i];
    }
    Unmarked(s.log, e.tid);
    assert First(e.tid, Deliver(e.hook), true) in s1.log;
    var j :| 0 <= j < |s.log| && s.log[j] == First(e.tid, Deliver(e.hook), true);
    forall i | 0 <= i < |s.log| && i != j && s.log[i].First? && s.log[i].isNew
      ensures s.log[i].tid != e.tid && EventIdOf(s.log[i].req) != e.hook.eventId
    {
      if i < j {
        NewTwice(s.log, i, j);
      } else {
        NewTwice(s.log, j, i);
      }
    }
  }

  lemma SecondAddsNoRow(log: seq<Entry>)
    requires log != [] && log[|log| - 1].Second?
    ensures RowsOf(log, |log|) == RowsOf(log, |log| - 1)
  {
  }

  lemma SecondCommitKeepsTable(s: State, s1: State, e: Entry)
    requires History(s) && History(s1) && e.Second? && s1.log == s.log + [e]
    requires s1.db == MarkTx(s.db, e.hook, e.outcome)
    requires s.db.events == RowsOf(s.log, |s.log|)
    ensures s1.db.events == RowsOf(s1.log, |s1.log|)
  {
    MarkersOwnEvent(s, s1, e);
    assert s1.log[|s.log|] == e;
    hide History, RowsOf, MarkOf, MarkEvents, EventIdOf;
    RowsAfterSecond(s.log, e, |s.log|);
    SecondAddsNoRow(s1.log);
  }

  lemma ActionKeepsTable(run: seq<Action>, a: Action)
    requires Exec(run).db.events == RowsOf(Exec(run).log, |Exec(run).log|)
    ensures Exec(run + [a]).db.events == RowsOf(Exec(run + [a]).log, |Exec(run + [a]).log|)
  {
    ExecAppend(run, a);
    HistoryHolds(run);
    HistoryHolds(run + [a]);
    SerializedByCommitOrder(run);
    EachActionIsAllOrNothing(run, a);
    var s, s1 := Exec(run), Exec(run + [a]);
    hide Exec, Do, Inv, History, RowsOf, Replay, Tx, MarkTx;
    if s1.log != s.log {
      var e := s1.log[|s.log|];
      assert s1.log == s.log + [e];
      if e.First? {
        FirstCommitKeepsTable(s, s1, e);
      } else {
        SecondCommitKeepsTable(s, s1, e);
      }
    }
  }

  /** In every interleaving the webhook table is, in commit order, one row for each commit that
      recorded its event as new, marked exactly when that handler's second commit came. */
  lemma {:induction false} TableIsTheCommits(run: seq<Action>)
    ensures Exec(run).db.events == RowsOf(Exec(run).log, |Exec(run).log|)
  {
    if run != [] {
      var before, a := run[..|run| - 1], run[|run| - 1];
      assert run == before + [a];
      hide Exec, RowsOf;
      TableIsTheCommits(before);
      ActionKeepsTable(before, a);
    }
  }

  // ---- What every row says ----

  predicate SecondOf(log: seq<Entry>, j: int, t: Tid) {
    0 <= j < |log| && log[j].Second? && log[j].tid == t
  }

  /** A row says what its request said; a gift's is processed, and a webhook's stands where its
      handler's second commit, if there was one, left it. */
  ghost predicate RowSays(log: seq<Entry>, row: EventRow, e: Entry)
    requires e.First?
  {
    && SaysRequest(row, e.req)
    && if !e.req.Deliver? then GiftEventSays(row, e.req)
       else
         && (forall j :: SecondOf(log, j, e.tid) ==> EndsAs(row, e.req.hook, Completes(log[j].outcome)))
         && ((forall j :: !SecondOf(log, j, e.tid)) ==> EndsAs(row, e.req.hook, CrashesBetweenCommits))
  }

  lemma {:induction false} MarkOfIs(log: seq<Entry>, t: Tid) returns (j: int)
    ensures MarkOf(log, t).None? ==> forall i :: !SecondOf(log, i, t)
    ensures MarkOf(log, t).Some? ==>
              SecondOf(log, j, t)
              && MarkOf(log, t).value == Mark(log[j].hook.eventId, log[j].outcome, log[j].hook.markNow)
  {
    j := 0;
    if log != [] {
      var n := |log| - 1;
      var front := log[..n];
      assert forall i :: 0 <= i < n ==> front[i] == log[i];
      j := MarkOfIs(front, t);
      if log[n].Second? && log[n].tid == t {
        j := n;
      } else if MarkOf(log, t).None? {
        forall i ensures !SecondOf(log, i, t) {
          assert !SecondOf(front, i, t);
        }
      }
    }
  }

  lemma RowOfSays(s: State, i: nat)
    requires FirstsOk(s) && SecondsOk(s) && i < |s.log| && s.log[i].First?
    ensures RowSays(s.log, RowOf(s.log, s.log[i].tid, s.log[i].req), s.log[i])
  {
    var e, log := s.log[i], s.log;
    var row := RowOf(log, e.tid, e.req);
    var j := MarkOfIs(log, e.tid);
    if e.req.Deliver? {
      if MarkOf(log, e.tid).Some? {
        OneSecond(s, i, j);
      }
    } else {
      NewRowsSay(e.req, 0);
    }
    hide FirstsOk, SecondsOk, MarkOf;
  }

  lemma OneSecond(s: State, i: nat, j: nat)
    requires FirstsOk(s) && SecondsOk(s) && i < |s.log| && s.log[i].First? && SecondOf(s.log, j, s.log[i].tid)
    ensures s.log[i].req == Deliver(s.log[j].hook)
    ensures forall k :: SecondOf(s.log, k, s.log[i].tid) ==> k == j
  {
    assert First(s.log[j].tid, Deliver(s.log[j].hook), true) in s.log;
    var f :| 0 <= f < |s.log| && s.log[f] == First(s.log[j].tid, Deliver(s.log[j].hook), true);
    assert f == i;
  }

  /** The commits that recorded their event, in order. */
  function Recording(log: seq<Entry>, n: nat): (r: seq<Entry>)
    requires n <= |log|
    ensures forall e :: e in r ==> e.First? && e.isNew
  {
    if n == 0 then []
    else if log[n - 1].First? && log[n - 1].isNew then Recording(log, n - 1) + [log[n - 1]]
    else Recording(log, n - 1)
  }

  lemma {:induction false} RowsSay(s: State, n: nat)
    requires FirstsOk(s) && SecondsOk(s) && n <= |s.log|
    ensures var rows, entries := RowsOf(s.log, n), Recording(s.log, n);
            |rows| == |entries| && forall k :: 0 <= k < |rows| ==> RowSays(s.log, rows[k], entries[k])
  {
    if n > 0 {
      hide FirstsOk, SecondsOk, RowOf, RowSays;
      RowsSay(s, n - 1);
      if s.log[n - 1].First? {
        RowOfSays(s, n - 1);
      }
    }
  }

  /** In the words of the requests: the k-th row says what the k-th recording commit's form or
      delivery said, and stands where that handler left it. */
  lemma TableSaysTheCommits(run: seq<Action>)
    ensures var s := Exec(run);
            var entries := Recording(s.log, |s.log|);
            |s.db.events| == |entries| && forall k :: 0 <= k < |entries| ==> RowSays(s.log, s.db.events[k], entries[k])
  {
    TableIsTheCommits(run);
    HistoryHolds(run);
    hide Exec, RowsOf, Recording, RowSays, FlagsOk, FirstsOk, SecondsOk;
    RowsSay(Exec(run), |Exec(run).log|);
  }

  // ---- What every row looks like ----

  /** Received, unprocessed and never attempted are the same thing; a row is marked by one
      handler, whose fault path may count two attempts; a test event is processed at once. */
  predicate RowOk(r: EventRow) {
    && (r.status == Received <==> r.attempts == 0)
    && (r.processedAt.None? <==> r.attempts == 0)
    && r.attempts <= 2
    && (r.provider == Test ==> r.status == Processed && r.attempts == 1)
  }

  ghost predicate LogWellFormed(log: seq<Entry>) {
    forall i :: 0 <= i < |log| && log[i].First? ==> WellFormed(log[i].req)
  }

  lemma LogIsWellFormed(run: seq<Action>)
    ensures LogWellFormed(Exec(run).log) && FlagsOk(Exec(run).log)
  {
    HistoryHolds(run);
  }

  lemma {:induction false} RowsAreOk(log: seq<Entry>, n: nat, r: EventRow)
    requires n <= |log| && LogWellFormed(log) && r in RowsOf(log, n)
    ensures RowOk(r)
  {
    if r in RowsOf(log, n - 1) {
      RowsAreOk(log, n - 1, r);
    }
  }

  /** In every committed state `received`, no `processed_at` and zero attempts are equivalent,
      and no event is marked by two handlers. */
  lemma EventRowsConsistent(run: seq<Action>, r: EventRow)
    requires r in Exec(run).db.events
    ensures RowOk(r)
  {
    TableIsTheCommits(run);
    LogIsWellFormed(run);
    RowsAreOk(Exec(run).log, |Exec(run).log|, r);
  }

  // ---- Order and repetition across interleavings ----

  /** The body of the event a request carries. */
  function BodyOf(req: Request): Deliveries.EventBody {
    match req
    case Deliver(h) => Deliveries.HookBody(h)
    case OneOff(g) =>
      var id := "test_evt_" + g.eventToken;
      Deliveries.EventBody(
        Test, id, "payment.succeeded", Synthetic(id, "payment.succeeded", "test_pay_" + g.token), true)
    case Monthly(g) =>
      var id := "test_evt_" + g.eventToken;
      Deliveries.EventBody(
        Test, id, "subscription.activated", Synthetic(id, "subscription.activated", "test_sub_" + g.token), true)
  }

  /** The bodies of the events that the first `n` commits carried, repeats included. */
  function CarriedBodies(log: seq<Entry>, n: nat): seq<Deliveries.EventBody>
    requires n <= |log|
  {
    if n == 0 then []
    else
      var front, e := CarriedBodies(log, n - 1), log[n - 1];
      if e.First? && RecordsEvent(e.req) then front + [BodyOf(e.req)] else front
  }

  lemma {:induction false} CarriedHas(log: seq<Entry>, i: nat, n: nat)
    requires i < n <= |log| && log[i].First? && RecordsEvent(log[i].req)
    ensures BodyOf(log[i].req) in CarriedBodies(log, n)
    decreases n
  {
    hide RecordsEvent, BodyOf;
    if i < n - 1 {
      CarriedHas(log, i, n - 1);
    }
  }

  lemma RowBody(log: seq<Entry>, t: Tid, req: Request)
    ensures Deliveries.EventBodyOf(RowOf(log, t, req)) == BodyOf(req) && BodyOf(req).eventId == EventIdOf(req)
  {
  }

  /** A commit that does not record its event carries the body some earlier commit recorded. */
  lemma RepeatCarriesNothingNew(log: seq<Entry>, n: nat)
    requires n < |log| && FlagsOk(log) && log[n].First? && RecordsEvent(log[n].req) && !log[n].isNew
    requires Deliveries.OneBodyPerId(CarriedBodies(log, n + 1))
    ensures BodyOf(log[n].req) in CarriedBodies(log, n)
  {
    var id := EventIdOf(log[n].req);
    TakenIffRecorded(log, n, id);
    assert RecordedBefore(log, n, id);
    var j :| j < n && NewAt(log, j, id);
    assert log[j].isNew ==> RecordsEvent(log[j].req);
    CarriedHas(log, j, n);
    RowBody(log, log[j].tid, log[j].req);
    RowBody(log, log[n].tid, log[n].req);
    hide FlagsOk, Taken, RecordedBefore, BodyOf;
    assert BodyOf(log[j].req) in CarriedBodies(log, n + 1) && BodyOf(log[n].req) in CarriedBodies(log, n + 1);
  }

  lemma {:induction false} RowsCarry(log: seq<Entry>, n: nat)
    requires n <= |log| && FlagsOk(log) && Deliveries.OneBodyPerId(CarriedBodies(log, n))
    ensures Deliveries.SameElements(Deliveries.EventBodies(RowsOf(log, n)), CarriedBodies(log, n))
  {
    if n > 0 {
      var e := log[n - 1];
      assert forall b :: b in CarriedBodies(log, n - 1) ==> b in CarriedBodies(log, n);
      RowsCarry(log, n - 1);
      if e.First? {
        assert e.isNew ==> RecordsEvent(e.req);
        if RecordsEvent(e.req) && !e.isNew {
          RepeatCarriesNothingNew(log, n - 1);
        }
        RowBody(log, e.tid, e.req);
        Deliveries.BodiesSnoc(RowsOf(log, n - 1), RowOf(log, e.tid, e.req));
      }
      hide FlagsOk, BodyOf, RecordsEvent, Deliveries.OneBodyPerId, Deliveries.EventBodies, RowOf;
    }
  }

  lemma BodiesDiffer(events: seq<EventRow>)
    requires DistinctEvents(events)
    ensures Deliveries.NoRepeats(Deliveries.EventBodies(events)) && |Deliveries.EventBodies(events)| == |events|
  {
  }

  /** Two interleavings whose commits carried the same events, each id always with one body, in
      whatever order, at whatever times, however often and between whatever crashes, leave the
      same events and as many. */
  lemma InterleavingsAgree(run: seq<Action>, other: seq<Action>)
    requires var log, log' := Exec(run).log, Exec(other).log;
             && Deliveries.OneBodyPerId(CarriedBodies(log, |log|))
             && Deliveries.SameElements(CarriedBodies(log, |log|), CarriedBodies(log', |log'|))
    ensures var a, b := Exec(run).db.events, Exec(other).db.events;
            Deliveries.SameElements(Deliveries.EventBodies(a), Deliveries.EventBodies(b)) && |a| == |b|
  {
    var log, log' := Exec(run).log, Exec(other).log;
    LogIsWellFormed(run);
    LogIsWellFormed(other);
    TableIsTheCommits(run);
    TableIsTheCommits(other);
    CommittedRowsAreUnique(run);
    CommittedRowsAreUnique(other);
    hide Exec, CarriedBodies, RowsOf, FlagsOk, LogWellFormed;
    RowsCarry(log, |log|);
    RowsCarry(log', |log'|);
    BodiesDiffer(Exec(run).db.events);
    BodiesDiffer(Exec(other).db.events);
    Deliveries.SameSize(Deliveries.EventBodies(Exec(run).db.events), Deliveries.EventBodies(Exec(other).db.events));
  }
}
