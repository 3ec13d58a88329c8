/** What every interleaving guarantees: each event id is recorded and processed at most once,
    every commit is all or nothing, and late deliveries change nothing. */
module Guarantees {
  import opened Tables
  import opened Ledger
  import opened Interleaving

  // ---- History: what the log says about the committed rows and the open transactions ----

  predicate Marking(x: Txn) {
    x.pc == LockEvent || x.pc == MarkReady
  }

  /** The `is_new` flag of a commit is true exactly when no earlier commit left its event id. */
  ghost predicate FlagsOk(log: seq<Entry>) {
    forall i :: 0 <= i < |log| && log[i].First? ==>
      (log[i].isNew <==> RecordsEvent(log[i].req) && !Taken(Replay(log[..i]), EventKey(EventIdOf(log[i].req))))
  }

  ghost predicate FirstsOk(s: State) {
    && (forall i :: 0 <= i < |s.log| ==> s.log[i].tid in s.started)
    && (forall i :: 0 <= i < |s.log| && s.log[i].First? ==> s.started[s.log[i].tid] == s.log[i].req)
    && (forall i, j :: 0 <= i < j < |s.log| && s.log[i].First? && s.log[j].First? ==> s.log[i].tid != s.log[j].tid)
    && (forall i :: 0 <= i < |s.log| && s.log[i].First? && s.log[i].tid in s.txns ==> Marking(s.txns[s.log[i].tid]))
    && (forall t :: t in s.txns && Marking(s.txns[t]) ==> First(t, s.txns[t].req, true) in s.log)
  }

  ghost predicate SecondsOk(s: State) {
    && (forall i :: 0 <= i < |s.log| && s.log[i].Second? ==> s.log[i].tid !in s.txns)
    && (forall i, j :: 0 <= i < j < |s.log| && s.log[i].Second? && s.log[j].Second? ==> s.log[i].tid != s.log[j].tid)
    && (forall i :: 0 <= i < |s.log| && s.log[i].Second? ==>
          First(s.log[i].tid, Deliver(s.log[i].hook), true) in s.log)
  }

  ghost predicate History(s: State) {
    && FlagsOk(s.log) && FirstsOk(s) && SecondsOk(s)
    && (forall t :: t in s.started ==> WellFormed(s.started[t]))
  }

  lemma FlagsAppend(log: seq<Entry>, e: Entry)
    requires FlagsOk(log)
    requires e.First? ==>
               (e.isNew <==> RecordsEvent(e.req) && !Taken(Replay(log), EventKey(EventIdOf(e.req))))
    ensures FlagsOk(log + [e])
  {
    var out := log + [e];
    assert out[..|log|] == log;
    forall i | 0 <= i < |log| ensures out[i] == log[i] && out[..i] == log[..i] {
    }
  }

  lemma LocalHistory(s: State, t: Tid, y: Txn)
    requires History(s) && t in s.txns && y.req == s.txns[t].req && Marking(y) == Marking(s.txns[t])
    ensures History(Put(s, t, y))
  {
  }

  lemma DropHistory(s: State, t: Tid)
    requires History(s)
    ensures History(Drop(s, t))
  {
  }

  lemma BeginHistory(s: State, t: Tid, req: Request)
    requires History(s) && t !in s.started && WellFormed(req)
    ensures History(s.(txns := s.txns[t := Start(req)], started := s.started[t := req]))
  {
  }

  lemma FirstKeepsFirsts(s: State, s1: State, t: Tid, e: Entry)
    requires FirstsOk(s) && t in s.txns && !Marking(s.txns[t])
    requires t in s.started && s.started[t] == s.txns[t].req
    requires e.First? && e.tid == t && e.req == s.txns[t].req
    requires s1.started == s.started && s1.log == s.log + [e]
    requires s1.txns == s.txns - {t} || (e.isNew && s1.txns == s.txns[t := Reopened(s.txns[t])])
    ensures FirstsOk(s1)
  {
    assert e in s1.log;
  }

  lemma FirstKeepsSeconds(s: State, s1: State, t: Tid, e: Entry)
    requires SecondsOk(s) && t in s.txns && e.First?
    requires s1.log == s.log + [e]
    requires s1.txns == s.txns - {t} || s1.txns == s.txns[t := Reopened(s.txns[t])]
    ensures SecondsOk(s1)
  {
  }

  lemma SecondKeepsFirsts(s: State, s1: State, t: Tid, e: Entry)
    requires FirstsOk(s) && t in s.started && e.Second? && e.tid == t
    requires s1.started == s.started && s1.log == s.log + [e] && s1.txns == s.txns - {t}
    ensures FirstsOk(s1)
  {
  }

  lemma SecondKeepsSeconds(s: State, s1: State, t: Tid, e: Entry)
    requires SecondsOk(s) && t in s.txns && e.Second? && e.tid == t
    requires First(t, Deliver(e.hook), true) in s.log
    requires s1.log == s.log + [e] && s1.txns == s.txns - {t}
    ensures SecondsOk(s1)
  {
  }

  lemma FirstCommitHistory(s: State, t: Tid, outcome: MarkOutcome)
    requires History(s) && t in s.txns && s.txns[t].pc == Ready && TxnOk(s.db, s.txns[t])
    requires s.db == Replay(s.log) && t in s.started && s.started[t] == s.txns[t].req
    ensures History(Advance(s, t, outcome))
  {
    var x := s.txns[t];
    var e := First(t, x.req, x.eventNew);
    FlagIsAccurate(s.db, x);
    FlagsAppend(s.log, e);
    FirstCommitShape(s, t, outcome);
    var s1 := Advance(s, t, outcome);
    hide FlagsOk, FirstsOk, SecondsOk, TxnOk, Taken, Apply, Advance;
    assert s1.txns == s.txns - {t} || s1.txns == s.txns[t := Reopened(x)];
    FirstKeepsFirsts(s, s1, t, e);
    FirstKeepsSeconds(s, s1, t, e);
  }

  lemma SecondCommitHistory(s: State, t: Tid, outcome: MarkOutcome)
    requires History(s) && t in s.txns && s.txns[t].pc == MarkReady && TxnOk(s.db, s.txns[t])
    requires t in s.started && s.started[t] == s.txns[t].req
    ensures History(Advance(s, t, outcome))
  {
    var x := s.txns[t];
    var e := Second(t, x.req.hook, x.writes.mark.value.outcome);
    FlagsAppend(s.log, e);
    var s1 := Advance(s, t, outcome);
    assert First(t, Deliver(e.hook), true) in s.log;
    hide FlagsOk, FirstsOk, SecondsOk, TxnOk, Taken, Apply;
    SecondKeepsFirsts(s, s1, t, e);
    SecondKeepsSeconds(s, s1, t, e);
  }

  lemma DoHistory(s: State, a: Action)
    requires Inv(s) && History(s)
    ensures History(Do(s, a))
  {
    match a
    case Begin(t, req) =>
      if t !in s.started && WellFormed(req) {
        BeginHistory(s, t, req);
      }
    case Abort(t) => DropHistory(s, t);
    case Step(t, outcome) =>
      if t in s.txns && !Blocked(s, t) {
        if s.txns[t].pc == Ready {
          FirstCommitHistory(s, t, outcome);
        } else if s.txns[t].pc == MarkReady {
          SecondCommitHistory(s, t, outcome);
        } else {
          LocalStepHistory(s, t, outcome);
        }
      }
  }

  lemma NextMarking(db: Db, x: Txn, outcome: MarkOutcome)
    requires PcFits(x) && !Commits(x.pc)
    ensures Marking(Next(db, x, outcome)) == Marking(x) && Next(db, x, outcome).req == x.req
  {
    hide Apply, Taken, FindDonor, MarkedOwn;
  }

  lemma LocalStepHistory(s: State, t: Tid, outcome: MarkOutcome)
    requires History(s) && t in s.txns && PcFits(s.txns[t]) && !Commits(s.txns[t].pc)
    ensures History(Advance(s, t, outcome))
  {
    hide History, Next, Apply, Taken, PcFits;
    NextMarking(s.db, s.txns[t], outcome);
    DropHistory(s, t);
    LocalHistory(s, t, Next(s.db, s.txns[t], outcome));
  }

  lemma {:induction false} HistoryHolds(run: seq<Action>)
    ensures History(Exec(run)) && Inv(Exec(run))
  {
    InvHolds(run);
    if run != [] {
      HistoryHolds(run[..|run| - 1]);
      DoHistory(Exec(run[..|run| - 1]), run[|run| - 1]);
    }
  }

  // ---- Taken keys stay taken ----

  lemma DonorPartKeys(db: Db, req: Request, k: Key)
    requires !req.Deliver? && Taken(db, k)
    ensures Taken(GiveConsent(WithDonor(db, req.gift).0, req), k)
  {
    var db1 := WithDonor(db, req.gift).0;
    assert Taken(db1, k);
    if k.DonorKey? {
      ConsentedKeepsEmails(db1.donors, req.gift.email, NewConsent(req), k.email);
    }
  }

  lemma GiftPartKeys(db: Db, req: Request, donorId: RowId, k: Key)
    requires !req.Deliver?
    ensures Taken(db, k) ==> Taken(WithGift(db, req, donorId).0, k)
    ensures k.EventKey? ==>
              (Taken(WithGift(db, req, donorId).0, k) <==> Taken(db, k) || k.eventId == EventIdOf(req))
  {
    var rows := db.events + [NewEvent(req)];
    assert NewEvent(req) in rows;
    if k.EventKey? {
      MarkKeepsIds(rows, Mark(EventIdOf(req), Done, req.gift.now), k.eventId);
    }
  }

  /** A commit frees no key, and takes its own event id and no other. */
  lemma TxKeys(db: Db, req: Request, k: Key)
    ensures Taken(db, k) ==> Taken(Tx(db, req), k)
    ensures k.EventKey? ==>
              (Taken(Tx(db, req), k) <==> Taken(db, k) || (RecordsEvent(req) && k.eventId == EventIdOf(req)))
  {
    if req.Deliver? {
      assert NewEvent(req) in db.events + [NewEvent(req)];
    } else {
      var (db1, donorId) := WithDonor(db, req.gift);
      var db2 := GiveConsent(db1, req);
      var db3 := if req.Monthly? then WithSub(db2, req.gift, donorId) else db2;
      if Taken(db, k) {
        DonorPartKeys(db, req, k);
        assert Taken(db3, k);
      }
      GiftPartKeys(db3, req, donorId, k);
    }
  }

  lemma MarkTxKeys(db: Db, h: Hook, outcome: MarkOutcome, k: Key)
    ensures Taken(MarkTx(db, h, outcome), k) <==> Taken(db, k)
  {
    if k.EventKey? {
      MarkKeepsIds(db.events, Mark(h.eventId, outcome, h.markNow), k.eventId);
    }
  }

  lemma ReplayStep(log: seq<Entry>, i: nat)
    requires i < |log|
    ensures Replay(log[..i + 1]) == Replay1(Replay(log[..i]), log[i])
  {
    assert log[..i + 1] == log[..i] + [log[i]];
    ReplaySnoc(log[..i], log[i]);
  }

  lemma ReplayKeepsTaken1(log: seq<Entry>, i: nat, k: Key)
    requires i < |log| && Taken(Replay(log[..i]), k)
    ensures Taken(Replay(log[..i + 1]), k)
  {
    ReplayStep(log, i);
    match log[i]
    case First(_, req, _) => TxKeys(Replay(log[..i]), req, k);
    case Second(_, h, outcome) => MarkTxKeys(Replay(log[..i]), h, outcome, k);
  }

  lemma {:induction false} ReplayKeepsTaken(log: seq<Entry>, i: nat, j: nat, k: Key)
    requires i <= j <= |log| && Taken(Replay(log[..i]), k)
    ensures Taken(Replay(log[..j]), k)
    decreases j - i
  {
    if i < j {
      ReplayKeepsTaken1(log, i, k);
      ReplayKeepsTaken(log, i + 1, j, k);
    }
  }

  // ---- At most one handler per event id records it ----

  lemma NewTwice(log: seq<Entry>, i: nat, j: nat)
    requires FlagsOk(log) && i < j < |log|
    requires log[i].First? && log[i].isNew && log[j].First? && log[j].isNew
    ensures EventIdOf(log[i].req) != EventIdOf(log[j].req)
  {
    var k := EventKey(EventIdOf(log[i].req));
    ReplayStep(log, i);
    TxKeys(Replay(log[..i]), log[i].req, k);
    ReplayKeepsTaken(log, i + 1, j, k);
  }

  /** At most one commit per event id carries `is_new`. */
  lemma AtMostOneNewPerEvent(run: seq<Action>, i: nat, j: nat)
    requires var log := Exec(run).log;
             && i < |log| && j < |log| && log[i].First? && log[j].First? && log[i].isNew && log[j].isNew
             && EventIdOf(log[i].req) == EventIdOf(log[j].req)
    ensures i == j
  {
    HistoryHolds(run);
    if i < j {
      NewTwice(Exec(run).log, i, j);
    } else if j < i {
      NewTwice(Exec(run).log, j, i);
    }
  }

  /** At most one commit per event id marks it: processing is at most once. */
  lemma AtMostOneMarkPerEvent(run: seq<Action>, i: nat, j: nat)
    requires var log := Exec(run).log;
             && i < |log| && j < |log| && log[i].Second? && log[j].Second?
             && log[i].hook.eventId == log[j].hook.eventId
    ensures i == j
  {
    HistoryHolds(run);
    var log := Exec(run).log;
    var a :| 0 <= a < |log| && log[a] == First(log[i].tid, Deliver(log[i].hook), true);
    var b :| 0 <= b < |log| && log[b] == First(log[j].tid, Deliver(log[j].hook), true);
    AtMostOneNewPerEvent(run, a, b);
  }

  predicate NewAt(log: seq<Entry>, i: int, id: string) {
    0 <= i < |log| && log[i].First? && log[i].isNew && EventIdOf(log[i].req) == id
  }

  ghost predicate RecordedBefore(log: seq<Entry>, n: nat, id: string) {
    exists i :: i < n && NewAt(log, i, id)
  }

  lemma TakenStep(log: seq<Entry>, n: nat, id: string)
    requires n < |log|
    ensures Taken(Replay(log[..n + 1]), EventKey(id))
            <==> Taken(Replay(log[..n]), EventKey(id))
                 || (log[n].First? && RecordsEvent(log[n].req) && EventIdOf(log[n].req) == id)
  {
    ReplayStep(log, n);
    hide Taken, Tx, MarkTx, Replay;
    match log[n]
    case First(_, req, _) => TxKeys(Replay(log[..n]), req, EventKey(id));
    case Second(_, h, outcome) => MarkTxKeys(Replay(log[..n]), h, outcome, EventKey(id));
  }

  /** The committed event ids are exactly those some commit recorded as new. */
  lemma {:induction false} TakenIffRecorded(log: seq<Entry>, n: nat, id: string)
    requires FlagsOk(log) && n <= |log|
    ensures Taken(Replay(log[..n]), EventKey(id)) <==> RecordedBefore(log, n, id)
  {
    if n > 0 {
      var e := log[n - 1];
      TakenIffRecorded(log, n - 1, id);
      TakenStep(log, n - 1, id);
      assert RecordedBefore(log, n, id) <==> RecordedBefore(log, n - 1, id) || NewAt(log, n - 1, id);
      assert e.First? ==>
          (e.isNew <==> RecordsEvent(e.req) && !Taken(Replay(log[..n - 1]), EventKey(EventIdOf(e.req))));
      hide Taken, Replay, FlagsOk, RecordedBefore;
      assert NewAt(log, n - 1, id) <==> e.First? && e.isNew && EventIdOf(e.req) == id;
    }
  }

  /** A webhook that does not record the event finds it recorded by an earlier commit, and its
      own commit changes no table. */
  lemma EveryOtherHandlerSeesTheRow(run: seq<Action>, i: nat)
    requires var log := Exec(run).log;
             i < |log| && log[i].First? && log[i].req.Deliver? && !log[i].isNew
    ensures var log := Exec(run).log;
            && Replay(log[..i + 1]) == Replay(log[..i])
            && RecordedBefore(log, i, log[i].req.hook.eventId)
  {
    HistoryHolds(run);
    var log := Exec(run).log;
    ReplayStep(log, i);
    TakenIffRecorded(log, i, log[i].req.hook.eventId);
  }

  /** Everything about an event row that marking leaves alone. */
  predicate SameBody(r: EventRow, e: EventRow) {
    && r.provider == e.provider && r.providerEventId == e.providerEventId && r.eventType == e.eventType
    && r.payload == e.payload && r.signatureValid == e.signatureValid && r.receivedAt == e.receivedAt
  }

  ghost predicate Stored(events: seq<EventRow>, e: EventRow) {
    exists r :: r in events && SameBody(r, e)
  }

  lemma MarkKeepsStored(events: seq<EventRow>, m: Mark, e: EventRow)
    requires Stored(events, e)
    ensures Stored(MarkEvents(events, m), e)
  {
    var i :| 0 <= i < |events| && SameBody(events[i], e);
    assert SameBody(MarkEvents(events, m)[i], e) && MarkEvents(events, m)[i] in MarkEvents(events, m);
  }

  lemma GiftKeepsStored(db: Db, req: Request, donorId: RowId, e: EventRow)
    requires !req.Deliver?
    ensures Stored(db.events, e) ==> Stored(WithGift(db, req, donorId).0.events, e)
    ensures WithGift(db, req, donorId).1 ==> Stored(WithGift(db, req, donorId).0.events, NewEvent(req))
  {
    var rows := db.events + [NewEvent(req)];
    var m := Mark(EventIdOf(req), Done, req.gift.now);
    assert NewEvent(req) in rows && SameBody(NewEvent(req), NewEvent(req));
    MarkKeepsStored(rows, m, NewEvent(req));
    if Stored(db.events, e) {
      assert Stored(rows, e);
      MarkKeepsStored(rows, m, e);
    }
  }

  lemma TxKeepsStored(db: Db, req: Request, e: EventRow)
    ensures Stored(db.events, e) ==> Stored(Tx(db, req).events, e)
    ensures RecordsEvent(req) && !Taken(db, EventKey(EventIdOf(req))) ==> Stored(Tx(db, req).events, NewEvent(req))
  {
    if req.Deliver? {
      var rows := db.events + [NewEvent(req)];
      assert NewEvent(req) in rows && SameBody(NewEvent(req), NewEvent(req));
    } else {
      var (db1, donorId) := WithDonor(db, req.gift);
      var db2 := GiveConsent(db1, req);
      var db3 := if req.Monthly? then WithSub(db2, req.gift, donorId) else db2;
      assert db3.events == db.events;
      GiftKeepsStored(db3, req, donorId, e);
      hide Stored;
    }
  }

  lemma StoredStays(log: seq<Entry>, n: nat, e: EventRow)
    requires n < |log| && Stored(Replay(log[..n]).events, e)
    ensures Stored(Replay(log[..n + 1]).events, e)
  {
    ReplayStep(log, n);
    hide Stored, Tx, Replay, Taken;
    var before := Replay(log[..n]);
    match log[n]
    case First(_, req, _) => TxKeepsStored(before, req, e);
    case Second(_, h, outcome) => MarkKeepsStored(before.events, Mark(h.eventId, outcome, h.markNow), e);
  }

  lemma NewIsStored(log: seq<Entry>, i: nat)
    requires FlagsOk(log) && i < |log| && log[i].First? && log[i].isNew
    ensures Stored(Replay(log[..i + 1]).events, NewEvent(log[i].req))
  {
    var req := log[i].req;
    assert RecordsEvent(req) && !Taken(Replay(log[..i]), EventKey(EventIdOf(req)));
    ReplayStep(log, i);
    hide Stored, Tx, Replay, Taken, FlagsOk;
    TxKeepsStored(Replay(log[..i]), req, NewEvent(req));
  }

  lemma {:induction false} RecordedIsStored(log: seq<Entry>, i: nat, n: nat)
    requires FlagsOk(log) && i < n <= |log| && log[i].First? && log[i].isNew
    ensures Stored(Replay(log[..n]).events, NewEvent(log[i].req))
    decreases n
  {
    hide Stored, Replay, Taken, FlagsOk;
    if i == n - 1 {
      NewIsStored(log, i);
    } else {
      RecordedIsStored(log, i, n - 1);
      StoredStays(log, n - 1, NewEvent(log[i].req));
    }
  }

  /** What an event row says of the request that recorded it, whatever became of it since. */
  predicate SaysRequest(r: EventRow, req: Request) {
    if req.Deliver? then HookSays(r, req.hook)
    else
      && r.provider == Test && r.providerEventId == "test_evt_" + req.gift.eventToken
      && r.eventType == (if req.OneOff? then "payment.succeeded" else "subscription.activated")
      && PayloadSays(r.payload, req) && r.signatureValid && r.receivedAt == req.gift.now
  }

  lemma SameBodySays(r: EventRow, req: Request)
    requires SameBody(r, NewEvent(req))
    ensures SaysRequest(r, req)
  {
  }

  /** Where deliveries of one id carry different bodies, the row keeps the first committed one. */
  lemma FirstCommittedWins(run: seq<Action>, i: nat, r: EventRow)
    requires var log := Exec(run).log; i < |log| && log[i].First? && log[i].isNew
    requires r in Exec(run).db.events && r.providerEventId == EventIdOf(Exec(run).log[i].req)
    ensures SameBody(r, NewEvent(Exec(run).log[i].req))
    ensures SaysRequest(r, Exec(run).log[i].req)
  {
    HistoryHolds(run);
    var log := Exec(run).log;
    assert log[..|log|] == log;
    RecordedIsStored(log, i, |log|);
    hide Exec, Replay, FlagsOk, FirstsOk, SecondsOk;
    var q :| q in Exec(run).db.events && SameBody(q, NewEvent(log[i].req));
    assert q == r by {
      assert DistinctEvents(Exec(run).db.events);
    }
    SameBodySays(r, log[i].req);
  }

  lemma DoLog(s: State, a: Action)
    ensures var s1 := Do(s, a);
            || (s1.db == s.db && s1.log == s.log)
            || (a.Step? && |s1.log| == |s.log| + 1 && s1.log == s.log + [s1.log[|s.log|]])
  {
    hide Apply, Taken, Next, Blocked, PcFits;
  }

  /** An action either leaves the tables and the log alone or is one whole commit. */
  lemma EachActionIsAllOrNothing(run: seq<Action>, a: Action)
    ensures var s, s1 := Exec(run), Do(Exec(run), a);
            || (s1.db == s.db && s1.log == s.log)
            || (a.Step? && |s1.log| == |s.log| + 1 && s1.log[..|s.log|] == s.log
                && s1.db == Replay1(s.db, s1.log[|s.log|]))
  {
    InvHolds(run);
    var s, s1 := Exec(run), Do(Exec(run), a);
    DoKeeps(s, a);
    DoLog(s, a);
    assert s.db == Replay(s.log) && s1.db == Replay(s1.log);
    hide Exec, Do, Inv, Replay1, Replay;
    if s1.log != s.log {
      ReplaySnoc(s.log, s1.log[|s.log|]);
    }
  }

  /** What one entry of the log does to the tables, in the words of its form or delivery. */
  ghost predicate EntryDone(a: Db, b: Db, e: Entry) {
    match e
    case First(_, req, isNew) =>
      if req.Deliver? then HookDone(a, b, req.hook, CrashesBetweenCommits) else GiftDone(a, b, req)
    case Second(_, h, outcome) =>
      && b == a.(events := b.events) && |b.events| == |a.events|
      && forall i :: 0 <= i < |a.events| ==>
           var was, row := a.events[i], b.events[i];
           if was.providerEventId != h.eventId then row == was
           else
             && row == was.(processedAt := row.processedAt, status := row.status, error := row.error,
                            attempts := row.attempts)
             && (was.attempts == 0 ==> EndsAs(row, h, Completes(outcome)))
  }

  lemma EntryIsDone(db: Db, e: Entry)
    ensures EntryDone(db, Replay1(db, e), e)
  {
    match e
    case First(_, req, _) =>
      if req.Deliver? {
        HandleIsDone(db, HookCall(true, true, true, req.hook, CrashesBetweenCommits));
        hide HookDone;
      } else {
        TxIsDone(db, req);
        hide GiftDone, Tx;
      }
    case Second(_, h, outcome) =>
      hide Tx, HandleTx;
      MarkIsDone(db, h, outcome, e);
  }

  lemma MarkIsDone(db: Db, h: Hook, outcome: MarkOutcome, e: Entry)
    requires e == Second(e.tid, h, outcome)
    ensures EntryDone(db, MarkTx(db, h, outcome), e)
  {
    hide GiftDone, HookDone;
  }

  /** In every interleaving each action changes nothing or leaves exactly what one form or one
      delivery says. */
  lemma EachActionDoesAsAsked(run: seq<Action>, a: Action)
    ensures var s, s1 := Exec(run), Do(Exec(run), a);
            || (s1.db == s.db && s1.log == s.log)
            || (|s1.log| == |s.log| + 1 && s1.log[..|s.log|] == s.log && EntryDone(s.db, s1.db, s1.log[|s.log|]))
  {
    EachActionIsAllOrNothing(run, a);
    var s, s1 := Exec(run), Do(Exec(run), a);
    hide Exec, Do, EntryDone, Replay1;
    if s1.log != s.log {
      EntryIsDone(s.db, s1.log[|s.log|]);
    }
  }

  // ---- Once an id is committed, later deliveries are inert ----

  /** `t` is a webhook for an id already committed that has written nothing so far. */
  ghost predicate Late(s: State, t: Tid, id: string) {
    && Taken(s.db, EventKey(id))
    && t in s.started && s.started[t].Deliver? && s.started[t].hook.eventId == id
    && (t in s.txns ==>
          && (s.txns[t].pc.SelectEvent? || s.txns[t].pc.InsertEvent? || s.txns[t].pc.Ready?)
          && !s.txns[t].eventNew)
  }

  lemma DbKeepsTaken(s: State, a: Action, k: Key)
    requires Taken(s.db, k)
    ensures Taken(Do(s, a).db, k)
  {
    hide Taken, Apply, Next;
    if a.Step? && a.t in s.txns {
      ApplyTakes(s.db, s.txns[a.t].writes, k);
    }
  }

  lemma LateOwnStep(s: State, t: Tid, outcome: MarkOutcome, id: string)
    requires Late(s, t, id) && t in s.txns
    requires TxnOk(s.db, s.txns[t]) && s.txns[t].req == s.started[t]
    ensures Late(Advance(s, t, outcome), t, id) && Advance(s, t, outcome).db == s.db
  {
    var x := s.txns[t];
    assert x.writes == NOTHING;
    assert Apply(s.db, NOTHING) == s.db;
  }

  lemma OthersUntouched(s: State, a: Action, t: Tid)
    requires a.t != t
    ensures t in Do(s, a).txns <==> t in s.txns
    ensures t in s.txns ==> Do(s, a).txns[t] == s.txns[t]
    ensures t in s.started ==> t in Do(s, a).started && Do(s, a).started[t] == s.started[t]
  {
    hide Apply, Taken, Next;
  }

  lemma OwnAction(s: State, a: Action, t: Tid, id: string)
    requires Inv(s) && Late(s, t, id) && a.t == t
    ensures Late(Do(s, a), t, id) && Do(s, a).db == s.db
  {
    if t in s.txns && a.Step? {
      assert TxnOk(s.db, s.txns[t]) && s.txns[t].req == s.started[t];
      hide Inv, TxnOk, Taken, Apply, Next;
      LateOwnStep(s, t, a.outcome, id);
    }
  }

  lemma LateStays(s: State, a: Action, t: Tid, id: string)
    requires Inv(s) && Late(s, t, id)
    ensures Late(Do(s, a), t, id)
    ensures a.t == t ==> Do(s, a).db == s.db
  {
    hide Inv, Do;
    if a.t == t {
      OwnAction(s, a, t, id);
    } else {
      DbKeepsTaken(s, a, EventKey(id));
      OthersUntouched(s, a, t);
    }
  }

  lemma {:induction false} LateThroughout(run: seq<Action>, later: seq<Action>, t: Tid, id: string)
    requires Late(Exec(run), t, id)
    ensures Late(Exec(run + later), t, id)
  {
    if later == [] {
      assert run + later == run;
    } else {
      var n := |later| - 1;
      LateThroughout(run, later[..n], t, id);
      InvHolds(run + later[..n]);
      LateStays(Exec(run + later[..n]), later[n], t, id);
      assert run + later == (run + later[..n]) + [later[n]];
      ExecAppend(run + later[..n], later[n]);
    }
  }

  /** A webhook that begins after its id was committed never changes a table, whatever runs
      beside it. */
  lemma LateDeliveryChangesNothing(run: seq<Action>, t: Tid, h: Hook, later: seq<Action>, outcome: MarkOutcome)
    requires Taken(Exec(run).db, EventKey(h.eventId)) && h.rail != Test && t !in Exec(run).started
    ensures var before := run + [Begin(t, Deliver(h))] + later;
            Exec(before + [Step(t, outcome)]).db == Exec(before).db
  {
    var begun := run + [Begin(t, Deliver(h))];
    ExecAppend(run, Begin(t, Deliver(h)));
    assert Late(Exec(begun), t, h.eventId);
    LateThroughout(begun, later, t, h.eventId);
    InvHolds(begun + later);
    LateStays(Exec(begun + later), Step(t, outcome), t, h.eventId);
    ExecAppend(begun + later, Step(t, outcome));
  }
}
