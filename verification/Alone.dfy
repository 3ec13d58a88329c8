/** A request that runs alone does what its handler is written to do: the interleaved steps of
    one transaction, with nothing beside it, add up to the handler's meaning on tables. */
module Alone {
  import opened Tables
  import opened Ledger
  import opened Interleaving
  import opened Deadlock
  import opened Guarantees

  ghost predicate CanFinish(db: Db, req: Request) {
    ProviderCanReturn(req) && SubFree(db, req)
  }

  /** What the handler leaves when nothing else runs: all of it, or nothing. */
  ghost function Solo(db: Db, req: Request, outcome: MarkOutcome): Db {
    if !CanFinish(db, req) then db
    else if req.Deliver? && !Taken(db, EventKey(req.hook.eventId)) then MarkTx(Tx(db, req), req.hook, outcome)
    else Tx(db, req)
  }

  /** What is still to come for a transaction that is alone at a given point. */
  ghost function Target(db: Db, x: Txn, outcome: MarkOutcome): Db {
    if x.req.Deliver? && (x.pc == LockEvent || x.pc == MarkReady) then MarkTx(db, x.req.hook, outcome)
    else Solo(db, x.req, outcome)
  }

  /** With nobody beside it, what a check found is still so at the insert. */
  ghost predicate ChecksHold(db: Db, x: Txn, outcome: MarkOutcome) {
    && PcFits(x)
    && (x.pc == InsertDonor || x.pc == InsertEvent || x.pc == InsertPayment ==> !Taken(db, Wants(x).value))
    && (x.pc == MarkReady ==> x.writes.mark.value.outcome == outcome)
  }

  lemma StartIsAlone(db: Db, req: Request, outcome: MarkOutcome)
    requires WellFormed(req)
    ensures ChecksHold(db, Start(req), outcome) && Target(db, Start(req), outcome) == Solo(db, req, outcome)
  {
  }

  /** Each insert comes right after the check that licenses it. */
  lemma WhatCameBefore(db: Db, x: Txn, outcome: MarkOutcome)
    requires PcFits(x) && !Commits(x.pc) && PcFits(Next(db, x, outcome))
    ensures var y, seen := Next(db, x, outcome), Apply(db, x.writes);
            && (y.pc == InsertDonor ==> x.pc == SelectDonor && FindDonor(seen.donors, x.req.gift.email).None?)
            && (y.pc == InsertEvent ==> x.pc == SelectEvent && !Taken(seen, EventKey(EventIdOf(x.req))))
            && (y.pc == InsertPayment ==> x.pc == SelectPayment && !Taken(seen, PayKey(PaymentIdOf(x.req))))
            && (y.pc == MarkReady ==> x.pc == LockEvent && y.writes.mark.value.outcome == outcome)
            && y.req == x.req
  {
    hide Apply, Taken, FindDonor, MarkedOwn, NewDonor, NewConsent, NewSub, NewEvent, NewDonation, Activated, Claim;
  }

  lemma SelectsSeeCommitted(db: Db, x: Txn)
    requires TxnOk(db, x)
    ensures x.pc == SelectDonor ==> Apply(db, x.writes) == db
    ensures x.pc == SelectEvent || x.pc == SelectPayment ==>
              forall k :: Taken(db, k) ==> Taken(Apply(db, x.writes), k)
  {
    forall k | Taken(db, k) ensures Taken(Apply(db, x.writes), k) {
      ApplyTakes(db, x.writes, k);
    }
    hide Taken;
    assert x.pc == SelectDonor ==> x.writes == NOTHING;
  }

  /** A check that finds no row licenses the insert after it. */
  lemma ChecksCarryOver(db: Db, x: Txn, outcome: MarkOutcome)
    requires TxnOk(db, x) && InOrder(x) && ChecksHold(db, x, outcome) && !Commits(x.pc)
    requires Inserts(x.pc) ==> !Taken(db, Wants(x).value)
    requires x.pc == CallProvider ==> ProviderCanReturn(x.req)
    ensures ChecksHold(db, Next(db, x, outcome), outcome)
  {
    NextOk(db, x, outcome);
    SelectsSeeCommitted(db, x);
    var y := Next(db, x, outcome);
    assert PcFits(x) && PcFits(y);
    hide TxnOk, InOrder, Next, Apply;
    WhatCameBefore(db, x, outcome);
    if y.pc == InsertDonor {
      assert Taken(db, DonorKey(x.req.gift.email)) <==> FindDonor(db.donors, x.req.gift.email).Some?;
    }
    hide Taken, FindDonor;
  }

  lemma LocalStepAlone(db: Db, x: Txn, outcome: MarkOutcome)
    requires TxnOk(db, x) && InOrder(x) && ChecksHold(db, x, outcome) && !Commits(x.pc)
    requires Inserts(x.pc) ==> !Taken(db, Wants(x).value)
    requires x.pc == CallProvider ==> ProviderCanReturn(x.req)
    ensures var y := Next(db, x, outcome);
            ChecksHold(db, y, outcome) && Target(db, y, outcome) == Target(db, x, outcome)
  {
    ChecksCarryOver(db, x, outcome);
    NextMarking(db, x, outcome);
    hide Next, TxnOk, InOrder, ChecksHold, Solo;
    assert Marking(x) ==> x.req.Deliver?;
  }

  /** An insert that fails, or a provider that raises, is a request that cannot finish. */
  lemma GivingUpIsRight(db: Db, x: Txn, outcome: MarkOutcome)
    requires TxnOk(db, x) && ChecksHold(db, x, outcome)
    requires (Inserts(x.pc) && Taken(db, Wants(x).value)) || (x.pc == CallProvider && !ProviderCanReturn(x.req))
    ensures Target(db, x, outcome) == db
  {
    hide Tx, MarkTx;
  }

  /** The first commit does the whole handler, or all but the mark. */
  lemma FirstCommitAlone(db: Db, x: Txn, outcome: MarkOutcome)
    requires TxnOk(db, x) && x.pc == Ready
    ensures var db1 := Apply(db, x.writes);
            Target(db, x, outcome)
            == if x.req.Deliver? && x.eventNew then Target(db1, Reopened(x), outcome) else db1
  {
    CommitIsAtomic(db, x);
    FlagIsAccurate(db, x);
    assert CanFinish(db, x.req);
    hide TxnOk, Tx, MarkTx, Apply, CanFinish, Taken;
  }

  /** One open transaction, `t`, with `target` still to come out of it; or none, and it has. */
  ghost predicate OnItsWay(s: State, t: Tid, outcome: MarkOutcome, target: Db) {
    if s.txns == map[] then s.db == target
    else
      && t in s.txns && s.txns == map[t := s.txns[t]] && ChecksHold(s.db, s.txns[t], outcome)
      && Target(s.db, s.txns[t], outcome) == target
  }

  lemma SoleTransaction(s: State, t: Tid, outcome: MarkOutcome, target: Db)
    requires Inv(s) && OnItsWay(s, t, outcome, target) && s.txns != map[]
    ensures t in s.txns && PcFits(s.txns[t]) && !Blocked(s, t)
  {
    assert TxnOk(s.db, s.txns[t]);
    hide Target, TxnOk, PcFits;
  }

  lemma OnlyMaps(s: State, t: Tid, y: Txn)
    requires t in s.txns && s.txns == map[t := s.txns[t]]
    ensures Drop(s, t).txns == map[] && Put(s, t, y).txns == map[t := y]
  {
  }

  lemma MarkAlone(db: Db, x: Txn, outcome: MarkOutcome)
    requires TxnOk(db, x) && ChecksHold(db, x, outcome) && x.pc == MarkReady
    ensures Apply(db, x.writes) == MarkTx(db, x.req.hook, outcome)
  {
  }

  lemma CommitOnItsWay(s: State, t: Tid, outcome: MarkOutcome, target: Db)
    requires Inv(s) && OnItsWay(s, t, outcome, target) && s.txns != map[] && Commits(s.txns[t].pc)
    ensures OnItsWay(Advance(s, t, outcome), t, outcome, target)
  {
    var x := s.txns[t];
    assert TxnOk(s.db, x);
    OnlyMaps(s, t, Reopened(x));
    hide Inv, TxnOk, Apply, MarkTx, Taken;
    if x.pc == Ready {
      FirstCommitAlone(s.db, x, outcome);
      hide Target;
    } else {
      MarkAlone(s.db, x, outcome);
    }
  }

  lemma LocalOnItsWay(s: State, t: Tid, outcome: MarkOutcome, target: Db)
    requires Inv(s) && OnItsWay(s, t, outcome, target) && s.txns != map[] && !Commits(s.txns[t].pc)
    ensures OnItsWay(Advance(s, t, outcome), t, outcome, target)
  {
    var x := s.txns[t];
    assert TxnOk(s.db, x) && InOrder(x) && PcFits(x);
    assert s.txns == map[t := x] && ChecksHold(s.db, x, outcome) && Target(s.db, x, outcome) == target;
    hide *;
    if (Inserts(x.pc) && Taken(s.db, Wants(x).value)) || (x.pc == CallProvider && !ProviderCanReturn(x.req)) {
      GaveUpOnItsWay(s, t, outcome, target);
    } else {
      WentOnItsWay(s, t, outcome, target);
    }
  }

  lemma GaveUpOnItsWay(s: State, t: Tid, outcome: MarkOutcome, target: Db)
    requires t in s.txns && s.txns == map[t := s.txns[t]] && TxnOk(s.db, s.txns[t]) && !Commits(s.txns[t].pc)
    requires ChecksHold(s.db, s.txns[t], outcome) && Target(s.db, s.txns[t], outcome) == target
    requires var x := s.txns[t];
             (Inserts(x.pc) && Taken(s.db, Wants(x).value)) || (x.pc == CallProvider && !ProviderCanReturn(x.req))
    ensures OnItsWay(Advance(s, t, outcome), t, outcome, target)
  {
    GivingUpIsRight(s.db, s.txns[t], outcome);
    OnlyMaps(s, t, s.txns[t]);
    hide TxnOk, Target, Taken, ChecksHold, Next, Apply;
  }

  lemma WentOnItsWay(s: State, t: Tid, outcome: MarkOutcome, target: Db)
    requires t in s.txns && s.txns == map[t := s.txns[t]] && TxnOk(s.db, s.txns[t]) && !Commits(s.txns[t].pc)
    requires InOrder(s.txns[t]) && ChecksHold(s.db, s.txns[t], outcome) && Target(s.db, s.txns[t], outcome) == target
    requires var x := s.txns[t];
             !(Inserts(x.pc) && Taken(s.db, Wants(x).value)) && !(x.pc == CallProvider && !ProviderCanReturn(x.req))
    ensures OnItsWay(Advance(s, t, outcome), t, outcome, target)
  {
    LocalStepAlone(s.db, s.txns[t], outcome);
    OnlyMaps(s, t, Next(s.db, s.txns[t], outcome));
    hide TxnOk, InOrder, Target, Taken, ChecksHold, Next, Apply, ProviderCanReturn;
  }

  lemma StepOnItsWay(run: seq<Action>, t: Tid, outcome: MarkOutcome, target: Db)
    requires OnItsWay(Exec(run), t, outcome, target) && Exec(run).txns != map[]
    ensures var next := Exec(run + [Step(t, outcome)]);
            OnItsWay(next, t, outcome, target) && Cost(next.txns, t) < Cost(Exec(run).txns, t)
  {
    var s := Exec(run);
    InvHolds(run);
    SoleTransaction(s, t, outcome, target);
    ExecAppend(run, Step(t, outcome));
    assert Do(s, Step(t, outcome)) == Advance(s, t, outcome);
    hide Inv, OnItsWay, Blocked, Exec, Cost, Advance, PcFits, Do;
    StepProgresses(s, t, outcome);
    if Commits(s.txns[t].pc) {
      CommitOnItsWay(s, t, outcome, target);
    } else {
      LocalOnItsWay(s, t, outcome, target);
    }
  }

  /** Ordinary steps whose processing, if any, ends in this outcome. */
  predicate StepsWith(more: seq<Action>, outcome: MarkOutcome) {
    forall a :: a in more ==> a.Step? && a.outcome == outcome
  }

  lemma Arrived(s: State, t: Tid, outcome: MarkOutcome, target: Db)
    requires OnItsWay(s, t, outcome, target) && s.txns == map[]
    ensures s.db == target && StepsWith([], outcome)
  {
  }

  lemma StepsPrepend(t: Tid, outcome: MarkOutcome, rest: seq<Action>)
    requires StepsWith(rest, outcome)
    ensures StepsWith([Step(t, outcome)] + rest, outcome)
  {
  }

  lemma StepsInit(more: seq<Action>, outcome: MarkOutcome)
    requires StepsWith(more, outcome) && more != []
    ensures StepsWith(more[..|more| - 1], outcome)
    ensures more[|more| - 1].Step? && more[|more| - 1].outcome == outcome
  {
    assert forall a :: a in more[..|more| - 1] ==> a in more;
  }

  lemma {:induction false} RunOut(run: seq<Action>, t: Tid, outcome: MarkOutcome, target: Db)
    returns (more: seq<Action>)
    requires OnItsWay(Exec(run), t, outcome, target)
    ensures StepsWith(more, outcome) && Exec(run + more).txns == map[]
    decreases Cost(Exec(run).txns, t)
  {
    hide OnItsWay, Exec, Cost, Do, StepsWith;
    if Exec(run).txns == map[] {
      more := [];
      assert run + more == run;
      Arrived(Exec(run), t, outcome, target);
    } else {
      StepOnItsWay(run, t, outcome, target);
      var rest := RunOut(run + [Step(t, outcome)], t, outcome, target);
      more := [Step(t, outcome)] + rest;
      StepsPrepend(t, outcome, rest);
      assert run + more == run + [Step(t, outcome)] + rest;
    }
  }

  /** A step of a transaction that is not open changes nothing. */
  lemma IdleStep(s: State, t: Tid, a: Action)
    requires a.Step? && (a.t == t ==> s.txns == map[]) && (s.txns == map[] || s.txns.Keys == {t})
    ensures Do(s, a) == s
  {
    assert a.t in s.txns.Keys ==> a.t == t;
  }

  lemma OnlyKey(s: State, t: Tid, outcome: MarkOutcome, target: Db)
    requires OnItsWay(s, t, outcome, target) && s.txns != map[]
    ensures s.txns.Keys == {t}
  {
  }

  /** Whatever order of steps is tried, the sole transaction stays on its way. */
  lemma {:induction false} StaysOnItsWay(
    begun: seq<Action>, more: seq<Action>, t: Tid, outcome: MarkOutcome, target: Db)
    requires OnItsWay(Exec(begun), t, outcome, target) && StepsWith(more, outcome)
    ensures OnItsWay(Exec(begun + more), t, outcome, target)
  {
    hide OnItsWay, Exec, Do, StepsWith, Cost;
    if more == [] {
      assert begun + more == begun;
    } else {
      var n := |more| - 1;
      var before := begun + more[..n];
      StepsInit(more, outcome);
      StaysOnItsWay(begun, more[..n], t, outcome, target);
      assert begun + more == before + [more[n]];
      if more[n].t == t && Exec(before).txns != map[] {
        StepOnItsWay(before, t, outcome, target);
        assert more[n] == Step(t, outcome);
      } else {
        if Exec(before).txns != map[] {
          OnlyKey(Exec(before), t, outcome, target);
        }
        IdleStep(Exec(before), t, more[n]);
        ExecAppend(before, more[n]);
      }
    }
  }

  lemma Quiescent(run: seq<Action>, t: Tid, req: Request, outcome: MarkOutcome)
    requires Exec(run).txns == map[] && t !in Exec(run).started && WellFormed(req)
    ensures OnItsWay(Exec(run + [Begin(t, req)]), t, outcome, Solo(Exec(run).db, req, outcome))
  {
    ExecAppend(run, Begin(t, req));
    StartIsAlone(Exec(run).db, req, outcome);
  }

  /** From any reachable state with nothing open, a request's steps can run to their end, and
      however they do they leave the same tables. */
  lemma EveryEndingIsTheSame(run: seq<Action>, t: Tid, req: Request, outcome: MarkOutcome)
    requires Exec(run).txns == map[] && t !in Exec(run).started && WellFormed(req)
    ensures exists more :: StepsWith(more, outcome) && Exec(run + [Begin(t, req)] + more).txns == map[]
    ensures forall more :: StepsWith(more, outcome) && Exec(run + [Begin(t, req)] + more).txns == map[] ==>
              Exec(run + [Begin(t, req)] + more).db == Solo(Exec(run).db, req, outcome)
  {
    var begun, target := run + [Begin(t, req)], Solo(Exec(run).db, req, outcome);
    Quiescent(run, t, req, outcome);
    hide Exec, OnItsWay, Solo, WellFormed, StepsWith;
    var some := RunOut(begun, t, outcome, target);
    forall more | StepsWith(more, outcome) && Exec(begun + more).txns == map[] ensures Exec(begun + more).db == target {
      StaysOnItsWay(begun, more, t, outcome, target);
      Arrived(Exec(begun + more), t, outcome, target);
    }
  }

  /** What the handler leaves, provider and mail failures included. */
  ghost function Handled(db: Db, req: Request, providerFails: bool, mailFails: bool, outcome: MarkOutcome): Db {
    if Finishes(db, req, providerFails, mailFails) then Solo(db, req, outcome) else db
  }

  /** From any reachable state with nothing open, a request leaves exactly what its handler leaves.
      When the handler gets to its commit, every way for the steps to end leaves its whole
      effect, and there is one; when it does not, giving up at any step leaves nothing. */
  lemma AloneItIsTheHandler(
    run: seq<Action>, t: Tid, req: Request, providerFails: bool, mailFails: bool, outcome: MarkOutcome)
    requires Exec(run).txns == map[] && t !in Exec(run).started && WellFormed(req)
    ensures exists more :: StepsWith(more, outcome) && Exec(run + [Begin(t, req)] + more).txns == map[]
    ensures Finishes(Exec(run).db, req, providerFails, mailFails) ==>
              forall more :: StepsWith(more, outcome) && Exec(run + [Begin(t, req)] + more).txns == map[] ==>
                Exec(run + [Begin(t, req)] + more).db
                == Handled(Exec(run).db, req, providerFails, mailFails, outcome)
    ensures !Finishes(Exec(run).db, req, providerFails, mailFails) ==>
              forall more :: StepsOnly(more) && t in Exec(run + [Begin(t, req)] + more).txns ==>
                Exec(run + [Begin(t, req)] + more + [Abort(t)]).db
                == Handled(Exec(run).db, req, providerFails, mailFails, outcome)
  {
    EveryEndingIsTheSame(run, t, req, outcome);
    assert !Finishes(Exec(run).db, req, providerFails, mailFails) ==> !req.Deliver?;
    if !Finishes(Exec(run).db, req, providerFails, mailFails) {
      hide Exec, Finishes, Solo, WellFormed, StepsWith, StepsOnly;
      forall more | StepsOnly(more) && t in Exec(run + [Begin(t, req)] + more).txns
        ensures Exec(run + [Begin(t, req)] + more + [Abort(t)]).db == Exec(run).db
      {
        GivingUpLeavesNothing(run, t, req, more);
      }
    }
  }

  /** For a webhook that is the handler of a single verified call, crashes between its commits
      included. */
  lemma SoloHookIsHandle(db: Db, h: Hook, outcome: MarkOutcome)
    ensures Solo(db, Deliver(h), outcome) == HandleTx(db, HookCall(true, true, true, h, Completes(outcome)))
    ensures Tx(db, Deliver(h)) == HandleTx(db, HookCall(true, true, true, h, CrashesBetweenCommits))
  {
    assert Taken(db, EventKey(h.eventId)) <==> FindEvent(db.events, h.eventId).Some?;
  }

  // ---- Giving up on the way ----

  /** `t` alone is open, if anything is; nothing is committed, or only a webhook's event. */
  ghost predicate AloneOpen(s: State, t: Tid, req: Request, start: Db) {
    && s.txns.Keys <= {t}
    && (t in s.txns ==>
          && s.txns[t].req == req
          && (if Marking(s.txns[t]) then
                req.Deliver? && !Taken(start, EventKey(req.hook.eventId)) && s.db == Tx(start, req)
              else s.db == start))
  }

  lemma StepAloneOpen(s: State, t: Tid, req: Request, start: Db, a: Action)
    requires Inv(s) && AloneOpen(s, t, req, start) && a.Step?
    ensures AloneOpen(Do(s, a), t, req, start)
  {
    if a.t in s.txns && !Blocked(s, t) {
      assert a.t == t && TxnOk(s.db, s.txns[t]);
      hide Inv, Blocked, AloneOpen, TxnOk;
      AdvanceAloneOpen(s, t, req, start, a.outcome);
    } else {
      hide AloneOpen, Inv, Advance;
    }
  }

  lemma AdvanceAloneOpen(s: State, t: Tid, req: Request, start: Db, outcome: MarkOutcome)
    requires AloneOpen(s, t, req, start) && t in s.txns && TxnOk(s.db, s.txns[t])
    ensures PcFits(s.txns[t]) && AloneOpen(Advance(s, t, outcome), t, req, start)
  {
    var x := s.txns[t];
    if x.pc == Ready {
      CommitIsAtomic(s.db, x);
      FlagIsAccurate(s.db, x);
      FirstCommitShape(s, t, outcome);
      hide TxnOk, Tx, Apply, Taken, Advance;
    } else if x.pc == MarkReady {
      hide TxnOk, Tx, Apply, Taken;
    } else {
      assert PcFits(x);
      hide TxnOk, Tx, Apply, Taken, Next, PcFits, Wants;
      NextMarking(s.db, x, outcome);
    }
  }

  lemma StepsOnlyInit(more: seq<Action>)
    requires StepsOnly(more) && more != []
    ensures StepsOnly(more[..|more| - 1]) && more[|more| - 1].Step?
  {
    assert forall a :: a in more[..|more| - 1] ==> a in more;
  }

  lemma {:induction false} StaysAloneOpen(begun: seq<Action>, more: seq<Action>, t: Tid, req: Request, start: Db)
    requires AloneOpen(Exec(begun), t, req, start) && StepsOnly(more)
    ensures AloneOpen(Exec(begun + more), t, req, start)
  {
    hide AloneOpen, Inv, Do, Exec, StepsOnly;
    if more == [] {
      assert begun + more == begun;
    } else {
      var n := |more| - 1;
      StepsOnlyInit(more);
      StaysAloneOpen(begun, more[..n], t, req, start);
      InvHolds(begun + more[..n]);
      StepAloneOpen(Exec(begun + more[..n]), t, req, start, more[n]);
      ExecAppend(begun + more[..n], more[n]);
      assert begun + more == begun + more[..n] + [more[n]];
    }
  }

  /** Wherever a request gives up, its work is undone: a gift leaves nothing at all, a webhook at
      most the event its first commit recorded. */
  lemma GivingUpLeavesNothing(run: seq<Action>, t: Tid, req: Request, more: seq<Action>)
    requires Exec(run).txns == map[] && t !in Exec(run).started && WellFormed(req) && StepsOnly(more)
    requires t in Exec(run + [Begin(t, req)] + more).txns
    ensures var start, end := Exec(run).db, Exec(run + [Begin(t, req)] + more + [Abort(t)]);
            && end.txns == map[]
            && (end.db == start
                || (req.Deliver? && !Taken(start, EventKey(req.hook.eventId)) && end.db == Tx(start, req)))
  {
    var begun := run + [Begin(t, req)];
    ExecAppend(run, Begin(t, req));
    assert AloneOpen(Exec(begun), t, req, Exec(run).db);
    StaysAloneOpen(begun, more, t, req, Exec(run).db);
    ExecAppend(begun + more, Abort(t));
    hide Exec, Tx, Taken;
    assert Exec(begun + more + [Abort(t)]).txns == map[];
  }
}
