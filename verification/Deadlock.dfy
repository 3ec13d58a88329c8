/** No set of handlers can wait for one another for ever: keys are claimed in the order donor,
    subscription, event, payment, so waiting chains are short and acyclic, and from every
    reachable state the open transactions can all be run to their end. */
module Deadlock {
  import opened Tables
  import opened Ledger
  import opened Interleaving

  lemma WantsAboveHeld(x: Txn, k: Key)
    requires PcFits(x) && InOrder(x) && Wants(x).Some? && k in x.held
    ensures Rank(k) < Rank(Wants(x).value)
  {
  }

  function WantedRank(x: Txn): nat
    requires PcFits(x)
  {
    if Wants(x).Some? then Rank(Wants(x).value) else 4
  }

  lemma RankIsSmall(x: Txn)
    requires PcFits(x)
    ensures WantedRank(x) <= 4
  {
  }

  /** Whoever is waited for wants something of higher rank, or nothing. */
  lemma RankRises(s: State, t: Tid, u: Tid)
    requires Inv(s) && WaitsFor(s, t, u)
    ensures PcFits(s.txns[t]) && PcFits(s.txns[u]) && WantedRank(s.txns[t]) < WantedRank(s.txns[u])
  {
    var x, y := s.txns[t], s.txns[u];
    assert PcFits(x) && PcFits(y) && InOrder(y) by {
      assert TxnOk(s.db, x) && TxnOk(s.db, y) && InOrder(y);
    }
    hide Inv, InOrder, PcFits;
    if Wants(y).Some? {
      WantsAboveHeld(y, Wants(x).value);
    }
  }

  ghost predicate WaitChain(s: State, p: seq<Tid>) {
    && p != []
    && (forall t :: t in p ==> t in s.txns)
    && forall i :: 0 <= i < |p| - 1 ==> WaitsFor(s, p[i], p[i + 1])
  }

  lemma {:induction false} ChainClimbs(s: State, p: seq<Tid>, i: nat, j: nat)
    requires Inv(s) && WaitChain(s, p) && i < j < |p|
    ensures PcFits(s.txns[p[i]]) && PcFits(s.txns[p[j]])
    ensures WantedRank(s.txns[p[i]]) + (j - i) <= WantedRank(s.txns[p[j]])
    decreases j
  {
    hide Inv, WaitsFor;
    RankRises(s, p[j - 1], p[j]);
    if i < j - 1 {
      ChainClimbs(s, p, i, j - 1);
    }
  }

  /** In every reachable state a chain of waiting transactions never meets itself, and is at
      most five long. */
  lemma WaitsForIsAcyclic(run: seq<Action>, p: seq<Tid>)
    requires WaitChain(Exec(run), p)
    ensures forall i, j :: 0 <= i < j < |p| ==> p[i] != p[j]
    ensures |p| <= 5
  {
    hide Inv, WaitsFor, Exec, WaitChain;
    InvHolds(run);
    var s := Exec(run);
    forall i, j | 0 <= i < j < |p| ensures p[i] != p[j] {
      ChainClimbs(s, p, i, j);
    }
    if |p| > 1 {
      ChainClimbs(s, p, 0, |p| - 1);
    }
  }

  /** Following the waits from any open transaction reaches one that is not blocked. */
  lemma {:induction false} SomeoneUnblocked(s: State, t: Tid) returns (u: Tid)
    requires Inv(s) && t in s.txns
    ensures u in s.txns && !Blocked(s, u) && PcFits(s.txns[u])
    decreases 4 - WantedRank(s.txns[t])
  {
    assert PcFits(s.txns[t]) by {
      assert TxnOk(s.db, s.txns[t]);
    }
    hide Inv, PcFits, WantedRank;
    if Blocked(s, t) {
      var v :| WaitsFor(s, t, v);
      RankRises(s, t, v);
      RankIsSmall(s.txns[v]);
      u := SomeoneUnblocked(s, v);
    } else {
      u := t;
    }
  }

  // ---- Progress ----

  function StepsLeft(x: Txn): nat {
    match x.pc
    case SelectDonor => 11
    case InsertDonor => 10
    case CallProvider => 9
    case LockDonor => 8
    case InsertSub => 7
    case SelectEvent => 6
    case InsertEvent => 5
    case SelectPayment => 4
    case InsertPayment => 3
    case Ready => 2
    case LockEvent => 1
    case MarkReady => 0
  }

  function Cost(m: map<Tid, Txn>, t: Tid): nat {
    if t in m then 1 + StepsLeft(m[t]) else 0
  }

  function TotalCost(m: map<Tid, Txn>, ids: seq<Tid>): nat {
    if ids == [] then 0 else Cost(m, ids[0]) + TotalCost(m, ids[1..])
  }

  lemma AdvanceShape(s: State, t: Tid, outcome: MarkOutcome)
    requires t in s.txns && PcFits(s.txns[t])
    ensures var m := Advance(s, t, outcome).txns;
            || m == s.txns - {t}
            || (t in m && m == s.txns[t := m[t]] && StepsLeft(m[t]) < StepsLeft(s.txns[t]))
  {
    hide Apply, Taken, Next;
    if !Commits(s.txns[t].pc) {
      WorkProgresses(s.db, s.txns[t], outcome);
    }
  }

  /** An unblocked step brings its own transaction nearer its end and touches no other. */
  lemma StepProgresses(s: State, t: Tid, outcome: MarkOutcome)
    requires t in s.txns && PcFits(s.txns[t]) && !Blocked(s, t)
    ensures var m := Do(s, Step(t, outcome)).txns;
            Cost(m, t) < Cost(s.txns, t) && forall u :: u != t ==> Cost(m, u) == Cost(s.txns, u)
    ensures Do(s, Step(t, outcome)).txns.Keys <= s.txns.Keys
  {
    hide Advance;
    AdvanceShape(s, t, outcome);
  }

  lemma WorkProgresses(db: Db, x: Txn, outcome: MarkOutcome)
    requires PcFits(x) && !Commits(x.pc)
    ensures StepsLeft(Next(db, x, outcome)) < StepsLeft(x)
  {
    hide PcFits;
    if x.pc.SelectDonor? || x.pc.InsertDonor? || x.pc.CallProvider? || x.pc.LockDonor? || x.pc.InsertSub? {
      DonorWorkProgresses(db, x, outcome);
    } else {
      EventWorkProgresses(db, x, outcome);
    }
  }

  lemma DonorWorkProgresses(db: Db, x: Txn, outcome: MarkOutcome)
    requires PcFits(x)
    requires x.pc.SelectDonor? || x.pc.InsertDonor? || x.pc.CallProvider? || x.pc.LockDonor? || x.pc.InsertSub?
    ensures StepsLeft(Next(db, x, outcome)) < StepsLeft(x)
  {
    hide Apply, Taken, FindDonor, NewDonor, NewConsent, NewSub, Activated, Claim;
  }

  lemma EventWorkProgresses(db: Db, x: Txn, outcome: MarkOutcome)
    requires PcFits(x)
    requires x.pc.SelectEvent? || x.pc.InsertEvent? || x.pc.SelectPayment? || x.pc.InsertPayment? || x.pc.LockEvent?
    ensures StepsLeft(Next(db, x, outcome)) < StepsLeft(x)
  {
    hide Apply, Taken, MarkedOwn, NewEvent, NewDonation, Claim;
  }

  lemma {:induction false} TotalDrops(m: map<Tid, Txn>, n: map<Tid, Txn>, ids: seq<Tid>, t: Tid)
    requires Cost(n, t) < Cost(m, t) && forall u :: u != t ==> Cost(n, u) == Cost(m, u)
    ensures TotalCost(n, ids) <= TotalCost(m, ids)
    ensures t in ids ==> TotalCost(n, ids) < TotalCost(m, ids)
  {
    if ids != [] {
      TotalDrops(m, n, ids[1..], t);
    }
  }

  predicate StepsOnly(run: seq<Action>) {
    forall a :: a in run ==> a.Step?
  }

  lemma {:induction false} Enumerate(keys: set<Tid>) returns (ids: seq<Tid>)
    ensures forall t :: t in keys <==> t in ids
    decreases |keys|
  {
    if keys == {} {
      ids := [];
    } else {
      var t :| t in keys;
      ids := Enumerate(keys - {t});
      ids := [t] + ids;
    }
  }

  lemma {:induction false} Drain(run: seq<Action>, ids: seq<Tid>) returns (more: seq<Action>)
    requires forall t :: t in Exec(run).txns ==> t in ids
    ensures StepsOnly(more) && Exec(run + more).txns == map[]
    decreases TotalCost(Exec(run).txns, ids)
  {
    hide Inv, Blocked, Do, Exec, TotalCost, Cost;
    var s := Exec(run);
    if s.txns == map[] {
      more := [];
      assert run + more == run;
    } else {
      InvHolds(run);
      assert s.txns.Keys != {};
      var t :| t in s.txns;
      var u := SomeoneUnblocked(s, t);
      var a := Step(u, Done);
      StepProgresses(s, u, Done);
      ExecAppend(run, a);
      TotalDrops(s.txns, Exec(run + [a]).txns, ids, u);
      var rest := Drain(run + [a], ids);
      more := [a] + rest;
      assert run + more == run + [a] + rest;
    }
  }

  /** Deadlock freedom: from every reachable state some schedule of ordinary steps, with no
      crash, ends every open transaction. */
  lemma EveryTransactionCanEnd(run: seq<Action>)
    ensures exists more :: StepsOnly(more) && Exec(run + more).txns == map[]
  {
    var ids := Enumerate(Exec(run).txns.Keys);
    var more := Drain(run, ids);
  }
}
