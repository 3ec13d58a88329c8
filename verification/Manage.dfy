/** The donor's manage page: change the amount of, or cancel, one of the donor's subscriptions.
    The signed token is an oracle giving the donor or nothing; which open row the unordered
    query yields first is an arbitrary number. */
module Manage {
  import opened Options
  import opened Tables
  import opened Ledger

  predicate IsOpen(row: SubRow, donor: RowId) {
    row.donorId == donor && row.status != Cancelled
  }

  function OpenCount(subs: seq<SubRow>, donor: RowId): nat {
    if subs == [] then 0
    else OpenCount(subs[..|subs| - 1], donor) + if IsOpen(subs[|subs| - 1], donor) then 1 else 0
  }

  /** The positions of a donor's rows that are not cancelled. */
  function Open(subs: seq<SubRow>, donor: RowId): (r: seq<nat>)
    ensures forall i :: i in r <==> 0 <= i < |subs| && subs[i].donorId == donor && subs[i].status != Cancelled
    ensures forall j, k :: 0 <= j < k < |r| ==> r[j] < r[k]
    ensures |r| == OpenCount(subs, donor)
  {
    if subs == [] then []
    else
      var n := |subs| - 1;
      var front := Open(subs[..n], donor);
      assert forall k :: 0 <= k < |front| ==> front[k] in front;
      if IsOpen(subs[n], donor) then front + [n] else front
  }

  /** Whatever order the query returns, its first row is some open row. */
  function Pick(subs: seq<SubRow>, donor: RowId, order: nat): (i: nat)
    requires Open(subs, donor) != []
    ensures i < |subs| && subs[i].donorId == donor && subs[i].status != Cancelled
  {
    var open := Open(subs, donor);
    assert open[order % |open|] in open;
    open[order % |open|]
  }

  predicate KnownDonor(donors: seq<DonorRow>, id: RowId) {
    exists d :: d in donors && d.id == id
  }

  const REASON := "donor requested cancellation via manage page"

  datatype Op =
    | Give(req: Request)
    | Patch(token: Option<RowId>, order: nat, amount: int)
    | Delete(token: Option<RowId>, order: nat, now: Time, mailFails: bool)

  function PatchTx(db: Db, token: Option<RowId>, order: nat, amount: int): (Db, nat) {
    if amount <= 0 then (db, 422)
    else if token.None? || Open(db.subs, token.value) == [] then (db, 404)
    else
      var i := Pick(db.subs, token.value, order);
      (db.(subs := db.subs[i := db.subs[i].(amountMinor := amount)]), 200)
  }

  function DeleteTx(db: Db, token: Option<RowId>, order: nat, now: Time, mailFails: bool): (Db, nat) {
    if token.None? || Open(db.subs, token.value) == [] then (db, 404)
    else if KnownDonor(db.donors, token.value) && mailFails then (db, 500)
    else
      var i := Pick(db.subs, token.value, order);
      (db.(subs := db.subs[i := CancelledRow(db.subs[i], now, Some(REASON))]), 200)
  }

  /** A gift form that reaches its commit. */
  ghost predicate CanCommit(db: Db, req: Request) {
    !req.Deliver? && req.gift.amountMinor > 0 && ProviderCanReturn(req) && SubFree(db, req)
  }

  ghost function Do(db: Db, op: Op): Db {
    match op
    case Give(req) => if CanCommit(db, req) then Tx(db, req) else db
    case Patch(token, order, amount) => PatchTx(db, token, order, amount).0
    case Delete(token, order, now, mailFails) => DeleteTx(db, token, order, now, mailFails).0
  }

  ghost function After(run: seq<Op>): Db {
    if run == [] then EMPTY else Do(After(run[..|run| - 1]), run[|run| - 1])
  }

  /** What a request must leave, row by row: one row of this donor's, not cancelled before, says
      what `says` wants of it; nothing else changes. */
  ghost predicate OneOwnRow(was: Db, db: Db, donor: RowId, i: nat) {
    && i < |was.subs| && was.subs[i].donorId == donor && was.subs[i].status != Cancelled
    && db == was.(subs := db.subs) && |db.subs| == |was.subs|
    && forall j :: 0 <= j < |was.subs| && j != i ==> db.subs[j] == was.subs[j]
  }

  ghost predicate NoneOpen(db: Db, token: Option<RowId>) {
    forall i :: 0 <= i < |db.subs| ==> Some(db.subs[i].donorId) == token ==> db.subs[i].status == Cancelled
  }

  ghost predicate CancelsAt(was: Db, db: Db, token: Option<RowId>, now: Time, i: nat) {
    && token.Some? && OneOwnRow(was, db, token.value, i)
    && db.subs[i] == was.subs[i].(status := Cancelled, cancelledAt := Some(now),
                                  reason := Some("donor requested cancellation via manage page"))
  }

  // ---- The handlers as they run ----

  lemma OpenIffNotNone(db: Db, token: Option<RowId>)
    ensures token.Some? ==> (Open(db.subs, token.value) == [] <==> NoneOpen(db, token))
  {
    if token.Some? {
      var open := Open(db.subs, token.value);
      if open != [] {
        assert open[0] in open;
      }
      if !NoneOpen(db, token) {
        var i :| 0 <= i < |db.subs| && Some(db.subs[i].donorId) == token && db.subs[i].status != Cancelled;
        assert i in open;
      }
    }
  }

  class ManagePage {
    var db: Db

    constructor (db: Db)
      ensures this.db == db
    {
      this.db := db;
    }

    /** `ledger.cancel_subscription_row` */
    method CancelSubscriptionRow(i: nat, now: Time, reason: Option<string>)
      requires i < |db.subs|
      modifies this
      ensures db == old(db).(subs := old(db).subs[i := CancelledRow(old(db).subs[i], now, reason)])
      ensures db.subs[i].status == Cancelled && db.subs[i].cancelledAt == Some(now) && db.subs[i].reason == reason
    {
      var row := db.subs[i];
      row := row.(status := Cancelled);
      row := row.(cancelledAt := Some(now));
      row := row.(reason := reason);
      db := db.(subs := db.subs[i := row]);
    }

    method ChangeAmount(token: Option<RowId>, order: nat, amount: int) returns (code: nat)
      modifies this
      ensures (db, code) == PatchTx(old(db), token, order, amount)
      ensures code == 422 <==> amount <= 0
      ensures code == 404 <==> amount > 0 && (token.None? || NoneOpen(old(db), token))
      ensures code == 404 || code == 422 || code == 200
      ensures code == 200 ==>
                exists i: nat :: OneOwnRow(old(db), db, token.value, i)
                            && db.subs[i] == old(db).subs[i].(amountMinor := amount)
      ensures code != 200 ==> db == old(db)
    {
      if amount <= 0 {
        return 422;
      }
      if token.None? {
        return 404;
      }
      var open := Open(db.subs, token.value);
      OpenIffNotNone(db, token);
      if open == [] {
        return 404;
      }
      var i := Pick(db.subs, token.value, order);
      db := db.(subs := db.subs[i := db.subs[i].(amountMinor := amount)]);
      assert OneOwnRow(old(db), db, token.value, i);
      return 200;
    }

    method Cancel(token: Option<RowId>, order: nat, now: Time, mailFails: bool) returns (code: nat)
      modifies this
      ensures (db, code) == DeleteTx(old(db), token, order, now, mailFails)
      ensures code == 404 <==> token.None? || NoneOpen(old(db), token)
      ensures code == 500 <==>
                code != 404 && mailFails && exists d :: d in old(db).donors && d.id == token.value
      ensures code == 404 || code == 500 || code == 200
      ensures code == 200 ==> exists i: nat :: CancelsAt(old(db), db, token, now, i)
      ensures code != 200 ==> db == old(db)
    {
      if token.None? {
        return 404;
      }
      var open := Open(db.subs, token.value);
      OpenIffNotNone(db, token);
      hide NoneOpen, Open;
      if open == [] {
        return 404;
      }
      var i := Pick(db.subs, token.value, order);
      // The provider's own cancellation is best effort: whatever it raises is swallowed.
      var saved := db;
      CancelSubscriptionRow(i, now, Some(REASON));
      if KnownDonor(db.donors, token.value) && mailFails {
        db := saved;
        return 500;
      }
      assert CancelsAt(saved, db, token, now, i);
      return 200;
    }
  }

  // ---- Invariants of every run ----

  predicate SubOk(row: SubRow) {
    && row.amountMinor > 0
    && (row.status == Cancelled <==> row.cancelledAt.Some?)
    && (row.provider == Test ==> row.status in {Active, Cancelled} && row.startedAt.Some?)
    && row.status in {Pending, Active, Cancelled}
  }

  /** What no later operation may change about a row. */
  predicate Succeeds(before: SubRow, after: SubRow) {
    && after.id == before.id && after.donorId == before.donorId
    && after.provider == before.provider && after.providerSubId == before.providerSubId
    && after.currency == before.currency && after.startedAt == before.startedAt
    && (before.status == Cancelled ==> after == before)
  }

  lemma TxSubs(db: Db, req: Request)
    requires !req.Deliver?
    ensures Tx(db, req).subs == db.subs
            || exists donorId :: Tx(db, req).subs
                 == db.subs + [if req.gift.rail == Test then Activated(NewSub(req.gift, donorId), req.gift.now)
                               else NewSub(req.gift, donorId)]
  {
    var donorId := WithDonor(db, req.gift).1;
    if req.Monthly? {
      assert Tx(db, req).subs
          == db.subs + [if req.gift.rail == Test then Activated(NewSub(req.gift, donorId), req.gift.now)
                        else NewSub(req.gift, donorId)];
    }
  }

  lemma StepKeepsRows(db: Db, op: Op)
    requires forall i :: 0 <= i < |db.subs| ==> SubOk(db.subs[i])
    ensures |db.subs| <= |Do(db, op).subs|
    ensures forall i :: 0 <= i < |Do(db, op).subs| ==> SubOk(Do(db, op).subs[i])
    ensures forall i :: 0 <= i < |db.subs| ==> Succeeds(db.subs[i], Do(db, op).subs[i])
  {
    if op.Give? && CanCommit(db, op.req) {
      TxSubs(db, op.req);
    }
  }

  /** Amounts stay positive, `cancelled_at` is set exactly on cancelled rows, and a test
      subscription is active or cancelled with its start recorded. */
  lemma {:induction false} EveryRowIsSound(run: seq<Op>)
    ensures forall i :: 0 <= i < |After(run).subs| ==> SubOk(After(run).subs[i])
  {
    if run != [] {
      EveryRowIsSound(run[..|run| - 1]);
      StepKeepsRows(After(run[..|run| - 1]), run[|run| - 1]);
    }
  }

  /** Cancelled is absorbing: once cancelled, a row is never written again, so `cancelled_at` is
      written once; and no row ever changes owner, currency, identity or start. */
  lemma {:induction false} RowsEvolve(run: seq<Op>, later: seq<Op>, i: nat)
    requires i < |After(run).subs|
    ensures i < |After(run + later).subs| && Succeeds(After(run).subs[i], After(run + later).subs[i])
  {
    hide After, Succeeds, Do, SubOk;
    if later == [] {
      assert run + later == run;
      SucceedsItself(After(run).subs[i]);
    } else {
      var n := |later| - 1;
      var before := run + later[..n];
      RowsEvolve(run, later[..n], i);
      EveryRowIsSound(before);
      StepKeepsRows(After(before), later[n]);
      AfterSnoc(before, later[n]);
      assert run + later == before + [later[n]];
      SucceedsTwice(After(run).subs[i], After(before).subs[i], After(run + later).subs[i]);
    }
  }

  lemma AfterSnoc(run: seq<Op>, op: Op)
    ensures After(run + [op]) == Do(After(run), op)
  {
    assert (run + [op])[..|run|] == run;
  }

  lemma SucceedsItself(row: SubRow)
    ensures Succeeds(row, row)
  {
  }

  lemma SucceedsTwice(a: SubRow, b: SubRow, c: SubRow)
    requires Succeeds(a, b) && Succeeds(b, c)
    ensures Succeeds(a, c)
  {
  }

  /** A patch or delete touches at most one row, one of the token's donor that was open, and
      no donor, event or donation. */
  lemma ManageTouchesOneOwnRow(db: Db, op: Op)
    requires !op.Give?
    ensures Do(db, op) == db.(subs := Do(db, op).subs) && |Do(db, op).subs| == |db.subs|
    ensures forall i :: 0 <= i < |db.subs| && Do(db, op).subs[i] != db.subs[i] ==>
              op.token.Some? && IsOpen(db.subs[i], op.token.value)
    ensures forall i, j :: 0 <= i < j < |db.subs| ==>
              Do(db, op).subs[i] == db.subs[i] || Do(db, op).subs[j] == db.subs[j]
  {
  }

  // ---- When a row was cancelled ----

  /** Request `k` of the run was a DELETE that cancelled row `i`. */
  ghost predicate CancelledBy(run: seq<Op>, k: nat, i: nat) {
    && k < |run| && run[k].Delete?
    && CancelsAt(After(run[..k]), After(run[..k + 1]), run[k].token, run[k].now, i)
  }

  lemma DeleteCancels(db: Db, op: Op)
    requires op.Delete? && Do(db, op) != db
    ensures exists i :: CancelsAt(db, Do(db, op), op.token, op.now, i)
  {
    var i := Pick(db.subs, op.token.value, op.order);
    assert CancelsAt(db, Do(db, op), op.token, op.now, i);
  }

  /** A row becomes cancelled in one step only by the DELETE that took it. */
  lemma OnlyDeleteCancels(db: Db, op: Op, i: nat)
    requires i < |Do(db, op).subs| && Do(db, op).subs[i].status == Cancelled
    requires i < |db.subs| ==> db.subs[i].status != Cancelled
    ensures op.Delete? && CancelsAt(db, Do(db, op), op.token, op.now, i)
  {
    if op.Give? && CanCommit(db, op.req) {
      TxSubs(db, op.req);
      hide Tx;
    } else if op.Delete? {
      DeleteCancels(db, op);
    }
  }

  lemma CancelledByEarlier(run: seq<Op>, n: nat, k: nat, i: nat)
    requires n <= |run| && CancelledBy(run[..n], k, i)
    ensures CancelledBy(run, k, i)
  {
    assert run[..n][..k] == run[..k] && run[..n][..k + 1] == run[..k + 1];
  }

  /** Over every run a cancelled row was cancelled by exactly one DELETE, whose time and reason it
      carries. */
  lemma {:induction false} CancelledOnce(run: seq<Op>, i: nat) returns (k: nat)
    requires i < |After(run).subs| && After(run).subs[i].status == Cancelled
    ensures CancelledBy(run, k, i)
    ensures After(run).subs[i].cancelledAt == Some(run[k].now)
    ensures After(run).subs[i].reason == Some("donor requested cancellation via manage page")
    ensures forall j :: CancelledBy(run, j, i) ==> j == k
  {
    var n := |run| - 1;
    var before, op := run[..n], run[n];
    assert run[..n + 1] == run;
    if i < |After(before).subs| && After(before).subs[i].status == Cancelled {
      k := CancelledOnce(before, i);
      CancelledByEarlier(run, n, k, i);
      EveryRowIsSound(before);
      StepKeepsRows(After(before), op);
    } else {
      k := n;
      OnlyDeleteCancels(After(before), op, i);
      assert CancelledBy(run, k, i);
    }
    forall j | CancelledBy(run, j, i) ensures j == k {
      NotTwice(run, j, k, i);
    }
  }

  lemma NotTwice(run: seq<Op>, j: nat, k: nat, i: nat)
    requires CancelledBy(run, j, i) && CancelledBy(run, k, i)
    ensures j == k
  {
    if j < k {
      StaysCancelled(run, j, k, i);
    } else if k < j {
      StaysCancelled(run, k, j, i);
    }
  }

  lemma StaysCancelled(run: seq<Op>, j: nat, k: nat, i: nat)
    requires j < k <= |run| && CancelledBy(run, j, i)
    ensures i < |After(run[..k]).subs| && After(run[..k]).subs[i].status == Cancelled
  {
    RowsEvolve(run[..j + 1], run[j + 1..k], i);
    assert run[..j + 1] + run[j + 1..k] == run[..k];
  }

  // ---- Cancelling terminates ----

  datatype Try = Try(order: nat, now: Time, mailFails: bool)

  function DeleteAll(db: Db, donor: RowId, tries: seq<Try>): (Db, seq<nat>) {
    if tries == [] then (db, [])
    else
      var n := |tries| - 1;
      var (db1, codes) := DeleteAll(db, donor, tries[..n]);
      var (db2, code) := DeleteTx(db1, Some(donor), tries[n].order, tries[n].now, tries[n].mailFails);
      (db2, codes + [code])
  }

  lemma {:induction false} OpenAfterCancel(subs: seq<SubRow>, donor: RowId, i: nat, row: SubRow)
    requires i < |subs| && IsOpen(subs[i], donor) && !IsOpen(row, donor)
    ensures OpenCount(subs[i := row], donor) == OpenCount(subs, donor) - 1
  {
    var n := |subs| - 1;
    var out := subs[i := row];
    if i < n {
      assert out[..n] == subs[..n][i := row];
      OpenAfterCancel(subs[..n], donor, i, row);
    } else {
      assert out[..n] == subs[..n];
    }
  }

  function Successes(codes: seq<nat>): nat {
    if codes == [] then 0
    else Successes(codes[..|codes| - 1]) + if codes[|codes| - 1] == 200 then 1 else 0
  }

  /** Each success uses up one open row, whichever the query picked: successes and rows still
      open always add up to the rows open at the start. */
  lemma {:induction false} SuccessesUseUpRows(db: Db, donor: RowId, tries: seq<Try>)
    ensures var (after, codes) := DeleteAll(db, donor, tries);
            |codes| == |tries| && Successes(codes) + OpenCount(after.subs, donor) == OpenCount(db.subs, donor)
  {
    if tries != [] {
      var n := |tries| - 1;
      SuccessesUseUpRows(db, donor, tries[..n]);
      var (db1, codes) := DeleteAll(db, donor, tries[..n]);
      var (db2, code) := DeleteTx(db1, Some(donor), tries[n].order, tries[n].now, tries[n].mailFails);
      if code == 200 {
        var i := Pick(db1.subs, donor, tries[n].order);
        OpenAfterCancel(db1.subs, donor, i, CancelledRow(db1.subs[i], tries[n].now, Some(REASON)));
      }
      assert (codes + [code])[..|codes|] == codes;
    }
  }

  /** With k open rows and working mail, the first k requests succeed and every later one
      answers 404. */
  lemma {:induction false} ExactlyKDeletesSucceed(db: Db, donor: RowId, tries: seq<Try>)
    requires forall i :: 0 <= i < |tries| ==> !tries[i].mailFails
    ensures var codes := DeleteAll(db, donor, tries).1;
            |codes| == |tries|
            && forall i :: 0 <= i < |codes| ==> codes[i] == if i < OpenCount(db.subs, donor) then 200 else 404
    ensures OpenCount(DeleteAll(db, donor, tries).0.subs, donor)
            == if |tries| <= OpenCount(db.subs, donor) then OpenCount(db.subs, donor) - |tries| else 0
  {
    if tries != [] {
      var n := |tries| - 1;
      ExactlyKDeletesSucceed(db, donor, tries[..n]);
      var (db1, codes) := DeleteAll(db, donor, tries[..n]);
      var (db2, code) := DeleteTx(db1, Some(donor), tries[n].order, tries[n].now, tries[n].mailFails);
      if code == 200 {
        var i := Pick(db1.subs, donor, tries[n].order);
        OpenAfterCancel(db1.subs, donor, i, CancelledRow(db1.subs[i], tries[n].now, Some(REASON)));
      }
    }
  }
}
