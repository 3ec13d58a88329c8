/** The subscription table of every interleaving: one row for each committed monthly gift, saying
    what its form said. */
module MonthlyGifts {
  import opened Tables
  import opened Ledger
  import opened Interleaving
  import opened Guarantees
  import opened TestRail

  /** The committed monthly gifts, in commit order. */
  function Monthlies(log: seq<Entry>, n: nat): (r: seq<Request>)
    requires n <= |log|
    ensures forall req :: req in r ==> req.Monthly?
  {
    if n == 0 then []
    else
      var front, e := Monthlies(log, n - 1), log[n - 1];
      if e.First? && e.req.Monthly? then front + [e.req] else front
  }

  /** The row is the form's, and belongs to the donor with the form's email. */
  ghost predicate RowOfForm(donors: seq<DonorRow>, row: SubRow, g: Gift) {
    && SubSays(row, g, row.donorId)
    && FindDonor(donors, g.email).Some? && FindDonor(donors, g.email).value.id == row.donorId
  }

  ghost predicate SubsAre(db: Db, gifts: seq<Request>)
    requires forall req :: req in gifts ==> req.Monthly?
  {
    |db.subs| == |gifts| && forall k :: 0 <= k < |gifts| ==> RowOfForm(db.donors, db.subs[k], gifts[k].gift)
  }

  lemma RowStays(db: Db, req: Request, row: SubRow, g: Gift)
    requires !req.Deliver? && RowOfForm(db.donors, row, g)
    ensures RowOfForm(Tx(db, req).donors, row, g)
  {
    GiftDonors(db, req, g.email);
    hide Tx, SubSays, FindDonor;
  }

  lemma NewRowIsTheForm(db: Db, req: Request)
    requires req.Monthly?
    ensures var out := Tx(db, req);
            |out.subs| == |db.subs| + 1 && out.subs[..|db.subs|] == db.subs
            && RowOfForm(out.donors, out.subs[|db.subs|], req.gift)
  {
    GiftDonors(db, req, req.gift.email);
    GiftTables(db, req);
    NewRowsSay(req, WithDonor(db, req.gift).1);
    hide Tx, FindDonor, WithDonor, GiftEventSays, DonationSays, DonorSays;
  }

  lemma OldSubsStay(db: Db, req: Request, gifts: seq<Request>)
    requires !req.Deliver? && (forall g :: g in gifts ==> g.Monthly?) && SubsAre(db, gifts)
    ensures forall k :: 0 <= k < |gifts| ==> RowOfForm(Tx(db, req).donors, db.subs[k], gifts[k].gift)
  {
    hide RowOfForm, Tx;
    forall k | 0 <= k < |gifts| ensures RowOfForm(Tx(db, req).donors, db.subs[k], gifts[k].gift) {
      RowStays(db, req, db.subs[k], gifts[k].gift);
    }
  }

  lemma GiftKeepsSubs(db: Db, req: Request, gifts: seq<Request>)
    requires !req.Deliver? && (forall g :: g in gifts ==> g.Monthly?) && SubsAre(db, gifts)
    ensures SubsAre(Tx(db, req), if req.Monthly? then gifts + [req] else gifts)
  {
    hide RowOfForm, Tx, WithDonor, GiveConsent, WithSub;
    OldSubsStay(db, req, gifts);
    if req.Monthly? {
      NewRowIsTheForm(db, req);
    } else {
      GiftTables(db, req);
    }
  }

  lemma OthersKeepSubs(db: Db, e: Entry, gifts: seq<Request>)
    requires (forall g :: g in gifts ==> g.Monthly?) && SubsAre(db, gifts)
    requires e.First? ==> e.req.Deliver?
    ensures SubsAre(Replay1(db, e), gifts)
  {
    hide RowOfForm, FindEvent, MarkEvents;
  }

  lemma EntryKeepsSubs(db: Db, e: Entry, gifts: seq<Request>)
    requires (forall g :: g in gifts ==> g.Monthly?) && SubsAre(db, gifts)
    ensures SubsAre(Replay1(db, e), if e.First? && e.req.Monthly? then gifts + [e.req] else gifts)
  {
    hide SubsAre, Tx;
    if e.First? && !e.req.Deliver? {
      GiftKeepsSubs(db, e.req, gifts);
    } else {
      OthersKeepSubs(db, e, gifts);
    }
  }

  lemma NoSubs(log: seq<Entry>)
    ensures SubsAre(Replay(log[..0]), Monthlies(log, 0))
  {
    assert log[..0] == [];
  }

  lemma MonthliesStep(log: seq<Entry>, n: nat)
    requires n < |log|
    ensures Monthlies(log, n + 1)
            == if log[n].First? && log[n].req.Monthly? then Monthlies(log, n) + [log[n].req] else Monthlies(log, n)
  {
  }

  lemma {:induction false} LogSubs(log: seq<Entry>, n: nat)
    requires n <= |log|
    ensures SubsAre(Replay(log[..n]), Monthlies(log, n))
  {
    hide *;
    if n > 0 {
      LogSubs(log, n - 1);
      ReplayStep(log, n - 1);
      MonthliesStep(log, n - 1);
      EntryKeepsSubs(Replay(log[..n - 1]), log[n - 1], Monthlies(log, n - 1));
    } else {
      NoSubs(log);
    }
  }

  /** In every interleaving the subscriptions are, in commit order, those the committed monthly
      forms asked for: each row has its form's rail, provider id, amount, currency, fee choice and
      donor, active from the form's time on the test rail and pending elsewhere. */
  lemma SubscriptionsAreTheForms(run: seq<Action>)
    ensures SubsAre(Exec(run).db, Monthlies(Exec(run).log, |Exec(run).log|))
  {
    var log := Exec(run).log;
    SerializedByCommitOrder(run);
    assert log[..|log|] == log;
    LogSubs(log, |log|);
  }
}
