/** Marketing consent: given on a gift form or by newsletter sign-up, withdrawn by the
    unsubscribe link. */
module ConsentHistory {
  import opened Options
  import opened Tables
  import opened Ledger
  import Manage

  datatype Act =
    | Give(req: Request)
    | Subscribe(email: string, now: Time, newRow: RowId)
    | Unsubscribe(id: RowId)

  function SubscribeTx(donors: seq<DonorRow>, email: string, now: Time, newRow: RowId): seq<DonorRow> {
    var with := if FindDonor(donors, email).Some? then donors
                else donors + [DonorRow(newRow, email, "", "", "", Consent(false, None, None))];
    Consented(with, email, Consent(true, Some(now), Some("newsletter_double_optin")))
  }

  /** Only the flag is cleared: when and how consent was once given stays on the row. */
  function UnsubscribeTx(donors: seq<DonorRow>, id: RowId): (r: seq<DonorRow>)
    ensures |r| == |donors|
  {
    seq(|donors|, i requires 0 <= i < |donors| =>
      if donors[i].id == id then donors[i].(consent := donors[i].consent.(given := false)) else donors[i])
  }

  ghost function Do(db: Db, act: Act): Db {
    match act
    case Give(req) => if Manage.CanCommit(db, req) then Tx(db, req) else db
    case Subscribe(email, now, newRow) => db.(donors := SubscribeTx(db.donors, email, now, newRow))
    case Unsubscribe(id) => db.(donors := UnsubscribeTx(db.donors, id))
  }

  ghost function After(run: seq<Act>): Db {
    if run == [] then EMPTY else Do(After(run[..|run| - 1]), run[|run| - 1])
  }

  class DonorDesk {
    var donors: seq<DonorRow>

    constructor (donors: seq<DonorRow>)
      ensures this.donors == donors
    {
      this.donors := donors;
    }

    method Subscribe(email: string, now: Time, newRow: RowId)
      modifies this
      ensures donors == SubscribeTx(old(donors), email, now, newRow)
      ensures forall i :: 0 <= i < |old(donors)| && i < |donors| ==>
                donors[i] == if old(donors)[i].email != email then old(donors)[i]
                             else old(donors)[i].(consent := Consent(true, Some(now), Some("newsletter_double_optin")))
      ensures var known := exists d :: d in old(donors) && d.email == email;
              |donors| == if known then |old(donors)| else |old(donors)| + 1
      ensures |donors| > |old(donors)| ==>
                donors[|old(donors)|]
                == DonorRow(newRow, email, "", "", "", Consent(true, Some(now), Some("newsletter_double_optin")))
      ensures FindDonor(donors, email).Some?
      ensures FindDonor(donors, email).value.consent == Consent(true, Some(now), Some("newsletter_double_optin"))
    {
      var consent := Consent(true, Some(now), Some("newsletter_double_optin"));
      var found := FindDonor(donors, email);
      if found.None? {
        donors := donors + [DonorRow(newRow, email, "", "", "", Consent(false, None, None))];
        FindDonorAppend(old(donors), donors[|donors| - 1], email);
      }
      ConsentedLookup(donors, email, consent, email);
      donors := Consented(donors, email, consent);
    }

    method Unsubscribe(id: RowId)
      modifies this
      ensures donors == UnsubscribeTx(old(donors), id) && |donors| == |old(donors)|
      ensures forall i :: 0 <= i < |donors| ==>
                var was := old(donors)[i];
                donors[i] == if was.id != id then was
                             else was.(consent := Consent(false, was.consent.recordedAt, was.consent.source))
      ensures (forall d :: d in old(donors) ==> d.id != id) ==> donors == old(donors)
    {
      if exists d :: d in donors && d.id == id {
        donors := UnsubscribeTx(donors, id);
      } else {
        assert forall i :: 0 <= i < |donors| ==> donors[i] in donors;
        assert donors == UnsubscribeTx(donors, id);
      }
    }
  }

  // ---- The history behind a row ----

  /** Whether an act, taken in these tables, gives consent for this email. */
  ghost predicate OptsIn(db: Db, act: Act, email: string) {
    match act
    case Give(req) => Manage.CanCommit(db, req) && req.gift.consent && req.gift.email == email
    case Subscribe(e, _, _) => e == email
    case Unsubscribe(_) => false
  }

  ghost predicate OptsOut(db: Db, act: Act, email: string) {
    act.Unsubscribe? && FindDonor(db.donors, email).Some? && FindDonor(db.donors, email).value.id == act.id
  }

  /** The last opt-in or opt-out for the email was an opt-in. */
  ghost predicate LastWasIn(run: seq<Act>, email: string) {
    run != [] &&
    var before, act := run[..|run| - 1], run[|run| - 1];
    OptsIn(After(before), act, email) || (!OptsOut(After(before), act, email) && LastWasIn(before, email))
  }

  predicate GivenFor(donors: seq<DonorRow>, email: string) {
    FindDonor(donors, email).Some? && FindDonor(donors, email).value.consent.given
  }

  lemma {:induction false} ConsentedLookup(ds: seq<DonorRow>, e: string, c: Consent, email: string)
    ensures FindDonor(Consented(ds, e, c), email)
            == if FindDonor(ds, email).None? then None
               else if email == e then Some(FindDonor(ds, email).value.(consent := c)) else FindDonor(ds, email)
  {
    if ds != [] {
      assert Consented(ds, e, c)[1..] == Consented(ds[1..], e, c);
      ConsentedLookup(ds[1..], e, c, email);
    }
  }

  lemma {:induction false} UnsubscribedLookup(ds: seq<DonorRow>, id: RowId, email: string)
    ensures FindDonor(UnsubscribeTx(ds, id), email)
            == if FindDonor(ds, email).None? then None
               else
                 var d := FindDonor(ds, email).value;
                 Some(if d.id == id then d.(consent := d.consent.(given := false)) else d)
  {
    if ds != [] {
      assert UnsubscribeTx(ds, id)[1..] == UnsubscribeTx(ds[1..], id);
      UnsubscribedLookup(ds[1..], id, email);
    }
  }

  lemma TxDonors(db: Db, req: Request)
    requires !req.Deliver?
    ensures Tx(db, req).donors == GiveConsent(WithDonor(db, req.gift).0, req).donors
  {
  }

  /** One act changes what the tables say about an email exactly as it opts in or out. */
  lemma StepTracks(db: Db, act: Act, email: string)
    ensures GivenFor(Do(db, act).donors, email)
            <==> OptsIn(db, act, email) || (!OptsOut(db, act, email) && GivenFor(db.donors, email))
  {
    match act
    case Give(req) =>
      if Manage.CanCommit(db, req) {
        TxDonors(db, req);
        var db1 := WithDonor(db, req.gift).0;
        FindDonorAppend(db.donors, NewDonor(req.gift), email);
        ConsentedLookup(db1.donors, req.gift.email, NewConsent(req), email);
      }
    case Subscribe(e, now, newRow) =>
      var row := DonorRow(newRow, e, "", "", "", Consent(false, None, None));
      var with := if FindDonor(db.donors, e).Some? then db.donors else db.donors + [row];
      FindDonorAppend(db.donors, row, email);
      ConsentedLookup(with, e, Consent(true, Some(now), Some("newsletter_double_optin")), email);
    case Unsubscribe(id) =>
      UnsubscribedLookup(db.donors, id, email);
  }

  /** A donor is marked as consenting exactly when the last opt-in or opt-out was an opt-in. */
  lemma {:induction false} ConsentIsTheLastWord(run: seq<Act>, email: string)
    ensures GivenFor(After(run).donors, email) <==> LastWasIn(run, email)
  {
    if run != [] {
      ConsentIsTheLastWord(run[..|run| - 1], email);
      StepTracks(After(run[..|run| - 1]), run[|run| - 1], email);
    }
  }

  // ---- Consent is always accounted for ----

  predicate Accounted(d: DonorRow) {
    d.consent.given ==> d.consent.recordedAt.Some? && d.consent.source.Some?
  }

  ghost predicate AllAccounted(donors: seq<DonorRow>) {
    forall i :: 0 <= i < |donors| ==> Accounted(donors[i])
  }

  lemma StepAccounts(db: Db, act: Act)
    requires AllAccounted(db.donors)
    ensures AllAccounted(Do(db, act).donors)
  {
    if act.Give? && Manage.CanCommit(db, act.req) {
      TxDonors(db, act.req);
    }
  }

  /** Whoever is marked as consenting has a recorded time and source. */
  lemma {:induction false} ConsentIsAlwaysRecorded(run: seq<Act>)
    ensures AllAccounted(After(run).donors)
  {
    if run != [] {
      ConsentIsAlwaysRecorded(run[..|run| - 1]);
      StepAccounts(After(run[..|run| - 1]), run[|run| - 1]);
    }
  }
}
