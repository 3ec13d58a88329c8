/** The four tables the ledger writes, their unique indexes, and the effect of one
    transaction's pending writes on them.  Tables are sequences of rows in insertion
    order, so uniqueness is a property to be proved and not a consequence of the
    representation. */
module Tables {
  import opened Options

  type RowId = nat
  type Time = int

  datatype Rail = Stripe | PayPal | Mpesa | Btc | Test

  datatype EventStatus = Received | Processed | Failed | Ignored

  datatype SubStatus = Pending | Active | PastDue | Cancelled | Failed

  /** A webhook body is opaque; the test rail's own events are the record built by
      `synthetic_event`. */
  datatype Payload =
    | Raw(body: string)
    | Synthetic(eventId: string, eventType: string, paymentId: string)

  datatype Consent = Consent(given: bool, recordedAt: Option<Time>, source: Option<string>)

  datatype DonorRow = DonorRow(
    id: RowId, email: string, firstName: string, lastName: string, country: string, consent: Consent)

  datatype SubRow = SubRow(
    id: RowId, donorId: RowId, provider: Rail, providerSubId: string,
    amountMinor: int, currency: string, coverFees: bool, status: SubStatus,
    startedAt: Option<Time>, cancelledAt: Option<Time>, reason: Option<string>)

  datatype EventRow = EventRow(
    provider: Rail, providerEventId: string, eventType: string, payload: Payload,
    signatureValid: bool, receivedAt: Time, processedAt: Option<Time>,
    status: EventStatus, error: Option<string>, attempts: nat)

  datatype DonationRow = DonationRow(
    donorId: RowId, subscriptionId: Option<RowId>, provider: Rail, providerPaymentId: string,
    amountMinor: int, currency: string, isRecurring: bool, completedAt: Time, rawPayload: Payload)

  datatype Db = Db(
    donors: seq<DonorRow>, subs: seq<SubRow>, events: seq<EventRow>, donations: seq<DonationRow>)

  const EMPTY := Db([], [], [], [])

  // ---- Unique indexes ----

  datatype Key =
    | DonorKey(email: string)
    | SubKey(rail: Rail, subId: string)
    | EventKey(eventId: string)
    | PayKey(paymentId: string)

  ghost predicate Taken(db: Db, k: Key) {
    match k
    case DonorKey(email) => exists r :: r in db.donors && r.email == email
    case SubKey(rail, id) => exists r :: r in db.subs && r.provider == rail && r.providerSubId == id
    case EventKey(id) => exists r :: r in db.events && r.providerEventId == id
    case PayKey(id) => exists r :: r in db.donations && r.providerPaymentId == id
  }

  ghost predicate DistinctDonors(rows: seq<DonorRow>) {
    forall i, j :: 0 <= i < j < |rows| ==> rows[i].email != rows[j].email
  }

  ghost predicate DistinctSubs(rows: seq<SubRow>) {
    forall i, j :: 0 <= i < j < |rows| ==>
      !(rows[i].provider == rows[j].provider && rows[i].providerSubId == rows[j].providerSubId)
  }

  ghost predicate DistinctEvents(rows: seq<EventRow>) {
    forall i, j :: 0 <= i < j < |rows| ==> rows[i].providerEventId != rows[j].providerEventId
  }

  ghost predicate DistinctDonations(rows: seq<DonationRow>) {
    forall i, j :: 0 <= i < j < |rows| ==> rows[i].providerPaymentId != rows[j].providerPaymentId
  }

  /** No two rows of a table share a value of its unique index. */
  ghost predicate Unique(db: Db) {
    && DistinctDonors(db.donors) && DistinctSubs(db.subs)
    && DistinctEvents(db.events) && DistinctDonations(db.donations)
  }

  function FindDonor(donors: seq<DonorRow>, email: string): (r: Option<DonorRow>)
    ensures r.Some? ==> r.value in donors && r.value.email == email
    ensures r.None? <==> forall d :: d in donors ==> d.email != email
  {
    if donors == [] then None
    else if donors[0].email == email then Some(donors[0])
    else FindDonor(donors[1..], email)
  }

  function FindEvent(events: seq<EventRow>, id: string): (r: Option<EventRow>)
    ensures r.Some? ==> r.value in events && r.value.providerEventId == id
    ensures r.None? <==> forall e :: e in events ==> e.providerEventId != id
  {
    if events == [] then None
    else if events[0].providerEventId == id then Some(events[0])
    else FindEvent(events[1..], id)
  }

  function FindDonation(donations: seq<DonationRow>, id: string): (r: Option<DonationRow>)
    ensures r.Some? ==> r.value in donations && r.value.providerPaymentId == id
    ensures r.None? <==> forall d :: d in donations ==> d.providerPaymentId != id
  {
    if donations == [] then None
    else if donations[0].providerPaymentId == id then Some(donations[0])
    else FindDonation(donations[1..], id)
  }

  // ---- Row updates ----

  /** `mark_event_processed`: an empty error string is falsy and so counts as success. */
  function MarkRow(row: EventRow, error: Option<string>, now: Time): EventRow {
    row.(processedAt := Some(now),
    status := if error.Some? && error.value != "" then EventStatus.Failed else Processed,
    error := error,
    attempts := row.attempts + 1)
  }

  /** How the second half of a webhook ends.  When processing raises, the handler marks the
      row again with the message; the first increment may or may not have been rolled back. */
  datatype MarkOutcome = Done | FaultLost(msg: string) | FaultKept(msg: string)

  function MarkWith(row: EventRow, outcome: MarkOutcome, now: Time): EventRow {
    match outcome
    case Done => MarkRow(row, None, now)
    case FaultLost(msg) => MarkRow(row, Some(msg), now)
    case FaultKept(msg) => MarkRow(MarkRow(row, None, now), Some(msg), now)
  }

  datatype Mark = Mark(eventId: string, outcome: MarkOutcome, at: Time)

  function MarkEvents(events: seq<EventRow>, m: Mark): (r: seq<EventRow>)
    ensures |r| == |events|
  {
    seq(|events|, i requires 0 <= i < |events| =>
      if events[i].providerEventId == m.eventId then MarkWith(events[i], m.outcome, m.at) else events[i])
  }

  function Consented(donors: seq<DonorRow>, email: string, c: Consent): (r: seq<DonorRow>)
    ensures |r| == |donors|
  {
    seq(|donors|, i requires 0 <= i < |donors| =>
      if donors[i].email == email then donors[i].(consent := c) else donors[i])
  }

  // ---- A transaction's pending writes ----

  datatype ConsentWrite = ConsentWrite(email: string, consent: Consent)

  /** At most one row per table is inserted by any of the handlers, and at most one
      committed donor and one committed event row is updated. */
  datatype Writes = Writes(
    donor: Option<DonorRow>, consent: Option<ConsentWrite>, sub: Option<SubRow>,
    event: Option<EventRow>, mark: Option<Mark>, donation: Option<DonationRow>)

  const NOTHING := Writes(None, None, None, None, None, None)

  function Plus<T>(s: seq<T>, x: Option<T>): seq<T> {
    if x.Some? then s + [x.value] else s
  }

  function Apply(db: Db, w: Writes): Db {
    Db(Plus(if w.consent.Some? then Consented(db.donors, w.consent.value.email, w.consent.value.consent)
            else db.donors, w.donor),
       Plus(db.subs, w.sub),
       Plus(if w.mark.Some? then MarkEvents(db.events, w.mark.value) else db.events, w.event),
       Plus(db.donations, w.donation))
  }

  ghost function Inserted(w: Writes): set<Key> {
    (if w.donor.Some? then {DonorKey(w.donor.value.email)} else {})
    + (if w.sub.Some? then {SubKey(w.sub.value.provider, w.sub.value.providerSubId)} else {})
    + (if w.event.Some? then {EventKey(w.event.value.providerEventId)} else {})
    + (if w.donation.Some? then {PayKey(w.donation.value.providerPaymentId)} else {})
  }

  // ---- Lemmas ----

  lemma ConsentedKeepsEmails(donors: seq<DonorRow>, email: string, c: Consent, e: string)
    ensures (exists r :: r in Consented(donors, email, c) && r.email == e)
            <==> (exists r :: r in donors && r.email == e)
  {
    var out := Consented(donors, email, c);
    if r :| r in out && r.email == e {
      var i :| 0 <= i < |out| && out[i] == r;
      assert donors[i] in donors;
    }
    if r :| r in donors && r.email == e {
      var i :| 0 <= i < |donors| && donors[i] == r;
      assert out[i] in out;
    }
  }

  lemma MarkKeepsIds(events: seq<EventRow>, m: Mark, id: string)
    ensures (exists r :: r in MarkEvents(events, m) && r.providerEventId == id)
            <==> (exists r :: r in events && r.providerEventId == id)
  {
    var out := MarkEvents(events, m);
    if r :| r in out && r.providerEventId == id {
      var i :| 0 <= i < |out| && out[i] == r;
      assert events[i] in events;
    }
    if r :| r in events && r.providerEventId == id {
      var i :| 0 <= i < |events| && events[i] == r;
      assert out[i] in out;
    }
  }

  /** Applying writes takes exactly the keys that were inserted; updates take and free none. */
  lemma ApplyTakes(db: Db, w: Writes, k: Key)
    ensures Taken(Apply(db, w), k) <==> Taken(db, k) || k in Inserted(w)
  {
    if w.consent.Some? && k.DonorKey? {
      ConsentedKeepsEmails(db.donors, w.consent.value.email, w.consent.value.consent, k.email);
    }
    if w.mark.Some? && k.EventKey? {
      MarkKeepsIds(db.events, w.mark.value, k.eventId);
    }
  }

  /** Inserting only untaken keys keeps every index unique. */
  lemma ApplyKeepsUnique(db: Db, w: Writes)
    requires Unique(db)
    requires forall k :: k in Inserted(w) ==> !Taken(db, k)
    ensures Unique(Apply(db, w))
  {
    DonorsStayDistinct(db, w);
    SubsStayDistinct(db, w);
    EventsStayDistinct(db, w);
    DonationsStayDistinct(db, w);
  }

  lemma DonorsStayDistinct(db: Db, w: Writes)
    requires DistinctDonors(db.donors)
    requires w.donor.Some? ==> !Taken(db, DonorKey(w.donor.value.email))
    ensures DistinctDonors(Apply(db, w).donors)
  {
    var rows := if w.consent.Some? then Consented(db.donors, w.consent.value.email, w.consent.value.consent)
                else db.donors;
    assert forall i :: 0 <= i < |rows| ==> rows[i].email == db.donors[i].email;
    if w.donor.Some? {
      forall i | 0 <= i < |rows| ensures rows[i].email != w.donor.value.email {
        assert db.donors[i] in db.donors;
      }
    }
  }

  lemma SubsStayDistinct(db: Db, w: Writes)
    requires DistinctSubs(db.subs)
    requires w.sub.Some? ==> !Taken(db, SubKey(w.sub.value.provider, w.sub.value.providerSubId))
    ensures DistinctSubs(Apply(db, w).subs)
  {
  }

  lemma EventsStayDistinct(db: Db, w: Writes)
    requires DistinctEvents(db.events)
    requires w.event.Some? ==> !Taken(db, EventKey(w.event.value.providerEventId))
    ensures DistinctEvents(Apply(db, w).events)
  {
    var rows := if w.mark.Some? then MarkEvents(db.events, w.mark.value) else db.events;
    assert forall i :: 0 <= i < |rows| ==> rows[i].providerEventId == db.events[i].providerEventId;
    if w.event.Some? {
      forall i | 0 <= i < |rows| ensures rows[i].providerEventId != w.event.value.providerEventId {
        assert db.events[i] in db.events;
      }
    }
  }

  lemma DonationsStayDistinct(db: Db, w: Writes)
    requires DistinctDonations(db.donations)
    requires w.donation.Some? ==> !Taken(db, PayKey(w.donation.value.providerPaymentId))
    ensures DistinctDonations(Apply(db, w).donations)
  {
  }

  /** A donor row that a SELECT found keeps its id, whatever other rows are written. */
  lemma {:induction false} FindDonorAppend(ds: seq<DonorRow>, d: DonorRow, email: string)
    ensures FindDonor(ds + [d], email)
            == if FindDonor(ds, email).Some? then FindDonor(ds, email)
               else if d.email == email then Some(d) else None
  {
    if ds != [] {
      assert (ds + [d])[1..] == ds[1..] + [d];
      FindDonorAppend(ds[1..], d, email);
    }
  }

  lemma {:induction false} FindDonorConsented(ds: seq<DonorRow>, e: string, c: Consent, email: string)
    ensures FindDonor(ds, email).Some? <==> FindDonor(Consented(ds, e, c), email).Some?
    ensures FindDonor(ds, email).Some? ==>
              FindDonor(Consented(ds, e, c), email).value.id == FindDonor(ds, email).value.id
  {
    if ds != [] {
      assert Consented(ds, e, c)[1..] == Consented(ds[1..], e, c);
      FindDonorConsented(ds[1..], e, c, email);
    }
  }

  lemma FindDonorStable(db: Db, w: Writes, email: string)
    requires FindDonor(db.donors, email).Some?
    ensures FindDonor(Apply(db, w).donors, email).Some?
    ensures FindDonor(Apply(db, w).donors, email).value.id == FindDonor(db.donors, email).value.id
  {
    var ds := if w.consent.Some? then Consented(db.donors, w.consent.value.email, w.consent.value.consent)
              else db.donors;
    if w.consent.Some? {
      FindDonorConsented(db.donors, w.consent.value.email, w.consent.value.consent, email);
    }
    if w.donor.Some? {
      FindDonorAppend(ds, w.donor.value, email);
    }
  }
}
