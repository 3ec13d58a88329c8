/** The ledger service and the two kinds of handler that drive it: the gift forms and the
    webhooks.  Each handler is given once as a function on tables (its meaning when nothing
    else runs) and once as a method on a session that flushes, commits and rolls back. */
module Ledger {
  import opened Options
  import opened Tables

  // ---- Requests ----

  /** A gift form.  `token` and `eventToken` are the random hex strings the test rail draws,
      `donorRow` and `subRow` the row ids drawn for new rows, `now` the clock; for a rail other
      than Test `token` is the provider's own identifier. */
  datatype Gift = Gift(
    rail: Rail, email: string, firstName: string, lastName: string, country: string,
    amountMinor: int, currency: string, coverFees: bool, consent: bool,
    token: string, eventToken: string, donorRow: RowId, subRow: RowId, now: Time)

  datatype Hook = Hook(
    rail: Rail, eventId: string, eventType: string, body: string, signatureValid: bool,
    now: Time, markNow: Time)

  datatype Request = OneOff(gift: Gift) | Monthly(gift: Gift) | Deliver(hook: Hook)

  /** Btc never completes a one-off checkout; only Test and Stripe complete a monthly one. */
  predicate ProviderCanReturn(req: Request) {
    match req
    case OneOff(g) => g.rail != Btc
    case Monthly(g) => g.rail == Test || g.rail == Stripe
    case Deliver(_) => true
  }

  function ProviderSubId(g: Gift): string {
    if g.rail == Test then "test_sub_" + g.token else g.token
  }

  function EventIdOf(req: Request): string {
    match req
    case OneOff(g) => "test_evt_" + g.eventToken
    case Monthly(g) => "test_evt_" + g.eventToken
    case Deliver(h) => h.eventId
  }

  function PaymentIdOf(req: Request): string
    requires !req.Deliver?
  {
    if req.OneOff? then "test_pay_" + req.gift.token else "test_sub_" + req.gift.token + "_initial"
  }

  function NewDonor(g: Gift): DonorRow {
    DonorRow(g.donorRow, g.email, g.firstName, g.lastName, g.country, Consent(false, None, None))
  }

  function NewConsent(req: Request): Consent
    requires !req.Deliver?
  {
    Consent(true, Some(req.gift.now), Some(if req.OneOff? then "give_form_oneoff" else "give_form_monthly"))
  }

  function NewSub(g: Gift, donorId: RowId): SubRow {
    SubRow(g.subRow, donorId, g.rail, ProviderSubId(g), g.amountMinor, g.currency, g.coverFees,
           Pending, None, None, None)
  }

  /** `activate_subscription`: a start time, once set, is kept. */
  function Activated(row: SubRow, now: Time): SubRow {
    row.(status := Active, startedAt := if row.startedAt.Some? then row.startedAt else Some(now))
  }

  function CancelledRow(row: SubRow, now: Time, reason: Option<string>): SubRow {
    row.(status := Cancelled, cancelledAt := Some(now), reason := reason)
  }

  function EventPayload(req: Request): Payload {
    match req
    case OneOff(g) => Synthetic(EventIdOf(req), "payment.succeeded", "test_pay_" + g.token)
    case Monthly(g) => Synthetic(EventIdOf(req), "subscription.activated", "test_sub_" + g.token)
    case Deliver(h) => Raw(h.body)
  }

  function NewEvent(req: Request): EventRow {
    match req
    case OneOff(g) =>
      EventRow(Test, EventIdOf(req), "payment.succeeded", EventPayload(req), true, g.now, None, Received, None, 0)
    case Monthly(g) =>
      EventRow(Test, EventIdOf(req), "subscription.activated", EventPayload(req), true, g.now, None, Received, None, 0)
    case Deliver(h) =>
      EventRow(h.rail, h.eventId, h.eventType, Raw(h.body), h.signatureValid, h.now, None, Received, None, 0)
  }

  function NewDonation(req: Request, donorId: RowId): DonationRow
    requires !req.Deliver?
  {
    var g := req.gift;
    DonationRow(donorId, if req.Monthly? then Some(g.subRow) else None, Test, PaymentIdOf(req),
                g.amountMinor, g.currency, req.Monthly?, g.now, EventPayload(req))
  }

  // ---- The ledger's writers on tables ----

  function WithEvent(db: Db, row: EventRow): (Db, bool) {
    if FindEvent(db.events, row.providerEventId).Some? then (db, false)
    else (db.(events := db.events + [row]), true)
  }

  function WithDonation(db: Db, row: DonationRow): Db {
    if FindDonation(db.donations, row.providerPaymentId).Some? then db
    else db.(donations := db.donations + [row])
  }

  function WithDonor(db: Db, g: Gift): (Db, RowId) {
    var found := FindDonor(db.donors, g.email);
    if found.Some? then (db, found.value.id)
    else (db.(donors := db.donors + [NewDonor(g)]), g.donorRow)
  }

  function GiveConsent(db: Db, req: Request): Db
    requires !req.Deliver?
  {
    if req.gift.consent then db.(donors := Consented(db.donors, req.gift.email, NewConsent(req))) else db
  }

  /** A monthly gift's subscription row; the test rail activates it at once. */
  function WithSub(db: Db, g: Gift, donorId: RowId): Db {
    var row := NewSub(g, donorId);
    db.(subs := db.subs + [if g.rail == Test then Activated(row, g.now) else row])
  }

  /** The synchronous half of the test rail: record the event and, if it is new, the donation,
      then mark the event. */
  function WithGift(db: Db, req: Request, donorId: RowId): (Db, bool)
    requires !req.Deliver?
  {
    var (db1, isNew) := WithEvent(db, NewEvent(req));
    if !isNew then (db1, false)
    else
      var db2 := WithDonation(db1, NewDonation(req, donorId));
      (db2.(events := MarkEvents(db2.events, Mark(EventIdOf(req), Done, req.gift.now))), true)
  }

  /** What a request's first commit does to the tables when nothing else is running. */
  function Tx(db: Db, req: Request): Db {
    match req
    case Deliver(h) => WithEvent(db, NewEvent(req)).0
    case OneOff(g) =>
      var (db1, donorId) := WithDonor(db, g);
      var db2 := GiveConsent(db1, req);
      if g.rail == Test then WithGift(db2, req, donorId).0 else db2
    case Monthly(g) =>
      var (db1, donorId) := WithDonor(db, g);
      var db2 := GiveConsent(db1, req);
      var db3 := WithSub(db2, g, donorId);
      if g.rail == Test then WithGift(db3, req, donorId).0 else db3
  }

  /** What a new webhook's second commit does. */
  function MarkTx(db: Db, h: Hook, outcome: MarkOutcome): Db {
    db.(events := MarkEvents(db.events, Mark(h.eventId, outcome, h.markNow)))
  }

  /** Whether the gift's subscription id can be inserted. */
  ghost predicate SubFree(db: Db, req: Request) {
    req.Monthly? ==> !Taken(db, SubKey(req.gift.rail, ProviderSubId(req.gift)))
  }

  /** Whether a request that has passed its checks gets to its commit.  The receipt is mailed
      before the commit, and only for a new event on the test rail. */
  ghost predicate Finishes(db: Db, req: Request, providerFails: bool, mailFails: bool) {
    req.Deliver?
    || (!providerFails && ProviderCanReturn(req) && SubFree(db, req)
        && !(req.gift.rail == Test && mailFails && !Taken(db, EventKey(EventIdOf(req)))))
  }

  // ---- A webhook call, with everything the outside world decides ----

  datatype Ending = Completes(outcome: MarkOutcome) | CrashesBetweenCommits

  datatype HookCall = HookCall(available: bool, verified: bool, parsed: bool, hook: Hook, ending: Ending)

  function HandleTx(db: Db, c: HookCall): Db {
    if !c.available || !c.verified || !c.parsed then db
    else
      var (db1, isNew) := WithEvent(db, NewEvent(Deliver(c.hook)));
      if !isNew || c.ending.CrashesBetweenCommits? then db1
      else MarkTx(db1, c.hook, c.ending.outcome)
  }

  // ---- What a handler must leave, in the words of the form or the delivery ----

  predicate DonorSays(row: DonorRow, g: Gift) {
    && row.id == g.donorRow && row.email == g.email
    && row.firstName == g.firstName && row.lastName == g.lastName && row.country == g.country
  }

  predicate SubSays(row: SubRow, g: Gift, donorId: RowId) {
    && row.id == g.subRow && row.donorId == donorId && row.provider == g.rail
    && row.providerSubId == (if g.rail == Test then "test_sub_" + g.token else g.token)
    && row.amountMinor == g.amountMinor && row.currency == g.currency && row.coverFees == g.coverFees
    && row.status == (if g.rail == Test then Active else Pending)
    && row.startedAt == (if g.rail == Test then Some(g.now) else None)
    && row.cancelledAt == None && row.reason == None
  }

  /** The synthetic event of the test rail. */
  predicate PayloadSays(p: Payload, req: Request)
    requires !req.Deliver?
  {
    && p.Synthetic? && p.eventId == "test_evt_" + req.gift.eventToken
    && p.eventType == (if req.OneOff? then "payment.succeeded" else "subscription.activated")
    && p.paymentId == (if req.OneOff? then "test_pay_" else "test_sub_") + req.gift.token
  }

  /** Recorded and, in the same commit, processed. */
  predicate GiftEventSays(e: EventRow, req: Request)
    requires !req.Deliver?
  {
    && e.provider == Test && e.providerEventId == "test_evt_" + req.gift.eventToken
    && e.eventType == (if req.OneOff? then "payment.succeeded" else "subscription.activated")
    && PayloadSays(e.payload, req) && e.signatureValid && e.receivedAt == req.gift.now
    && e.processedAt == Some(req.gift.now) && e.status == Processed && e.error == None && e.attempts == 1
  }

  predicate DonationSays(d: DonationRow, req: Request, donorId: RowId)
    requires !req.Deliver?
  {
    && d.donorId == donorId && d.provider == Test
    && d.providerPaymentId
       == (if req.OneOff? then "test_pay_" + req.gift.token else "test_sub_" + req.gift.token + "_initial")
    && d.subscriptionId == (if req.OneOff? then None else Some(req.gift.subRow))
    && d.isRecurring == req.Monthly?
    && d.amountMinor == req.gift.amountMinor && d.currency == req.gift.currency
    && d.completedAt == req.gift.now && PayloadSays(d.rawPayload, req)
  }

  /** What a delivery says, which marking never changes. */
  predicate HookSays(e: EventRow, h: Hook) {
    && e.provider == h.rail && e.providerEventId == h.eventId && e.eventType == h.eventType
    && e.payload == Raw(h.body) && e.signatureValid == h.signatureValid && e.receivedAt == h.now
  }

  /** Where its processing has got to. */
  predicate EndsAs(e: EventRow, h: Hook, ending: Ending) {
    match ending
    case CrashesBetweenCommits =>
      e.status == Received && e.processedAt == None && e.error == None && e.attempts == 0
    case Completes(Done) =>
      e.status == Processed && e.processedAt == Some(h.markNow) && e.error == None && e.attempts == 1
    case Completes(FaultLost(msg)) =>
      && e.status == (if msg == "" then Processed else EventStatus.Failed)
      && e.processedAt == Some(h.markNow) && e.error == Some(msg) && e.attempts == 1
    case Completes(FaultKept(msg)) =>
      && e.status == (if msg == "" then Processed else EventStatus.Failed)
      && e.processedAt == Some(h.markNow) && e.error == Some(msg) && e.attempts == 2
  }

  /** One row more at the end, the others as they were. */
  ghost predicate OneMore<T(!new)>(a: seq<T>, b: seq<T>, says: T -> bool) {
    |b| == |a| + 1 && b[..|a|] == a && says(b[|a|])
  }

  ghost predicate DonorOf(donors: seq<DonorRow>, email: string, id: RowId) {
    exists d :: d in donors && d.email == email && d.id == id
  }

  function ConsentSaid(req: Request, was: Consent): Consent
    requires !req.Deliver?
  {
    if !req.gift.consent then was
    else if req.OneOff? then Consent(true, Some(req.gift.now), Some("give_form_oneoff"))
    else Consent(true, Some(req.gift.now), Some("give_form_monthly"))
  }

  /** A known email adds no donor; a new one adds the form's, consenting only if the box is
      ticked.  No other row and no other field changes. */
  ghost predicate DonorsDone(a: Db, b: Db, req: Request)
    requires !req.Deliver?
  {
    var g, n := req.gift, |a.donors|;
    && |b.donors| == (if Taken(a, DonorKey(g.email)) then n else n + 1)
    && (forall i :: 0 <= i < n ==>
          b.donors[i] == if a.donors[i].email != g.email then a.donors[i]
                         else a.donors[i].(consent := ConsentSaid(req, a.donors[i].consent)))
    && (!Taken(a, DonorKey(g.email)) ==>
          DonorSays(b.donors[n], g) && b.donors[n].consent == ConsentSaid(req, Consent(false, None, None)))
  }

  ghost predicate SubsDone(a: Db, b: Db, req: Request)
    requires !req.Deliver?
  {
    if req.OneOff? then b.subs == a.subs
    else OneMore(a.subs, b.subs, (row: SubRow) => SubSays(row, req.gift, row.donorId))
         && DonorOf(b.donors, req.gift.email, b.subs[|a.subs|].donorId)
  }

  /** The test rail books an event and a donation, unless it takes the gift for a repeat. */
  ghost predicate BooksDone(a: Db, b: Db, req: Request)
    requires !req.Deliver?
  {
    var g := req.gift;
    var payment := if req.OneOff? then "test_pay_" + g.token else "test_sub_" + g.token + "_initial";
    if g.rail != Test || Taken(a, EventKey("test_evt_" + g.eventToken)) then
      b.events == a.events && b.donations == a.donations
    else
      && OneMore(a.events, b.events, (e: EventRow) => GiftEventSays(e, req))
      && (if Taken(a, PayKey(payment)) then b.donations == a.donations
          else OneMore(a.donations, b.donations, (d: DonationRow) => DonationSays(d, req, d.donorId))
               && DonorOf(b.donors, g.email, b.donations[|a.donations|].donorId))
  }

  ghost predicate GiftDone(a: Db, b: Db, req: Request)
    requires !req.Deliver?
  {
    DonorsDone(a, b, req) && SubsDone(a, b, req) && BooksDone(a, b, req)
  }

  /** A delivery of a new id adds its row; of a known one, nothing. */
  ghost predicate HookDone(a: Db, b: Db, h: Hook, ending: Ending) {
    && b == a.(events := b.events)
    && if Taken(a, EventKey(h.eventId)) then b == a
       else OneMore(a.events, b.events, (e: EventRow) => HookSays(e, h) && EndsAs(e, h, ending))
  }

  lemma NewRowsSay(req: Request, donorId: RowId)
    requires !req.Deliver?
    ensures DonorSays(NewDonor(req.gift), req.gift)
    ensures var row := NewSub(req.gift, donorId);
            SubSays(if req.gift.rail == Test then Activated(row, req.gift.now) else row, req.gift, donorId)
    ensures GiftEventSays(MarkRow(NewEvent(req), None, req.gift.now), req)
    ensures DonationSays(NewDonation(req, donorId), req, donorId)
  {
  }

  lemma ConsentOnNew(donors: seq<DonorRow>, d: DonorRow, c: Consent)
    requires forall r :: r in donors ==> r.email != d.email
    ensures Consented(donors + [d], d.email, c) == donors + [d.(consent := c)]
  {
    var all := donors + [d];
    forall i | 0 <= i < |donors| ensures all[i].email != d.email {
      assert donors[i] in donors;
    }
  }

  lemma MarkOnNew(events: seq<EventRow>, e: EventRow, m: Mark)
    requires forall r :: r in events ==> r.providerEventId != e.providerEventId
    requires m.eventId == e.providerEventId
    ensures MarkEvents(events + [e], m) == events + [MarkWith(e, m.outcome, m.at)]
  {
    var all := events + [e];
    forall i | 0 <= i < |events| ensures all[i].providerEventId != e.providerEventId {
      assert events[i] in events;
    }
  }

  lemma KnownDonorDone(db: Db, req: Request)
    requires !req.Deliver? && FindDonor(db.donors, req.gift.email).Some?
    ensures var db2 := GiveConsent(db, req);
            && DonorsDone(db, db2, req)
            && DonorOf(db2.donors, req.gift.email, FindDonor(db.donors, req.gift.email).value.id)
  {
    var d, db2 := FindDonor(db.donors, req.gift.email).value, GiveConsent(db, req);
    var i :| 0 <= i < |db.donors| && db.donors[i] == d;
    assert db2.donors[i] in db2.donors && db2.donors[i].email == req.gift.email;
    hide FindDonor;
  }

  lemma NewDonorDone(db: Db, req: Request)
    requires !req.Deliver? && FindDonor(db.donors, req.gift.email).None?
    ensures var db2 := GiveConsent(db.(donors := db.donors + [NewDonor(req.gift)]), req);
            DonorsDone(db, db2, req) && DonorOf(db2.donors, req.gift.email, req.gift.donorRow)
  {
    var d, n := NewDonor(req.gift), |db.donors|;
    var db2 := GiveConsent(db.(donors := db.donors + [d]), req);
    assert forall i :: 0 <= i < n ==> db.donors[i] in db.donors;
    hide FindDonor;
    if req.gift.consent {
      ConsentOnNew(db.donors, d, NewConsent(req));
      hide Consented;
    }
    assert db2.donors[n] in db2.donors;
  }

  lemma DonorPartDone(db: Db, req: Request)
    requires !req.Deliver?
    ensures var (db1, donorId) := WithDonor(db, req.gift);
            var db2 := GiveConsent(db1, req);
            DonorsDone(db, db2, req) && DonorOf(db2.donors, req.gift.email, donorId) && db2 == db.(donors := db2.donors)
  {
    hide DonorsDone, DonorOf, FindDonor, Consented, NewDonor;
    if FindDonor(db.donors, req.gift.email).Some? {
      KnownDonorDone(db, req);
    } else {
      NewDonorDone(db, req);
    }
  }

  lemma SubPartDone(db: Db, db2: Db, req: Request, donorId: RowId)
    requires req.Monthly? && db2 == db.(donors := db2.donors) && DonorOf(db2.donors, req.gift.email, donorId)
    ensures SubsDone(db, WithSub(db2, req.gift, donorId), req)
    ensures WithSub(db2, req.gift, donorId) == db2.(subs := WithSub(db2, req.gift, donorId).subs)
  {
    NewRowsSay(req, donorId);
    hide DonorOf, DonorSays, GiftEventSays, DonationSays;
  }

  lemma BookPartDone(db: Db, req: Request, donorId: RowId)
    requires !req.Deliver? && req.gift.rail == Test && DonorOf(db.donors, req.gift.email, donorId)
    ensures var out := WithGift(db, req, donorId).0;
            BooksDone(db, out, req) && out == db.(events := out.events, donations := out.donations)
  {
    assert Taken(db, EventKey(EventIdOf(req))) <==> FindEvent(db.events, EventIdOf(req)).Some?;
    assert Taken(db, PayKey(PaymentIdOf(req))) <==> FindDonation(db.donations, PaymentIdOf(req)).Some?;
    NewRowsSay(req, donorId);
    if FindEvent(db.events, EventIdOf(req)).None? {
      MarkOnNew(db.events, NewEvent(req), Mark(EventIdOf(req), Done, req.gift.now));
      hide GiftEventSays, DonationSays, DonorOf, NewEvent, NewDonation, MarkRow;
      assert NewDonation(req, donorId).donorId == donorId;
    }
  }

  lemma BooksFrame(db: Db, db3: Db, out: Db, req: Request)
    requires !req.Deliver? && BooksDone(db3, out, req)
    requires db3 == db.(donors := db3.donors, subs := db3.subs)
    ensures BooksDone(db, out, req)
  {
  }

  /** A committed gift leaves exactly what its form says. */
  lemma TxIsDone(db: Db, req: Request)
    requires !req.Deliver?
    ensures GiftDone(db, Tx(db, req), req)
  {
    var g := req.gift;
    var (db1, donorId) := WithDonor(db, g);
    var db2 := GiveConsent(db1, req);
    var db3 := if req.Monthly? then WithSub(db2, g, donorId) else db2;
    assert Tx(db, req) == if g.rail == Test then WithGift(db3, req, donorId).0 else db3;
    assert req.OneOff? ==> SubsDone(db, db2, req);
    hide WithDonor, GiveConsent, WithSub, WithGift, Tx, DonorOf, DonorsDone, SubsDone;
    DonorPartDone(db, req);
    if req.Monthly? {
      SubPartDone(db, db2, req, donorId);
    }
    assert DonorsDone(db, db3, req) && SubsDone(db, db3, req) by {
      SameParts(db, db2, db3, req);
    }
    if g.rail == Test {
      BookPartDone(db3, req, donorId);
      BooksFrame(db, db3, Tx(db, req), req);
      SameParts(db, db3, Tx(db, req), req);
    }
  }

  /** Each part is about its own table, and the donors. */
  lemma SameParts(a: Db, b: Db, c: Db, req: Request)
    requires !req.Deliver? && c.donors == b.donors
    ensures DonorsDone(a, b, req) ==> DonorsDone(a, c, req)
    ensures SubsDone(a, b, req) && c.subs == b.subs ==> SubsDone(a, c, req)
  {
  }

  lemma HandleIsDone(db: Db, c: HookCall)
    requires c.available && c.verified && c.parsed
    ensures HookDone(db, HandleTx(db, c), c.hook, c.ending)
  {
    var row := NewEvent(Deliver(c.hook));
    assert Taken(db, EventKey(c.hook.eventId)) <==> FindEvent(db.events, c.hook.eventId).Some?;
    if FindEvent(db.events, c.hook.eventId).None? && c.ending.Completes? {
      MarkOnNew(db.events, row, Mark(c.hook.eventId, c.ending.outcome, c.hook.markNow));
    }
  }

  lemma KeysOfTable(a: Db, b: Db)
    ensures a.subs == b.subs ==> forall rail, id :: Taken(a, SubKey(rail, id)) <==> Taken(b, SubKey(rail, id))
    ensures a.events == b.events ==> forall id :: Taken(a, EventKey(id)) <==> Taken(b, EventKey(id))
  {
  }

  // ---- The session ----

  class Session {
    var committed: Db  // what every other session sees
    var view: Db       // what this session sees: committed rows and its own flushed writes

    constructor (db: Db)
      ensures committed == view == db
    {
      committed, view := db, db;
    }

    method Commit()
      modifies this`committed
      ensures committed == view
    {
      committed := view;
    }

    method Rollback()
      modifies this`view
      ensures view == committed
    {
      view := committed;
    }

    /** Check, then insert.  The row handed back is always the one stored under the id. */
    method RecordWebhookEvent(candidate: EventRow) returns (row: EventRow, isNew: bool)
      modifies this`view
      ensures isNew <==> !Taken(old(view), EventKey(candidate.providerEventId))
      ensures isNew ==> row == candidate && view == old(view).(events := old(view).events + [candidate])
      ensures !isNew ==> view == old(view)
      ensures row in view.events && row.providerEventId == candidate.providerEventId
      ensures (view, isNew) == WithEvent(old(view), candidate)
    {
      var existing := FindEvent(view.events, candidate.providerEventId);
      if existing.Some? {
        return existing.value, false;
      }
      view := view.(events := view.events + [candidate]);
      return candidate, true;
    }

    /** One UPDATE by row identity; every other row stays as it was. */
    method MarkEventProcessed(eventId: string, outcome: MarkOutcome, now: Time)
      modifies this`view
      ensures view == old(view).(events := view.events) && |view.events| == |old(view).events|
      ensures forall i :: 0 <= i < |view.events| ==>
                var was, row := old(view).events[i], view.events[i];
                if was.providerEventId != eventId then row == was
                else
                  var error, times := if outcome.Done? then None else Some(outcome.msg),
                                      if outcome.FaultKept? then 2 else 1;
                  row == was.(processedAt := Some(now), error := error, attempts := was.attempts + times,
                  status := if error.Some? && error.value != "" then EventStatus.Failed else Processed)
      ensures view.events == MarkEvents(old(view).events, Mark(eventId, outcome, now))
    {
      view := view.(events := MarkEvents(view.events, Mark(eventId, outcome, now)));
    }

    method RecordDonation(candidate: DonationRow) returns (row: DonationRow)
      modifies this`view
      ensures row in view.donations && row.providerPaymentId == candidate.providerPaymentId
      ensures Taken(old(view), PayKey(candidate.providerPaymentId)) ==> view == old(view)
      ensures !Taken(old(view), PayKey(candidate.providerPaymentId)) ==>
                row == candidate && view == old(view).(donations := old(view).donations + [candidate])
      ensures view == WithDonation(old(view), candidate)
    {
      var existing := FindDonation(view.donations, candidate.providerPaymentId);
      if existing.Some? {
        return existing.value;
      }
      view := view.(donations := view.donations + [candidate]);
      return candidate;
    }

    method GetOrCreateDonor(g: Gift) returns (donorId: RowId)
      modifies this`view
      ensures (view, donorId) == WithDonor(old(view), g)
      ensures exists d :: d in view.donors && d.email == g.email && d.id == donorId
      ensures Taken(old(view), DonorKey(g.email)) ==> view == old(view)
      ensures !Taken(old(view), DonorKey(g.email)) ==>
                && donorId == g.donorRow
                && OneMore(old(view).donors, view.donors,
                           (row: DonorRow) => DonorSays(row, g) && row.consent == Consent(false, None, None))
      ensures view == old(view).(donors := view.donors)
    {
      var found := FindDonor(view.donors, g.email);
      if found.Some? {
        return found.value.id;
      }
      view := view.(donors := view.donors + [NewDonor(g)]);
      assert NewDonor(g) in view.donors;
      return g.donorRow;
    }

    method StampConsent(req: Request)
      requires !req.Deliver?
      modifies this`view
      ensures view == GiveConsent(old(view), req)
      ensures view == old(view).(donors := view.donors) && |view.donors| == |old(view).donors|
      ensures !req.gift.consent ==> view == old(view)
      ensures req.gift.consent ==> forall i :: 0 <= i < |view.donors| ==>
                var was, source := old(view).donors[i], if req.OneOff? then "give_form_oneoff" else "give_form_monthly";
                view.donors[i] == if was.email != req.gift.email then was
                                  else was.(consent := Consent(true, Some(req.gift.now), Some(source)))
    {
      if req.gift.consent {
        view := view.(donors := Consented(view.donors, req.gift.email, NewConsent(req)));
      }
    }

    method ActivateSubscription(n: nat, now: Time)
      requires n < |view.subs|
      modifies this`view
      ensures view == old(view).(subs := old(view).subs[n := Activated(old(view).subs[n], now)])
      ensures var was := old(view).subs[n];
              view.subs[n] == was.(status := Active,
              startedAt := if was.startedAt.None? then Some(now) else was.startedAt)
    {
      view := view.(subs := view.subs[n := Activated(view.subs[n], now)]);
    }

    /** The unique index on (provider, provider_subscription_id) rejects a second row. */
    method AddSubscription(g: Gift, donorId: RowId) returns (ok: bool)
      modifies this`view
      ensures ok <==> !Taken(old(view), SubKey(g.rail, if g.rail == Test then "test_sub_" + g.token else g.token))
      ensures view == if ok then WithSub(old(view), g, donorId) else old(view)
      ensures ok ==> view == old(view).(subs := view.subs)
                     && OneMore(old(view).subs, view.subs, (row: SubRow) => SubSays(row, g, donorId))
    {
      if exists r :: r in view.subs && r.provider == g.rail && r.providerSubId == ProviderSubId(g) {
        return false;
      }
      var n := |view.subs|;
      view := view.(subs := view.subs + [NewSub(g, donorId)]);
      if g.rail == Test {
        ActivateSubscription(n, g.now);
      }
      return true;
    }

    /** The block both gift forms share once the test rail has answered. */
    method RecordGift(req: Request, donorId: RowId) returns (isNew: bool)
      requires !req.Deliver?
      modifies this`view
      ensures (view, isNew) == WithGift(old(view), req, donorId)
      ensures isNew <==> !Taken(old(view), EventKey("test_evt_" + req.gift.eventToken))
      ensures req.gift.rail == Test && DonorOf(old(view).donors, req.gift.email, donorId) ==>
                BooksDone(old(view), view, req)
    {
      if req.gift.rail == Test && DonorOf(view.donors, req.gift.email, donorId) {
        BookPartDone(view, req, donorId);
      }
      var row;
      row, isNew := RecordWebhookEvent(NewEvent(req));
      if isNew {
        var donation := RecordDonation(NewDonation(req, donorId));
        MarkEventProcessed(EventIdOf(req), Done, req.gift.now);
      }
    }

    method CreateOneOff(g: Gift, available: bool, providerFails: bool, mailFails: bool) returns (code: nat)
      requires view == committed
      modifies this
      ensures view == committed
      ensures code == 422 <==> !available
      ensures code == 200 <==>
                && available && !providerFails && g.rail != Btc
                && !(g.rail == Test && mailFails && !Taken(old(committed), EventKey("test_evt_" + g.eventToken)))
      ensures code == 200 <==> available && Finishes(old(committed), OneOff(g), providerFails, mailFails)
      ensures code == 200 ==> GiftDone(old(committed), committed, OneOff(g))
      ensures committed == if code == 200 then Tx(old(committed), OneOff(g)) else old(committed)
    {
      if !available {
        return 422;
      }
      TxIsDone(committed, OneOff(g));
      hide GiftDone, OneMore, DonorSays, DonorOf, BooksDone, FindDonor, Consented, NewConsent;
      var donorId := GetOrCreateDonor(g);
      StampConsent(OneOff(g));
      if providerFails || !ProviderCanReturn(OneOff(g)) {
        Rollback();
        return 500;
      }
      if g.rail == Test {
        var isNew := RecordGift(OneOff(g), donorId);
        if isNew && mailFails {
          Rollback();
          return 500;
        }
      }
      Commit();
      return 200;
    }

    method CreateSubscription(g: Gift, available: bool, providerFails: bool, mailFails: bool) returns (code: nat)
      requires view == committed
      modifies this
      ensures view == committed
      ensures code == 422 <==> !available
      ensures code == 200 <==>
                && available && !providerFails && (g.rail == Test || g.rail == Stripe)
                && !Taken(old(committed), SubKey(g.rail, if g.rail == Test then "test_sub_" + g.token else g.token))
                && !(g.rail == Test && mailFails && !Taken(old(committed), EventKey("test_evt_" + g.eventToken)))
      ensures code == 200 <==> available && Finishes(old(committed), Monthly(g), providerFails, mailFails)
      ensures code == 200 ==> GiftDone(old(committed), committed, Monthly(g))
      ensures committed == if code == 200 then Tx(old(committed), Monthly(g)) else old(committed)
    {
      if !available {
        return 422;
      }
      ghost var before := committed;
      TxIsDone(committed, Monthly(g));
      hide GiftDone, OneMore, SubSays, DonorSays, DonorOf, BooksDone, FindDonor, Consented, NewConsent, Taken, WithGift;
      var donorId := GetOrCreateDonor(g);
      StampConsent(Monthly(g));
      if providerFails || !ProviderCanReturn(Monthly(g)) {
        Rollback();
        return 500;
      }
      KeysOfTable(before, view);
      ghost var donorsDone := view;
      var inserted := AddSubscription(g, donorId);
      if !inserted {
        Rollback();
        return 500;
      }
      KeysOfTable(donorsDone, view);
      if g.rail == Test {
        var isNew := RecordGift(Monthly(g), donorId);
        if isNew && mailFails {
          Rollback();
          return 500;
        }
      }
      Commit();
      return 200;
    }

    /** Verify, parse, record, commit, and only then process and commit again. */
    method Handle(c: HookCall) returns (code: nat)
      requires view == committed
      modifies this
      ensures view == committed
      ensures code == 401 <==> !c.available || !c.verified
      ensures code == 500 <==>
                && c.available && c.verified
                && (!c.parsed || (c.ending.CrashesBetweenCommits? && !Taken(old(committed), EventKey(c.hook.eventId))))
      ensures code == 401 || code == 500 || code == 200
      ensures code == 401 || !c.parsed ==> committed == old(committed)
      ensures committed == HandleTx(old(committed), c)
      ensures c.available && c.verified && c.parsed ==> HookDone(old(committed), committed, c.hook, c.ending)
      ensures code == 200 && Taken(old(committed), EventKey(c.hook.eventId)) ==> committed == old(committed)
      ensures c.available && c.verified && c.parsed ==> Taken(committed, EventKey(c.hook.eventId))
    {
      if !c.available {
        return 401;
      }
      if !c.verified {
        return 401;
      }
      if !c.parsed {
        return 500;
      }
      HandleIsDone(committed, c);
      hide HookDone;
      var row, isNew := RecordWebhookEvent(NewEvent(Deliver(c.hook)));
      Commit();
      assert row in view.events && row.providerEventId == c.hook.eventId;
      if !isNew {
        return 200;
      }
      if c.ending.CrashesBetweenCommits? {
        return 500;
      }
      MarkEventProcessed(c.hook.eventId, c.ending.outcome, c.hook.markNow);
      MarkKeepsIds(committed.events, Mark(c.hook.eventId, c.ending.outcome, c.hook.markNow), c.hook.eventId);
      Commit();
      return 200;
    }
  }
}
