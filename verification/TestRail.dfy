/** The test rail in every reachable state: which events and donations the committed gifts left,
    and when every gift has both. */
module TestRail {
  import opened Options
  import opened Tables
  import opened Ledger
  import opened Interleaving
  import opened Guarantees
  import opened EventTable
  import Deliveries

  predicate TestGift(req: Request) {
    !req.Deliver? && req.gift.rail == Test
  }

  /** Every test gift that committed, in commit order. */
  function CommittedGifts(log: seq<Entry>): seq<Request> {
    if log == [] then []
    else
      var front, e := CommittedGifts(log[..|log| - 1]), log[|log| - 1];
      if e.First? && TestGift(e.req) then front + [e.req] else front
  }

  /** Those among them that recorded their event. */
  function RecordedGifts(log: seq<Entry>): seq<Request> {
    if log == [] then []
    else
      var front, e := RecordedGifts(log[..|log| - 1]), log[|log| - 1];
      if e.First? && e.isNew && TestGift(e.req) then front + [e.req] else front
  }

  ghost predicate Gifts(gifts: seq<Request>) {
    forall g :: g in gifts ==> TestGift(g) && g.gift.amountMinor > 0
  }

  function GiftAmount(req: Request): int {
    if req.Deliver? then 0 else req.gift.amountMinor
  }

  // ---- Payment ids ----

  predicate SamePayment(a: Request, b: Request) {
    !a.Deliver? && !b.Deliver? && PaymentIdOf(a) == PaymentIdOf(b)
  }

  /** The `test_pay_` and `test_sub_ … _initial` ids never collide, and each determines its token. */
  lemma PaymentIdsDetermineTokens(a: Request, b: Request)
    requires !a.Deliver? && !b.Deliver?
    ensures PaymentIdOf(a) == PaymentIdOf(b) <==> a.OneOff? == b.OneOff? && a.gift.token == b.gift.token
  {
    if PaymentIdOf(a) == PaymentIdOf(b) {
      assert PaymentIdOf(a)[5] == if a.OneOff? then 'p' else 's';
      assert PaymentIdOf(b)[5] == if b.OneOff? then 'p' else 's';
      var n := |PaymentIdOf(a)|;
      if a.OneOff? {
        assert a.gift.token == PaymentIdOf(a)[9..n] == PaymentIdOf(b)[9..n] == b.gift.token;
      } else {
        assert a.gift.token == PaymentIdOf(a)[9..n - 8] == PaymentIdOf(b)[9..n - 8] == b.gift.token;
      }
    }
  }

  /** The gifts whose payment id no earlier one has. */
  function Firsts(gifts: seq<Request>): seq<Request> {
    if gifts == [] then []
    else
      var front, g := gifts[..|gifts| - 1], gifts[|gifts| - 1];
      if exists f :: f in front && SamePayment(f, g) then Firsts(front) else Firsts(front) + [g]
  }

  lemma FirstsSnoc(gifts: seq<Request>, g: Request)
    ensures Firsts(gifts + [g])
            == if exists f :: f in gifts && SamePayment(f, g) then Firsts(gifts) else Firsts(gifts) + [g]
  {
    assert (gifts + [g])[..|gifts|] == gifts;
  }

  lemma {:induction false} FirstsCover(gifts: seq<Request>, g: Request)
    ensures (exists f :: f in Firsts(gifts) && SamePayment(f, g)) <==> (exists f :: f in gifts && SamePayment(f, g))
    ensures forall f :: f in Firsts(gifts) ==> f in gifts
  {
    if gifts != [] {
      var front, last := gifts[..|gifts| - 1], gifts[|gifts| - 1];
      assert gifts == front + [last];
      FirstsCover(front, g);
      FirstsCover(front, last);
    }
  }

  /** Two gifts of the same kind that drew the same token. */
  predicate SameToken(a: Request, b: Request) {
    !a.Deliver? && !b.Deliver? && a.OneOff? == b.OneOff? && a.gift.token == b.gift.token
  }

  ghost predicate DistinctTokens(gifts: seq<Request>) {
    forall i, j :: 0 <= i < j < |gifts| ==> !SameToken(gifts[i], gifts[j])
  }

  lemma DistinctSnoc(front: seq<Request>, last: Request)
    ensures DistinctTokens(front + [last]) <==> DistinctTokens(front) && !exists f :: f in front && SamePayment(f, last)
  {
    forall f ensures SamePayment(f, last) <==> SameToken(f, last) {
      if !f.Deliver? && !last.Deliver? {
        PaymentIdsDetermineTokens(f, last);
      }
    }
    hide SamePayment, SameToken;
    var all := front + [last];
    assert forall i :: 0 <= i < |front| ==> all[i] == front[i];
    if DistinctTokens(all) {
      forall f | f in front ensures !SameToken(f, last) {
        var i :| 0 <= i < |front| && front[i] == f;
        assert !SameToken(all[i], all[|front|]);
      }
    }
  }

  lemma {:induction false} NoneDropped(gifts: seq<Request>)
    ensures |Firsts(gifts)| <= |gifts|
    ensures |Firsts(gifts)| == |gifts| <==> DistinctTokens(gifts)
    ensures DistinctTokens(gifts) ==> Firsts(gifts) == gifts
  {
    if gifts != [] {
      var front, last := gifts[..|gifts| - 1], gifts[|gifts| - 1];
      assert gifts == front + [last];
      NoneDropped(front);
      DistinctSnoc(front, last);
      hide SamePayment, DistinctTokens;
    }
  }

  // ---- The donations of a log ----

  ghost predicate Backed(db: Db, d: DonationRow) {
    && (exists r :: r in db.donors && r.id == d.donorId)
    && (if d.isRecurring then
          exists r :: r in db.subs && d.subscriptionId == Some(r.id)
                      && r.donorId == d.donorId && r.currency == d.currency && r.amountMinor == d.amountMinor
        else d.subscriptionId.None?)
    && d.amountMinor > 0
  }

  /** The donation is the one the gift form asked for, and belongs to the donor with its email. */
  predicate RecordsGift(donors: seq<DonorRow>, d: DonationRow, req: Request) {
    && TestGift(req) && DonationSays(d, req, d.donorId)
    && FindDonor(donors, req.gift.email).Some? && FindDonor(donors, req.gift.email).value.id == d.donorId
  }

  /** The donations are, in order, those of the gifts whose payment id was new. */
  ghost predicate Ledgered(db: Db, gifts: seq<Request>) {
    && |db.donations| == |Firsts(gifts)|
    && (forall k :: 0 <= k < |db.donations| ==> RecordsGift(db.donors, db.donations[k], Firsts(gifts)[k]))
    && (forall k :: 0 <= k < |db.donations| ==> Backed(db, db.donations[k]))
  }

  /** What a gift's commit does to the donor and subscription tables. */
  lemma GiftDonors(db: Db, req: Request, email: string)
    requires !req.Deliver?
    ensures var out := Tx(db, req).donors;
            && (FindDonor(db.donors, email).Some? ==>
                  FindDonor(out, email).Some? && FindDonor(out, email).value.id == FindDonor(db.donors, email).value.id)
            && (email == req.gift.email ==>
                  FindDonor(out, email).Some? && FindDonor(out, email).value.id == WithDonor(db, req.gift).1)
  {
    var db1 := WithDonor(db, req.gift).0;
    FindDonorAppend(db.donors, NewDonor(req.gift), email);
    FindDonorConsented(db1.donors, req.gift.email, NewConsent(req), email);
    GiftTables(db, req);
    hide Tx, WithGift;
  }

  lemma GiftTables(db: Db, req: Request)
    requires !req.Deliver?
    ensures var (db1, donorId) := WithDonor(db, req.gift);
            && Tx(db, req).donors == GiveConsent(db1, req).donors
            && Tx(db, req).subs == (if req.Monthly? then WithSub(db, req.gift, donorId).subs else db.subs)
  {
    var (db1, donorId) := WithDonor(db, req.gift);
    var db2 := GiveConsent(db1, req);
    var db3 := if req.Monthly? then WithSub(db2, req.gift, donorId) else db2;
    GiftFrame(db3, db3.donors, db3.subs, req, donorId);
    assert db2.subs == db.subs;
    hide WithGift, Consented, FindDonor, Activated, NewSub;
    assert Tx(db, req) == if req.gift.rail == Test then WithGift(db3, req, donorId).0 else db3;
  }

  lemma GiftDonations(db: Db, req: Request)
    requires !req.Deliver?
    ensures Tx(db, req).donations
            == if TestGift(req) && !Taken(db, EventKey(EventIdOf(req))) && !Taken(db, PayKey(PaymentIdOf(req)))
               then db.donations + [NewDonation(req, WithDonor(db, req.gift).1)] else db.donations
  {
    var (db1, donorId) := WithDonor(db, req.gift);
    var db2 := GiveConsent(db1, req);
    var db3 := if req.Monthly? then WithSub(db2, req.gift, donorId) else db2;
    assert db3.events == db.events && db3.donations == db.donations;
    assert Tx(db, req) == if req.gift.rail == Test then WithGift(db3, req, donorId).0 else db3;
    hide WithDonor, GiveConsent, WithSub, Tx;
    BookedDonations(db3, req, donorId);
  }

  lemma BookedDonations(db: Db, req: Request, donorId: RowId)
    requires !req.Deliver?
    ensures WithGift(db, req, donorId).0.donations
            == if !Taken(db, EventKey(EventIdOf(req))) && !Taken(db, PayKey(PaymentIdOf(req)))
               then db.donations + [NewDonation(req, donorId)] else db.donations
  {
    assert Taken(db, EventKey(EventIdOf(req))) <==> FindEvent(db.events, EventIdOf(req)).Some?;
    assert Taken(db, PayKey(PaymentIdOf(req))) <==> FindDonation(db.donations, PaymentIdOf(req)).Some?;
  }

  lemma {:induction false} IdKept(ds: seq<DonorRow>, out: seq<DonorRow>, id: RowId)
    requires |ds| <= |out| && forall i :: 0 <= i < |ds| ==> out[i].id == ds[i].id
    requires exists r :: r in ds && r.id == id
    ensures exists r :: r in out && r.id == id
  {
    var i :| 0 <= i < |ds| && ds[i].id == id;
    assert out[i] in out;
  }

  lemma BackedStays(db: Db, req: Request, d: DonationRow)
    requires !req.Deliver? && Backed(db, d)
    ensures Backed(Tx(db, req), d)
  {
    GiftTables(db, req);
    IdKept(db.donors, Tx(db, req).donors, d.donorId);
    hide Tx;
  }

  lemma RecordStays(db: Db, req: Request, d: DonationRow, g: Request)
    requires !req.Deliver? && RecordsGift(db.donors, d, g)
    ensures RecordsGift(Tx(db, req).donors, d, g)
  {
    GiftDonors(db, req, g.gift.email);
    hide Tx, DonationSays, FindDonor;
  }

  lemma NewRecord(db: Db, req: Request)
    requires TestGift(req) && req.gift.amountMinor > 0
    ensures var d := NewDonation(req, WithDonor(db, req.gift).1);
            RecordsGift(Tx(db, req).donors, d, req) && Backed(Tx(db, req), d)
  {
    GiftDonors(db, req, req.gift.email);
    GiftTables(db, req);
    var out, donorId := Tx(db, req), WithDonor(db, req.gift).1;
    NewRowsSay(req, donorId);
    hide Tx, WithDonor, FindDonor, GiftEventSays, DonorSays, PayloadSays;
    var r := FindDonor(out.donors, req.gift.email).value;
    assert r in out.donors && r.id == donorId;
    if req.Monthly? {
      assert out.subs[|db.subs|] in out.subs;
    }
  }

  lemma RecordPays(donors: seq<DonorRow>, d: DonationRow, g: Request)
    requires RecordsGift(donors, d, g)
    ensures TestGift(g) && d.providerPaymentId == PaymentIdOf(g) && d.amountMinor == GiftAmount(g)
  {
  }

  lemma SameIds(donations: seq<DonationRow>, firsts: seq<Request>, req: Request)
    requires |donations| == |firsts| && !req.Deliver?
    requires forall k :: 0 <= k < |firsts| ==>
               !firsts[k].Deliver? && donations[k].providerPaymentId == PaymentIdOf(firsts[k])
    ensures (exists d :: d in donations && d.providerPaymentId == PaymentIdOf(req))
            <==> exists g :: g in firsts && SamePayment(g, req)
  {
    hide PaymentIdOf;
    if d :| d in donations && d.providerPaymentId == PaymentIdOf(req) {
      var k :| 0 <= k < |donations| && donations[k] == d;
      assert firsts[k] in firsts && SamePayment(firsts[k], req);
    }
    if g :| g in firsts && SamePayment(g, req) {
      var k :| 0 <= k < |firsts| && firsts[k] == g;
      assert donations[k] in donations;
    }
  }

  /** A payment id is taken exactly when an earlier gift had it. */
  lemma TakenIffPaid(db: Db, gifts: seq<Request>, req: Request)
    requires Ledgered(db, gifts) && TestGift(req)
    ensures Taken(db, PayKey(PaymentIdOf(req))) <==> exists g :: g in gifts && SamePayment(g, req)
  {
    var firsts := Firsts(gifts);
    hide Firsts, SamePayment, PaymentIdOf, RecordsGift, Backed;
    FirstsCover(gifts, req);
    forall k | 0 <= k < |firsts|
      ensures !firsts[k].Deliver? && db.donations[k].providerPaymentId == PaymentIdOf(firsts[k])
    {
      RecordPays(db.donors, db.donations[k], firsts[k]);
    }
    SameIds(db.donations, firsts, req);
  }

  lemma OldRowsStay(db: Db, req: Request, gifts: seq<Request>)
    requires Ledgered(db, gifts) && !req.Deliver?
    ensures forall k :: 0 <= k < |db.donations| ==>
              RecordsGift(Tx(db, req).donors, db.donations[k], Firsts(gifts)[k]) && Backed(Tx(db, req), db.donations[k])
  {
    forall k | 0 <= k < |db.donations|
      ensures RecordsGift(Tx(db, req).donors, db.donations[k], Firsts(gifts)[k]) && Backed(Tx(db, req), db.donations[k])
    {
      RecordStays(db, req, db.donations[k], Firsts(gifts)[k]);
      BackedStays(db, req, db.donations[k]);
    }
  }

  lemma OtherCommitKeepsLedger(db: Db, req: Request, gifts: seq<Request>)
    requires Ledgered(db, gifts) && !(TestGift(req) && !Taken(db, EventKey(EventIdOf(req))))
    ensures Ledgered(Tx(db, req), gifts)
  {
    if !req.Deliver? {
      OldRowsStay(db, req, gifts);
      GiftDonations(db, req);
      hide Tx, RecordsGift, Backed;
    } else {
      var out := Tx(db, req);
      assert out == db.(events := out.events);
      hide Tx, RecordsGift;
    }
  }

  lemma GiftCommitKeepsLedger(db: Db, req: Request, gifts: seq<Request>)
    requires Ledgered(db, gifts) && TestGift(req) && req.gift.amountMinor > 0
    requires !Taken(db, EventKey(EventIdOf(req)))
    ensures Ledgered(Tx(db, req), gifts + [req])
  {
    hide Tx, RecordsGift, Backed, Firsts, Taken, NewDonation, WithDonor, SamePayment, EventIdOf;
    OldRowsStay(db, req, gifts);
    GiftDonations(db, req);
    TakenIffPaid(db, gifts, req);
    FirstsSnoc(gifts, req);
    NewRecord(db, req);
  }

  lemma MarkKeepsLedger(db: Db, h: Hook, outcome: MarkOutcome, gifts: seq<Request>)
    requires Ledgered(db, gifts)
    ensures Ledgered(MarkTx(db, h, outcome), gifts)
  {
    hide RecordsGift;
  }

  lemma GiftsStep(log: seq<Entry>, n: nat)
    requires n < |log|
    ensures var e := log[n];
            RecordedGifts(log[..n + 1])
            == if e.First? && e.isNew && TestGift(e.req) then RecordedGifts(log[..n]) + [e.req]
               else RecordedGifts(log[..n])
  {
    assert log[..n + 1][..n] == log[..n];
  }

  lemma FlagAt(log: seq<Entry>, i: nat)
    requires FlagsOk(log) && LogWellFormed(log) && i < |log|
    ensures log[i].First? ==>
              && WellFormed(log[i].req)
              && (log[i].isNew
                  <==> RecordsEvent(log[i].req) && !Taken(Replay(log[..i]), EventKey(EventIdOf(log[i].req))))
  {
  }

  lemma EntryKeepsLedger(db: Db, e: Entry, gifts: seq<Request>)
    requires Ledgered(db, gifts)
    requires e.First? ==>
               WellFormed(e.req) && (e.isNew <==> RecordsEvent(e.req) && !Taken(db, EventKey(EventIdOf(e.req))))
    ensures Ledgered(Replay1(db, e), if e.First? && e.isNew && TestGift(e.req) then gifts + [e.req] else gifts)
  {
    hide Ledgered, Taken, Tx, MarkTx;
    match e
    case First(_, req, isNew) =>
      if isNew && TestGift(req) {
        GiftCommitKeepsLedger(db, req, gifts);
      } else {
        OtherCommitKeepsLedger(db, req, gifts);
      }
    case Second(_, h, outcome) =>
      MarkKeepsLedger(db, h, outcome, gifts);
  }

  lemma NothingIsLedgered()
    ensures Ledgered(Replay([]), RecordedGifts([])) && Gifts(RecordedGifts([]))
  {
  }

  lemma GiftsSnoc(gifts: seq<Request>, g: Request)
    requires Gifts(gifts) && TestGift(g) && g.gift.amountMinor > 0
    ensures Gifts(gifts + [g])
  {
  }

  lemma LedgerStep(log: seq<Entry>, n: nat)
    requires n < |log| && FlagsOk(log) && LogWellFormed(log)
    requires Ledgered(Replay(log[..n]), RecordedGifts(log[..n])) && Gifts(RecordedGifts(log[..n]))
    ensures Ledgered(Replay(log[..n + 1]), RecordedGifts(log[..n + 1])) && Gifts(RecordedGifts(log[..n + 1]))
  {
    var e, db, gifts := log[n], Replay(log[..n]), RecordedGifts(log[..n]);
    hide FlagsOk, LogWellFormed, Ledgered, Taken, Replay1, Replay, RecordedGifts, RecordsEvent, EventIdOf, Gifts;
    FlagAt(log, n);
    ReplayStep(log, n);
    GiftsStep(log, n);
    EntryKeepsLedger(db, e, gifts);
    if e.First? && TestGift(e.req) {
      GiftsSnoc(gifts, e.req);
    }
  }

  lemma {:induction false} LogIsLedgered(log: seq<Entry>, n: nat)
    requires n <= |log| && FlagsOk(log) && LogWellFormed(log)
    ensures Ledgered(Replay(log[..n]), RecordedGifts(log[..n])) && Gifts(RecordedGifts(log[..n]))
  {
    hide *;
    if n > 0 {
      LogIsLedgered(log, n - 1);
      LedgerStep(log, n - 1);
    } else {
      NothingIsLedgered();
      assert log[..0] == [];
    }
  }

  // ---- The test events of a log ----

  /** The test rail's events, in commit order. */
  function TestEvents(events: seq<EventRow>): (r: seq<EventRow>)
    ensures forall e :: e in r <==> e in events && e.provider == Test
  {
    if events == [] then []
    else
      var last := events[|events| - 1];
      TestEvents(events[..|events| - 1]) + if last.provider == Test then [last] else []
  }

  lemma TestEventsSnoc(events: seq<EventRow>, e: EventRow)
    ensures TestEvents(events + [e]) == TestEvents(events) + if e.provider == Test then [e] else []
  {
    assert (events + [e])[..|events|] == events;
  }

  function GiftRows(gifts: seq<Request>): seq<EventRow> {
    seq(|gifts|, i requires 0 <= i < |gifts| => InsertedRow(gifts[i]))
  }

  lemma RowIsTestIff(log: seq<Entry>, e: Entry)
    requires e.First? && WellFormed(e.req) && RecordsEvent(e.req)
    ensures RowOf(log, e.tid, e.req).provider == Test <==> TestGift(e.req)
    ensures TestGift(e.req) ==> RowOf(log, e.tid, e.req) == InsertedRow(e.req)
  {
  }

  lemma GiftRowsSnoc(gifts: seq<Request>, g: Request)
    ensures GiftRows(gifts + [g]) == GiftRows(gifts) + [InsertedRow(g)]
  {
    hide InsertedRow;
  }

  lemma TestEventsStep(log: seq<Entry>, n: nat)
    requires n < |log| && FlagsOk(log) && LogWellFormed(log)
    ensures var e, was := log[n], TestEvents(RowsOf(log, n));
            TestEvents(RowsOf(log, n + 1))
            == if e.First? && e.isNew && TestGift(e.req) then was + [InsertedRow(e.req)] else was
  {
    var e := log[n];
    hide TestEvents, FlagsOk, LogWellFormed, RowOf, InsertedRow, Taken;
    FlagAt(log, n);
    if e.First? && e.isNew {
      RowIsTestIff(log, e);
      TestEventsSnoc(RowsOf(log, n), RowOf(log, e.tid, e.req));
    }
  }

  lemma GiftRowsStep(log: seq<Entry>, n: nat)
    requires n < |log| && FlagsOk(log) && LogWellFormed(log)
    requires TestEvents(RowsOf(log, n)) == GiftRows(RecordedGifts(log[..n]))
    ensures TestEvents(RowsOf(log, n + 1)) == GiftRows(RecordedGifts(log[..n + 1]))
  {
    hide TestEvents, FlagsOk, LogWellFormed, RecordedGifts, GiftRows, InsertedRow, RowsOf, TestGift;
    GiftsStep(log, n);
    TestEventsStep(log, n);
    if log[n].First? {
      GiftRowsSnoc(RecordedGifts(log[..n]), log[n].req);
    }
  }

  lemma NoGiftRows(log: seq<Entry>)
    ensures TestEvents(RowsOf(log, 0)) == GiftRows(RecordedGifts(log[..0]))
  {
    assert log[..0] == [];
  }

  lemma {:induction false} TestEventsOfLog(log: seq<Entry>, n: nat)
    requires n <= |log| && FlagsOk(log) && LogWellFormed(log)
    ensures TestEvents(RowsOf(log, n)) == GiftRows(RecordedGifts(log[..n]))
  {
    hide *;
    if n > 0 {
      TestEventsOfLog(log, n - 1);
      GiftRowsStep(log, n - 1);
    } else {
      NoGiftRows(log);
    }
  }

  // ---- Every run ----

  predicate Matches(e: EventRow, d: DonationRow) {
    && e.provider == Test && d.provider == Test
    && e.payload.Synthetic? && e.payload.eventId == e.providerEventId
    && d.rawPayload == e.payload
    && d.providerPaymentId
       == e.payload.paymentId + (if e.payload.eventType == "payment.succeeded" then "" else "_initial")
  }

  lemma PairMatches(req: Request, donorId: RowId)
    requires TestGift(req)
    ensures Matches(InsertedRow(req), NewDonation(req, donorId))
  {
    var a := "test_pay_" + req.gift.token;
    assert a + "" == a;
    assert "payment.succeeded"[0] == 'p' && "subscription.activated"[0] == 's';
  }

  lemma MatchMeansSamePayment(a: Request, b: Request, donorId: RowId)
    requires TestGift(a) && TestGift(b) && Matches(InsertedRow(a), NewDonation(b, donorId))
    ensures SamePayment(a, b)
  {
    PairMatches(a, donorId);
  }

  /** The test events and the donations, each taken in commit order, match one for one and in
      no other way. */
  ghost predicate OneToOne(tests: seq<EventRow>, donations: seq<DonationRow>) {
    && |tests| == |donations|
    && forall i, k :: 0 <= i < |tests| && 0 <= k < |tests| ==> (Matches(tests[i], donations[k]) <==> i == k)
  }

  lemma SaysIsNew(d: DonationRow, req: Request, donorId: RowId)
    requires !req.Deliver? && DonationSays(d, req, donorId)
    ensures d == NewDonation(req, donorId)
  {
  }

  lemma GiftRowsSay(gifts: seq<Request>)
    requires Gifts(gifts)
    ensures |GiftRows(gifts)| == |gifts|
    ensures forall k :: 0 <= k < |gifts| ==> TestGift(gifts[k]) && GiftEventSays(GiftRows(gifts)[k], gifts[k])
  {
    forall k | 0 <= k < |gifts| ensures TestGift(gifts[k]) && GiftEventSays(GiftRows(gifts)[k], gifts[k]) {
      assert gifts[k] in gifts;
      NewRowsSay(gifts[k], 0);
    }
  }

  lemma PairsMatch(db: Db, gifts: seq<Request>)
    requires Ledgered(db, gifts) && Gifts(gifts) && DistinctTokens(gifts)
    ensures OneToOne(GiftRows(gifts), db.donations)
  {
    NoneDropped(gifts);
    forall i, k | 0 <= i < |gifts| && 0 <= k < |gifts|
      ensures Matches(GiftRows(gifts)[i], db.donations[k]) <==> i == k
    {
      var d := db.donations[k];
      assert RecordsGift(db.donors, d, gifts[k]) && gifts[i] in gifts && gifts[k] in gifts;
      SaysIsNew(d, gifts[k], d.donorId);
      PairMatches(gifts[k], d.donorId);
      if Matches(GiftRows(gifts)[i], d) {
        MatchMeansSamePayment(gifts[i], gifts[k], d.donorId);
        PaymentIdsDetermineTokens(gifts[i], gifts[k]);
      }
    }
  }

  lemma EachHasItsEvent(db: Db, gifts: seq<Request>, d: DonationRow)
    requires Ledgered(db, gifts) && Gifts(gifts) && d in db.donations
    ensures exists e :: e in GiftRows(gifts) && Matches(e, d)
  {
    var k :| 0 <= k < |db.donations| && db.donations[k] == d;
    var g := Firsts(gifts)[k];
    assert RecordsGift(db.donors, d, g);
    FirstsCover(gifts, g);
    assert g in gifts;
    var i :| 0 <= i < |gifts| && gifts[i] == g;
    SaysIsNew(d, g, d.donorId);
    PairMatches(g, d.donorId);
    assert GiftRows(gifts)[i] in GiftRows(gifts);
  }

  /** Atomicity of the test rail.  The test events are those of the gifts that recorded one, each
      processed; every donation's donor, subscription and event are there.  Events and donations
      are in bijection exactly when no two of those gifts drew the same payment token.  Every
      committed gift has both its event and its donation exactly when, besides, none drew the id
      of an event already recorded. */
  lemma TestRailIsAtomic(run: seq<Action>)
    ensures var s, gifts := Exec(run), RecordedGifts(Exec(run).log);
            var tests, given := TestEvents(s.db.events), CommittedGifts(s.log);
            && tests == GiftRows(gifts) && |tests| == |gifts|
            && (forall k :: 0 <= k < |gifts| ==> TestGift(gifts[k]) && GiftEventSays(tests[k], gifts[k]))
            && (forall d :: d in s.db.donations ==> Backed(s.db, d) && exists e :: e in tests && Matches(e, d))
            && (OneToOne(tests, s.db.donations) <==> DistinctTokens(gifts))
            && (OneToOne(tests, s.db.donations) && |tests| == |given| <==> DistinctTokens(given) && FreshEvents(s.log))
  {
    var s, gifts := Exec(run), RecordedGifts(Exec(run).log);
    RunIsLedgered(run);
    LogIsWellFormed(run);
    AllRecordedIff(s.log);
    GiftRowsSay(gifts);
    hide Exec, RecordedGifts, CommittedGifts, Matches, TestEvents, FreshEvents, FlagsOk, LogWellFormed, GiftEventSays;
    forall d | d in s.db.donations ensures Backed(s.db, d) && exists e :: e in GiftRows(gifts) && Matches(e, d) {
      EachHasItsEvent(s.db, gifts, d);
    }
    NoneDropped(gifts);
    if DistinctTokens(gifts) {
      PairsMatch(s.db, gifts);
    }
  }

  lemma RunIsLedgered(run: seq<Action>)
    ensures var s, gifts := Exec(run), RecordedGifts(Exec(run).log);
            Ledgered(s.db, gifts) && Gifts(gifts) && TestEvents(s.db.events) == GiftRows(gifts)
  {
    var log := Exec(run).log;
    LogIsWellFormed(run);
    SerializedByCommitOrder(run);
    TableIsTheCommits(run);
    assert log[..|log|] == log;
    hide Exec;
    LogIsLedgered(log, |log|);
    TestEventsOfLog(log, |log|);
  }

  // ---- Conservation ----

  function GiftTotal(gifts: seq<Request>): int {
    if gifts == [] then 0 else GiftTotal(gifts[..|gifts| - 1]) + GiftAmount(gifts[|gifts| - 1])
  }

  lemma GiftTotalSnoc(gifts: seq<Request>, g: Request)
    ensures GiftTotal(gifts + [g]) == GiftTotal(gifts) + GiftAmount(g)
  {
    assert (gifts + [g])[..|gifts|] == gifts;
  }

  lemma {:induction false} TotalSnoc(ds: seq<DonationRow>, d: DonationRow)
    ensures Deliveries.Total(ds + [d]) == Deliveries.Total(ds) + d.amountMinor
  {
    if ds != [] {
      assert (ds + [d])[1..] == ds[1..] + [d];
      TotalSnoc(ds[1..], d);
    }
  }

  lemma {:induction false} SameTotals(ds: seq<DonationRow>, gifts: seq<Request>)
    requires |ds| == |gifts| && forall k :: 0 <= k < |gifts| ==> ds[k].amountMinor == GiftAmount(gifts[k])
    ensures Deliveries.Total(ds) == GiftTotal(gifts)
  {
    if ds != [] {
      var n := |ds| - 1;
      SameTotals(ds[..n], gifts[..n]);
      TotalSnoc(ds[..n], ds[n]);
      assert ds == ds[..n] + [ds[n]];
    }
  }

  /** What the repeats carry is exactly what is missing. */
  lemma {:induction false} NothingMissingIff(gifts: seq<Request>)
    requires Gifts(gifts)
    ensures GiftTotal(Firsts(gifts)) <= GiftTotal(gifts)
    ensures GiftTotal(Firsts(gifts)) == GiftTotal(gifts) <==> |Firsts(gifts)| == |gifts|
    ensures |Firsts(gifts)| <= |gifts|
  {
    if gifts != [] {
      var front, last := gifts[..|gifts| - 1], gifts[|gifts| - 1];
      assert gifts == front + [last] && last in gifts;
      NothingMissingIff(front);
      GiftTotalSnoc(Firsts(front), last);
      hide SamePayment;
    }
  }

  // ---- Gifts whose event id was taken ----

  predicate RecordsAt(log: seq<Entry>, i: int, id: string) {
    0 <= i < |log| && log[i].First? && RecordsEvent(log[i].req) && EventIdOf(log[i].req) == id
  }

  ghost predicate CarriedBefore(log: seq<Entry>, n: nat, id: string) {
    exists i :: i < n && RecordsAt(log, i, id)
  }

  /** No committed test gift drew the event id of a commit before it. */
  ghost predicate FreshEvents(log: seq<Entry>) {
    forall j :: 0 <= j < |log| && log[j].First? && TestGift(log[j].req) ==>
      !CarriedBefore(log, j, EventIdOf(log[j].req))
  }

  lemma CarriedStep(log: seq<Entry>, n: nat, id: string)
    requires n < |log|
    ensures CarriedBefore(log, n + 1, id)
            <==> CarriedBefore(log, n, id)
                 || (log[n].First? && RecordsEvent(log[n].req) && EventIdOf(log[n].req) == id)
  {
    hide RecordsEvent, EventIdOf;
    if RecordsAt(log, n, id) {
      assert n < n + 1 && RecordsAt(log, n, id);
    }
  }

  /** An event id is taken exactly when some commit before carried it. */
  lemma {:induction false} TakenIffCarried(log: seq<Entry>, n: nat, id: string)
    requires n <= |log|
    ensures Taken(Replay(log[..n]), EventKey(id)) <==> CarriedBefore(log, n, id)
  {
    if n > 0 {
      hide Taken, Replay, CarriedBefore, RecordsEvent, EventIdOf;
      TakenIffCarried(log, n - 1, id);
      TakenStep(log, n - 1, id);
      CarriedStep(log, n - 1, id);
    }
  }

  predicate EachNew(log: seq<Entry>, n: nat)
    requires n <= |log|
  {
    forall i :: 0 <= i < n && log[i].First? && TestGift(log[i].req) ==> log[i].isNew
  }

  lemma FreshIffNew(log: seq<Entry>)
    requires FlagsOk(log) && LogWellFormed(log)
    ensures FreshEvents(log) <==> EachNew(log, |log|)
  {
    forall j | 0 <= j < |log| && log[j].First? && TestGift(log[j].req)
      ensures log[j].isNew <==> !CarriedBefore(log, j, EventIdOf(log[j].req))
    {
      FlagAt(log, j);
      TakenIffCarried(log, j, EventIdOf(log[j].req));
    }
    hide Taken, FlagsOk, LogWellFormed, CarriedBefore, EventIdOf;
  }

  lemma CommittedStep(log: seq<Entry>, n: nat)
    requires n < |log|
    ensures var e, was := log[n], CommittedGifts(log[..n]);
            CommittedGifts(log[..n + 1]) == if e.First? && TestGift(e.req) then was + [e.req] else was
  {
    assert log[..n + 1][..n] == log[..n];
  }

  /** What is missing among the recorded gifts, in number and in amount, is nothing exactly when
      all were new. */
  ghost predicate Among(recorded: seq<Request>, given: seq<Request>, allNew: bool) {
    && |recorded| <= |given| && GiftTotal(recorded) <= GiftTotal(given)
    && (|recorded| == |given| <==> allNew)
    && (GiftTotal(recorded) == GiftTotal(given) <==> allNew)
    && (allNew ==> recorded == given)
  }

  lemma OneMoreAmong(recorded: seq<Request>, given: seq<Request>, allNew: bool, g: Request, isNew: bool)
    requires Among(recorded, given, allNew) && GiftAmount(g) > 0
    ensures Among(if isNew then recorded + [g] else recorded, given + [g], allNew && isNew)
  {
    GiftTotalSnoc(recorded, g);
    GiftTotalSnoc(given, g);
    hide GiftTotal, GiftAmount;
  }

  lemma EachNewStep(log: seq<Entry>, n: nat)
    requires n < |log|
    ensures EachNew(log, n + 1) <==> EachNew(log, n) && (log[n].First? && TestGift(log[n].req) ==> log[n].isNew)
  {
  }

  lemma AmountIsPositive(log: seq<Entry>, n: nat)
    requires n < |log| && LogWellFormed(log)
    ensures log[n].First? && TestGift(log[n].req) ==> GiftAmount(log[n].req) > 0
  {
    assert log[n].First? ==> WellFormed(log[n].req);
  }

  lemma AmongStep(log: seq<Entry>, n: nat)
    requires n < |log| && LogWellFormed(log)
    requires Among(RecordedGifts(log[..n]), CommittedGifts(log[..n]), EachNew(log, n))
    ensures Among(RecordedGifts(log[..n + 1]), CommittedGifts(log[..n + 1]), EachNew(log, n + 1))
  {
    hide RecordedGifts, CommittedGifts, Among, EachNew, LogWellFormed, TestGift, GiftAmount;
    AmountIsPositive(log, n);
    GiftsStep(log, n);
    CommittedStep(log, n);
    EachNewStep(log, n);
    var e := log[n];
    if e.First? && TestGift(e.req) {
      OneMoreAmong(RecordedGifts(log[..n]), CommittedGifts(log[..n]), EachNew(log, n), e.req, e.isNew);
    }
  }

  lemma {:induction false} RecordedAmong(log: seq<Entry>, n: nat)
    requires n <= |log| && LogWellFormed(log)
    ensures Among(RecordedGifts(log[..n]), CommittedGifts(log[..n]), EachNew(log, n))
  {
    if n > 0 {
      hide *;
      RecordedAmong(log, n - 1);
      AmongStep(log, n - 1);
    } else {
      NoneAmongNone();
      assert log[..0] == [];
    }
  }

  lemma NoneAmongNone()
    ensures Among(RecordedGifts([]), CommittedGifts([]), true)
  {
  }

  lemma AllRecordedIff(log: seq<Entry>)
    requires FlagsOk(log) && LogWellFormed(log)
    ensures Among(RecordedGifts(log), CommittedGifts(log), FreshEvents(log))
  {
    assert log[..|log|] == log;
    hide *;
    RecordedAmong(log, |log|);
    FreshIffNew(log);
  }

  /** Conservation: the donations are, in order, exactly those asked for by the gifts that
      recorded an event, each with its donor.  They never add up to more than was given, and to
      exactly what was given when and only when no two committed gifts drew the same payment
      token and none drew the id of an event already recorded. */
  lemma DonationsAreTheGifts(run: seq<Action>)
    ensures var s, gifts, given := Exec(run), RecordedGifts(Exec(run).log), CommittedGifts(Exec(run).log);
            && Ledgered(s.db, gifts)
            && Deliveries.Total(s.db.donations) == GiftTotal(Firsts(gifts)) <= GiftTotal(given)
            && (Deliveries.Total(s.db.donations) == GiftTotal(given) <==> DistinctTokens(given) && FreshEvents(s.log))
  {
    var s, gifts := Exec(run), RecordedGifts(Exec(run).log);
    RunIsLedgered(run);
    LogIsWellFormed(run);
    AllRecordedIff(s.log);
    hide Exec, RecordedGifts, CommittedGifts, TestEvents, FreshEvents, FlagsOk, LogWellFormed;
    forall k | 0 <= k < |s.db.donations| ensures s.db.donations[k].amountMinor == GiftAmount(Firsts(gifts)[k]) {
      RecordPays(s.db.donors, s.db.donations[k], Firsts(gifts)[k]);
    }
    SameTotals(s.db.donations, Firsts(gifts));
    NothingMissingIff(gifts);
    NoneDropped(gifts);
  }

  // ---- Inputs on which a gift leaves no donation ----

  /** A gift whose event id is taken leaves the events and the donations as they were. */
  lemma TakenEventIdLeavesNothing(db: Db, b: Request)
    requires TestGift(b) && Taken(db, EventKey(EventIdOf(b)))
    ensures Tx(db, b).events == db.events && Tx(db, b).donations == db.donations
    ensures b.Monthly? ==> |Tx(db, b).subs| == |db.subs| + 1 && Tx(db, b).subs[|db.subs|].status == Active
                           && Tx(db, b).subs[|db.subs|].id == b.gift.subRow
    ensures SubFree(db, b) ==> Finishes(db, b, false, false)
  {
    GiftDonations(db, b);
    TxEvents(db, b);
    GiftTables(db, b);
    hide Tx, Taken, NewDonation, SubFree;
  }

  lemma FirstGift(a: Request)
    requires TestGift(a)
    ensures Finishes(EMPTY, a, false, false)
    ensures |Tx(EMPTY, a).donations| == 1 && Tx(EMPTY, a).donations[0].providerPaymentId == PaymentIdOf(a)
    ensures Tx(EMPTY, a).events == [InsertedRow(a)] && Taken(Tx(EMPTY, a), EventKey(EventIdOf(a)))
  {
    GiftDonations(EMPTY, a);
    TxEvents(EMPTY, a);
    hide Tx, WithDonor, PaymentIdOf;
    assert InsertedRow(a) in [InsertedRow(a)];
  }

  /** The second of two gifts with the same event id is accepted and leaves neither an event nor a
      donation, though their payment tokens differ; a monthly one leaves an active subscription
      without its first donation. */
  lemma RepeatedEventIdLosesTheGift(a: Request, b: Request)
    requires TestGift(a) && TestGift(b) && EventIdOf(a) == EventIdOf(b) && !SameToken(a, b)
    ensures var db1 := Tx(EMPTY, a);
            var db2 := Tx(db1, b);
            && Finishes(EMPTY, a, false, false) && Finishes(db1, b, false, false)
            && |db1.donations| == 1 && db2.donations == db1.donations && db2.events == db1.events
            && (b.Monthly? ==> |db2.subs| == |db1.subs| + 1 && db2.subs[|db1.subs|].status == Active
                               && db2.subs[|db1.subs|].id == b.gift.subRow)
  {
    hide Tx, Taken, Finishes, SubFree, InsertedRow, EventIdOf;
    FirstGift(a);
    FreeForOther(a, b);
    TakenEventIdLeavesNothing(Tx(EMPTY, a), b);
  }

  lemma FreeForOther(a: Request, b: Request)
    requires TestGift(a) && TestGift(b) && !SameToken(a, b)
    ensures SubFree(Tx(EMPTY, a), b)
  {
    GiftTables(EMPTY, a);
    SubIdsDetermineTokens(a.gift, b.gift);
    hide Tx, ProviderSubId;
  }

  lemma SubIdsDetermineTokens(a: Gift, b: Gift)
    requires a.rail == Test && b.rail == Test
    ensures ProviderSubId(a) == ProviderSubId(b) ==> a.token == b.token
  {
    assert ProviderSubId(a)[9..] == a.token && ProviderSubId(b)[9..] == b.token;
  }

  /** The second of two one-off gifts with the same payment token is accepted and leaves an event
      without a donation. */
  lemma RepeatedTokenLosesTheGift(a: Request, b: Request)
    requires TestGift(a) && TestGift(b) && a.OneOff? && SameToken(a, b) && EventIdOf(a) != EventIdOf(b)
    ensures var db1 := Tx(EMPTY, a);
            var db2 := Tx(db1, b);
            && Finishes(EMPTY, a, false, false) && Finishes(db1, b, false, false)
            && |db1.donations| == 1 && db2.donations == db1.donations && |db2.events| == 2
  {
    var db1 := Tx(EMPTY, a);
    assert PaymentIdOf(a) == PaymentIdOf(b);
    hide Tx, NewDonation, PaymentIdOf, WithDonor, InsertedRow;
    FirstGift(a);
    GiftDonations(db1, b);
    TxEvents(db1, b);
    assert db1.donations[0] in db1.donations;
    assert InsertedRow(a).providerEventId == EventIdOf(a) by {
      RowBody([], 0, a);
    }
  }
}
