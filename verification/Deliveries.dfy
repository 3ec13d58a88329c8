/** Deliveries taken one at a time: which rows a list of them leaves, and why neither their
    order nor their repetition matters. */
module Deliveries {
  import opened Options
  import opened Tables
  import opened Ledger

  // ---- Webhook calls ----

  function HandleAll(calls: seq<HookCall>): Db {
    if calls == [] then EMPTY
    else HandleTx(HandleAll(calls[..|calls| - 1]), calls[|calls| - 1])
  }

  predicate Accepted(c: HookCall) {
    c.available && c.verified && c.parsed
  }

  /** Call `i` is the first verified delivery of its event id. */
  predicate FirstOfItsId(calls: seq<HookCall>, i: int) {
    && 0 <= i < |calls| && Accepted(calls[i])
    && forall j :: 0 <= j < i && Accepted(calls[j]) ==> calls[j].hook.eventId != calls[i].hook.eventId
  }

  /** The row such a call leaves behind. */
  function RowLeft(c: HookCall): EventRow {
    var row := NewEvent(Deliver(c.hook));
    if c.ending.CrashesBetweenCommits? then row else MarkWith(row, c.ending.outcome, c.hook.markNow)
  }

  function FirstRows(calls: seq<HookCall>, n: nat): seq<EventRow>
    requires n <= |calls|
  {
    if n == 0 then []
    else if FirstOfItsId(calls, n - 1) then FirstRows(calls, n - 1) + [RowLeft(calls[n - 1])]
    else FirstRows(calls, n - 1)
  }

  lemma {:induction false} FirstRowsIds(calls: seq<HookCall>, n: nat, id: string)
    requires n <= |calls|
    ensures (exists r :: r in FirstRows(calls, n) && r.providerEventId == id)
            <==> exists i :: 0 <= i < n && Accepted(calls[i]) && calls[i].hook.eventId == id
  {
    if n > 0 {
      FirstRowsIds(calls, n - 1, id);
      var c := calls[n - 1];
      assert RowLeft(c).providerEventId == c.hook.eventId;
      if FirstOfItsId(calls, n - 1) {
        assert RowLeft(c) in FirstRows(calls, n);
      } else if Accepted(c) && c.hook.eventId == id {
        var j :| 0 <= j < n - 1 && Accepted(calls[j]) && calls[j].hook.eventId == id;
      }
    }
  }

  lemma {:induction false} HandledPrefix(calls: seq<HookCall>, n: nat)
    requires n <= |calls|
    ensures HandleAll(calls[..n]) == EMPTY.(events := FirstRows(calls, n))
  {
    if n > 0 {
      HandledPrefix(calls, n - 1);
      assert calls[..n][..n - 1] == calls[..n - 1];
      var c := calls[n - 1];
      var rows := FirstRows(calls, n - 1);
      FirstRowsIds(calls, n - 1, c.hook.eventId);
      if FirstOfItsId(calls, n - 1) {
        assert FindEvent(rows, c.hook.eventId).None?;
        if c.ending.Completes? {
          var mark := Mark(c.hook.eventId, c.ending.outcome, c.hook.markNow);
          MarkOnNew(rows, NewEvent(Deliver(c.hook)), mark);
        }
      }
    }
  }

  /** The first verified deliveries among the first `n` calls, in order. */
  function FirstCalls(calls: seq<HookCall>, n: nat): seq<HookCall>
    requires n <= |calls|
  {
    if n == 0 then []
    else if FirstOfItsId(calls, n - 1) then FirstCalls(calls, n - 1) + [calls[n - 1]]
    else FirstCalls(calls, n - 1)
  }

  lemma RowLeftSays(c: HookCall)
    ensures HookSays(RowLeft(c), c.hook) && EndsAs(RowLeft(c), c.hook, c.ending)
  {
  }

  lemma {:induction false} FirstRowsSay(calls: seq<HookCall>, n: nat)
    requires n <= |calls|
    ensures var rows, firsts := FirstRows(calls, n), FirstCalls(calls, n);
            |rows| == |firsts| && forall k :: 0 <= k < |rows| ==>
                HookSays(rows[k], firsts[k].hook) && EndsAs(rows[k], firsts[k].hook, firsts[k].ending)
  {
    if n > 0 {
      FirstRowsSay(calls, n - 1);
      RowLeftSays(calls[n - 1]);
      hide HookSays, EndsAs, FirstOfItsId, RowLeft;
    }
  }

  /** Sequential refinement: completed or crashed, any list of webhook calls leaves exactly one row
      for the first verified delivery of each id, in order, saying what that delivery said and
      how it ended, and no other row anywhere. */
  lemma TableIsFirstDeliveries(calls: seq<HookCall>)
    ensures HandleAll(calls) == EMPTY.(events := FirstRows(calls, |calls|))
    ensures var rows, firsts := HandleAll(calls).events, FirstCalls(calls, |calls|);
            |rows| == |firsts| && forall k :: 0 <= k < |rows| ==>
                HookSays(rows[k], firsts[k].hook) && EndsAs(rows[k], firsts[k].hook, firsts[k].ending)
  {
    HandledPrefix(calls, |calls|);
    FirstRowsSay(calls, |calls|);
    assert calls[..|calls|] == calls;
  }

  lemma {:induction false} FirstRowsLookup(calls: seq<HookCall>, i: nat, n: nat)
    requires i < n <= |calls| && FirstOfItsId(calls, i)
    ensures FindEvent(FirstRows(calls, n), calls[i].hook.eventId) == Some(RowLeft(calls[i]))
    decreases n
  {
    var id := calls[i].hook.eventId;
    var last := RowLeft(calls[n - 1]);
    FindEventAppend(FirstRows(calls, n - 1), last, id);
    if i < n - 1 {
      FirstRowsLookup(calls, i, n - 1);
    } else {
      FirstRowsIds(calls, i, id);
      assert FindEvent(FirstRows(calls, i), id).None?;
    }
  }

  /** Processing is at most once, and happens at all exactly when the first verified delivery
      did not crash between its two commits: no retry ever makes up for it. */
  lemma ProcessedIffFirstCompletes(calls: seq<HookCall>, i: nat)
    requires FirstOfItsId(calls, i)
    ensures var row := FindEvent(HandleAll(calls).events, calls[i].hook.eventId);
            && row == Some(RowLeft(calls[i]))
            && HookSays(row.value, calls[i].hook) && EndsAs(row.value, calls[i].hook, calls[i].ending)
            && (row.value.attempts == 0 <==> calls[i].ending.CrashesBetweenCommits?)
            && (row.value.status == Received <==> calls[i].ending.CrashesBetweenCommits?)
  {
    TableIsFirstDeliveries(calls);
    FirstRowsLookup(calls, i, |calls|);
    RowLeftSays(calls[i]);
  }

  // ---- What a row says, apart from row ids and clocks ----

  datatype EventBody = EventBody(rail: Rail, eventId: string, eventType: string, payload: Payload, signatureValid: bool)

  function EventBodyOf(e: EventRow): EventBody {
    EventBody(e.provider, e.providerEventId, e.eventType, e.payload, e.signatureValid)
  }

  function EventBodies(events: seq<EventRow>): seq<EventBody> {
    seq(|events|, i requires 0 <= i < |events| => EventBodyOf(events[i]))
  }

  ghost predicate SameElements<T(!new)>(a: seq<T>, b: seq<T>) {
    forall x :: x in a <==> x in b
  }

  // ---- Order and repetition of webhook calls ----

  /** The body a delivery carries. */
  function HookBody(h: Hook): EventBody {
    EventBody(h.rail, h.eventId, h.eventType, Raw(h.body), h.signatureValid)
  }

  /** The bodies of the accepted calls, repeats included. */
  function Delivered(calls: seq<HookCall>): seq<EventBody> {
    if calls == [] then []
    else
      var front, c := Delivered(calls[..|calls| - 1]), calls[|calls| - 1];
      if Accepted(c) then front + [HookBody(c.hook)] else front
  }

  /** Each event id always carries the same body. */
  ghost predicate OneBodyPerId(bodies: seq<EventBody>) {
    forall b, c :: b in bodies && c in bodies && b.eventId == c.eventId ==> b == c
  }

  /** What the table holds is what was delivered, each id once. */
  lemma {:induction false} HandledBodies(calls: seq<HookCall>)
    requires OneBodyPerId(Delivered(calls))
    ensures DistinctEvents(HandleAll(calls).events)
    ensures SameElements(EventBodies(HandleAll(calls).events), Delivered(calls))
  {
    if calls != [] {
      var before, c := calls[..|calls| - 1], calls[|calls| - 1];
      assert forall b :: b in Delivered(before) ==> b in Delivered(calls);
      HandledBodies(before);
      if Accepted(c) {
        HandledOneMore(HandleAll(before), Delivered(before), c);
      }
    }
  }

  lemma HandleAppends(db: Db, c: HookCall)
    requires Accepted(c)
    ensures HandleTx(db, c).events
            == if FindEvent(db.events, c.hook.eventId).Some? then db.events else db.events + [RowLeft(c)]
  {
    if FindEvent(db.events, c.hook.eventId).None? && c.ending.Completes? {
      MarkOnNew(
        db.events, NewEvent(Deliver(c.hook)), Mark(c.hook.eventId, c.ending.outcome, c.hook.markNow));
    }
  }

  lemma BodiesSnoc(events: seq<EventRow>, e: EventRow)
    ensures EventBodies(events + [e]) == EventBodies(events) + [EventBodyOf(e)]
  {
  }

  lemma StoredBody(events: seq<EventRow>, bodies: seq<EventBody>, body: EventBody)
    requires SameElements(EventBodies(events), bodies) && OneBodyPerId(bodies + [body])
    requires FindEvent(events, body.eventId).Some?
    ensures body in bodies
  {
    var found := FindEvent(events, body.eventId).value;
    var i :| 0 <= i < |events| && events[i] == found;
    var stored := EventBodies(events)[i];
    assert stored in bodies && stored in bodies + [body] && body in bodies + [body];
    assert stored.eventId == body.eventId;
  }

  lemma StillDistinct(events: seq<EventRow>, e: EventRow)
    requires DistinctEvents(events) && FindEvent(events, e.providerEventId).None?
    ensures DistinctEvents(events + [e])
  {
    assert forall i :: 0 <= i < |events| ==> events[i] in events;
  }

  lemma HandledOneMore(db: Db, bodies: seq<EventBody>, c: HookCall)
    requires Accepted(c) && DistinctEvents(db.events) && SameElements(EventBodies(db.events), bodies)
    requires OneBodyPerId(bodies + [HookBody(c.hook)])
    ensures DistinctEvents(HandleTx(db, c).events)
    ensures SameElements(EventBodies(HandleTx(db, c).events), bodies + [HookBody(c.hook)])
  {
    var row := RowLeft(c);
    HandleAppends(db, c);
    assert row.providerEventId == c.hook.eventId && EventBodyOf(row) == HookBody(c.hook) by {
      RowLeftSays(c);
    }
    hide HandleTx, RowLeft, EventBodies, OneBodyPerId, DistinctEvents, FindEvent, Accepted;
    BodiesSnoc(db.events, row);
    if FindEvent(db.events, c.hook.eventId).Some? {
      StoredBody(db.events, bodies, HookBody(c.hook));
    } else {
      StillDistinct(db.events, row);
    }
  }

  /** Two lists of calls that deliver the same bodies, in whatever order, at whatever times and
      however often each, leave the same events. */
  lemma CallOrderDoesNotMatter(calls: seq<HookCall>, others: seq<HookCall>)
    requires OneBodyPerId(Delivered(calls)) && SameElements(Delivered(calls), Delivered(others))
    ensures SameElements(EventBodies(HandleAll(calls).events), EventBodies(HandleAll(others).events))
    ensures |HandleAll(calls).events| == |HandleAll(others).events|
  {
    HandledBodies(calls);
    HandledBodies(others);
    SameSize(EventBodies(HandleAll(calls).events), EventBodies(HandleAll(others).events));
  }

  // ---- The two idempotent writers together ----

  /** One confirmed payment: an event and the donation it announces. */
  datatype Payment = Payment(event: EventRow, donation: DonationRow)

  function Accept(db: Db, p: Payment): Db {
    var (db1, isNew) := WithEvent(db, p.event);
    if isNew then WithDonation(db1, p.donation) else db1
  }

  function AcceptAll(ps: seq<Payment>): Db {
    if ps == [] then EMPTY else Accept(AcceptAll(ps[..|ps| - 1]), ps[|ps| - 1])
  }

  lemma AcceptStep(ps: seq<Payment>)
    requires ps != []
    ensures var db, out, p := AcceptAll(ps[..|ps| - 1]), AcceptAll(ps), ps[|ps| - 1];
            var known := FindEvent(db.events, p.event.providerEventId).Some?;
            var paid := FindDonation(db.donations, p.donation.providerPaymentId).Some?;
            && out.events == (if known then db.events else db.events + [p.event])
            && out.donations == (if known || paid then db.donations else db.donations + [p.donation])
  {
    hide FindEvent, FindDonation;
  }

  /** What donations are compared by: their payment ids and amounts at least. */
  type View<B> = DonationRow -> B

  ghost predicate Discerning<B>(f: View<B>) {
    forall d, e :: f(d) == f(e) ==> d.providerPaymentId == e.providerPaymentId && d.amountMinor == e.amountMinor
  }

  function Images<B>(donations: seq<DonationRow>, f: View<B>): seq<B> {
    seq(|donations|, i requires 0 <= i < |donations| => f(donations[i]))
  }

  datatype PaymentBody<B> = PaymentBody(event: EventBody, donation: B)

  function PaymentBodies<B>(ps: seq<Payment>, f: View<B>): seq<PaymentBody<B>> {
    seq(|ps|, i requires 0 <= i < |ps| => PaymentBody(EventBodyOf(ps[i].event), f(ps[i].donation)))
  }

  /** Each event id always carries the same body. */
  ghost predicate EventsAgree(ps: seq<Payment>) {
    forall p, q :: p in ps && q in ps && p.event.providerEventId == q.event.providerEventId ==>
      EventBodyOf(p.event) == EventBodyOf(q.event)
  }

  /** Each event id and each payment id always announces the same donation, as far as `f` sees;
      row ids and clock readings may differ from one delivery to the next. */
  ghost predicate DonationsAgree<B>(ps: seq<Payment>, f: View<B>) {
    && (forall p, q :: p in ps && q in ps && p.event.providerEventId == q.event.providerEventId ==>
          f(p.donation) == f(q.donation))
    && (forall p, q :: p in ps && q in ps && p.donation.providerPaymentId == q.donation.providerPaymentId ==>
          f(p.donation) == f(q.donation))
  }

  ghost predicate Carries(ps: seq<Payment>, b: EventBody) {
    exists p :: p in ps && EventBodyOf(p.event) == b
  }

  ghost predicate HoldsEvents(events: seq<EventRow>, ps: seq<Payment>) {
    && DistinctEvents(events)
    && forall b :: b in EventBodies(events) <==> Carries(ps, b)
  }

  lemma CarriesSnoc(ps: seq<Payment>, p: Payment, b: EventBody)
    ensures Carries(ps + [p], b) <==> Carries(ps, b) || b == EventBodyOf(p.event)
  {
    var all := ps + [p];
    assert p in all;
    if Carries(ps, b) {
      var x :| x in ps && EventBodyOf(x.event) == b;
      assert x in all;
    }
  }

  ghost predicate Announces<B>(ps: seq<Payment>, f: View<B>, b: B) {
    exists p :: p in ps && f(p.donation) == b
  }

  ghost predicate HoldsDonations<B(!new)>(donations: seq<DonationRow>, ps: seq<Payment>, f: View<B>) {
    && DistinctDonations(donations)
    && forall b :: b in Images(donations, f) <==> Announces(ps, f, b)
  }

  lemma KnownBody(events: seq<EventRow>, ps: seq<Payment>, p: Payment)
    requires HoldsEvents(events, ps) && EventsAgree(ps + [p])
    requires FindEvent(events, p.event.providerEventId).Some?
    ensures Carries(ps, EventBodyOf(p.event))
  {
    var found := FindEvent(events, p.event.providerEventId).value;
    var i :| 0 <= i < |events| && events[i] == found;
    assert EventBodies(events)[i] in EventBodies(events);
    assert Carries(ps, EventBodyOf(found));
    var q :| q in ps && EventBodyOf(q.event) == EventBodyOf(found);
    assert q in ps + [p] && p in ps + [p];
    assert q.event.providerEventId == p.event.providerEventId;
  }

  lemma OneMoreEvent(events: seq<EventRow>, ps: seq<Payment>, p: Payment)
    requires HoldsEvents(events, ps) && EventsAgree(ps + [p])
    ensures HoldsEvents(
              if FindEvent(events, p.event.providerEventId).Some? then events else events + [p.event], ps + [p])
  {
    var body := EventBodyOf(p.event);
    forall b ensures Carries(ps + [p], b) <==> Carries(ps, b) || b == body {
      CarriesSnoc(ps, p, b);
    }
    if FindEvent(events, p.event.providerEventId).Some? {
      KnownBody(events, ps, p);
      hide Carries, EventsAgree, FindEvent;
    } else {
      StillDistinct(events, p.event);
      BodiesSnoc(events, p.event);
      hide Carries, EventsAgree, FindEvent, EventBodies, DistinctEvents;
    }
  }

  /** Every event delivered is stored once, and nothing else is. */
  lemma {:induction false} AcceptedEvents(ps: seq<Payment>)
    requires EventsAgree(ps)
    ensures HoldsEvents(AcceptAll(ps).events, ps)
  {
    if ps != [] {
      var before, p := ps[..|ps| - 1], ps[|ps| - 1];
      assert ps == before + [p];
      assert forall q :: q in before ==> q in ps;
      AcceptStep(ps);
      AcceptedEvents(before);
      hide AcceptAll, FindEvent, HoldsEvents, EventsAgree;
      OneMoreEvent(AcceptAll(before).events, before, p);
    }
  }

  lemma RepeatedDonation<B(!new)>(donations: seq<DonationRow>, ps: seq<Payment>, p: Payment, q: Payment, f: View<B>)
    requires HoldsDonations(donations, ps, f) && q in ps && f(q.donation) == f(p.donation)
    ensures HoldsDonations(donations, ps + [p], f)
  {
    var all := ps + [p];
    forall b ensures Announces(all, f, b) <==> Announces(ps, f, b) {
      if Announces(all, f, b) {
        var x :| x in all && f(x.donation) == b;
        assert x in ps || f(q.donation) == b;
      }
      if Announces(ps, f, b) {
        var x :| x in ps && f(x.donation) == b;
        assert x in all;
      }
    }
  }

  lemma OneMoreDonation<B(!new)>(donations: seq<DonationRow>, ps: seq<Payment>, p: Payment, f: View<B>)
    requires HoldsDonations(donations, ps, f) && DonationsAgree(ps + [p], f) && Discerning(f)
    ensures HoldsDonations(
              if FindDonation(donations, p.donation.providerPaymentId).Some? then donations
              else donations + [p.donation],
              ps + [p], f)
  {
    var all, found := ps + [p], FindDonation(donations, p.donation.providerPaymentId);
    assert p in all && forall q :: q in ps ==> q in all;
    if found.Some? {
      assert found.value in donations;
      var i :| 0 <= i < |donations| && donations[i] == found.value;
      assert Images(donations, f)[i] in Images(donations, f);
      var q :| q in ps && f(q.donation) == f(found.value);
      RepeatedDonation(donations, ps, p, q, f);
    } else {
      assert forall i :: 0 <= i < |donations| ==> donations[i] in donations;
      assert Images(donations + [p.donation], f) == Images(donations, f) + [f(p.donation)];
    }
  }

  /** Every donation announced is stored once per payment id, and nothing else is. */
  lemma {:induction false} AcceptedDonations<B(!new)>(ps: seq<Payment>, f: View<B>)
    requires DonationsAgree(ps, f) && Discerning(f)
    ensures HoldsDonations(AcceptAll(ps).donations, ps, f)
  {
    if ps != [] {
      var before, p := ps[..|ps| - 1], ps[|ps| - 1];
      assert ps == before + [p] && p in ps;
      assert forall q :: q in before ==> q in ps;
      AcceptedDonations(before, f);
      KnownIffDelivered(before, p.event.providerEventId);
      AcceptStep(ps);
      var db := AcceptAll(before);
      if FindEvent(db.events, p.event.providerEventId).Some? {
        var j :| 0 <= j < |before| && before[j].event.providerEventId == p.event.providerEventId;
        assert before[j] in ps && f(before[j].donation) == f(p.donation);
        hide AcceptAll, FindEvent, FindDonation, HoldsDonations, DonationsAgree;
        RepeatedDonation(db.donations, before, p, before[j], f);
      } else {
        hide AcceptAll, FindEvent, FindDonation, HoldsDonations, DonationsAgree;
        OneMoreDonation(db.donations, before, p, f);
      }
    }
  }

  // ---- Totals ----

  function Total(ds: seq<DonationRow>): int {
    if ds == [] then 0 else ds[0].amountMinor + Total(ds[1..])
  }

  datatype Paid = Paid(paymentId: string, amountMinor: int)

  function PaidOf(d: DonationRow): Paid {
    Paid(d.providerPaymentId, d.amountMinor)
  }

  function Sum(ps: seq<Paid>): int {
    if ps == [] then 0 else ps[0].amountMinor + Sum(ps[1..])
  }

  lemma {:induction false} TotalIsSum(ds: seq<DonationRow>)
    ensures Total(ds) == Sum(Images(ds, PaidOf))
  {
    if ds != [] {
      assert Images(ds, PaidOf)[1..] == Images(ds[1..], PaidOf);
      TotalIsSum(ds[1..]);
    }
  }

  ghost predicate NoRepeats<T>(s: seq<T>) {
    forall i, j :: 0 <= i < j < |s| ==> s[i] != s[j]
  }

  lemma {:induction false} SumWithout(ps: seq<Paid>, i: nat)
    requires i < |ps|
    ensures Sum(ps) == ps[i].amountMinor + Sum(ps[..i] + ps[i + 1..])
  {
    if i == 0 {
      assert ps[..0] + ps[1..] == ps[1..];
    } else {
      SumWithout(ps[1..], i - 1);
      var rest := ps[..i] + ps[i + 1..];
      assert rest[1..] == ps[1..][..i - 1] + ps[1..][i..];
    }
  }

  /** Dropping the one element both lists have leaves lists of the same elements. */
  lemma SameRest<T(!new)>(a: seq<T>, b: seq<T>, i: nat)
    requires NoRepeats(a) && NoRepeats(b) && SameElements(a, b)
    requires a != [] && i < |b| && b[i] == a[0]
    ensures var rest := b[..i] + b[i + 1..]; NoRepeats(rest) && SameElements(a[1..], rest)
  {
    var rest := b[..i] + b[i + 1..];
    forall d | d in a[1..] ensures d in rest {
      var k :| 1 <= k < |a| && a[k] == d;
      assert d in a;
      var j :| 0 <= j < |b| && b[j] == d;
      assert if j < i then rest[j] == d else rest[j - 1] == d;
    }
    forall d | d in rest ensures d in a[1..] {
      var j :| 0 <= j < |b| && j != i && b[j] == d;
      assert d in b;
      var k :| 0 <= k < |a| && a[k] == d;
      assert a[1..][k - 1] == d;
    }
  }

  lemma HeadIsMember<T>(s: seq<T>)
    ensures s == [] || s[0] in s
  {
  }

  /** Two lists without repeats and with the same elements are equally long. */
  lemma {:induction false} SameSize<T(!new)>(a: seq<T>, b: seq<T>)
    requires NoRepeats(a) && NoRepeats(b) && SameElements(a, b)
    ensures |a| == |b|
  {
    HeadIsMember(a);
    HeadIsMember(b);
    if a != [] {
      var i :| 0 <= i < |b| && b[i] == a[0];
      SameRest(a, b, i);
      SameSize(a[1..], b[..i] + b[i + 1..]);
    }
  }

  /** And so have the same sum. */
  lemma {:induction false} SamePaidSameSum(a: seq<Paid>, b: seq<Paid>)
    requires NoRepeats(a) && NoRepeats(b) && SameElements(a, b)
    ensures Sum(a) == Sum(b)
  {
    HeadIsMember(a);
    HeadIsMember(b);
    if a != [] {
      var i :| 0 <= i < |b| && b[i] == a[0];
      SumWithout(b, i);
      SameRest(a, b, i);
      SamePaidSameSum(a[1..], b[..i] + b[i + 1..]);
    }
  }

  lemma SamePaid<B(!new)>(a: seq<DonationRow>, b: seq<DonationRow>, f: View<B>)
    requires Discerning(f)
    requires forall x :: x in Images(a, f) ==> x in Images(b, f)
    ensures forall x :: x in Images(a, PaidOf) ==> x in Images(b, PaidOf)
  {
    forall x | x in Images(a, PaidOf) ensures x in Images(b, PaidOf) {
      var i :| 0 <= i < |a| && PaidOf(a[i]) == x;
      assert Images(a, f)[i] == f(a[i]);
      assert f(a[i]) in Images(b, f);
      var j :| 0 <= j < |b| && f(b[j]) == f(a[i]);
      assert PaidOf(b[j]) == PaidOf(a[i]);
      assert Images(b, PaidOf)[j] == PaidOf(b[j]);
    }
  }

  lemma BodiesToPayments<B(!new)>(ps: seq<Payment>, qs: seq<Payment>, f: View<B>)
    requires forall b :: b in PaymentBodies(ps, f) ==> b in PaymentBodies(qs, f)
    ensures forall p :: p in ps ==>
              exists q :: q in qs && EventBodyOf(q.event) == EventBodyOf(p.event) && f(q.donation) == f(p.donation)
  {
    forall p | p in ps
      ensures exists q :: q in qs && EventBodyOf(q.event) == EventBodyOf(p.event) && f(q.donation) == f(p.donation)
    {
      var i :| 0 <= i < |ps| && ps[i] == p;
      var body := PaymentBodies(ps, f)[i];
      assert body in PaymentBodies(qs, f);
      var j :| 0 <= j < |qs| && PaymentBodies(qs, f)[j] == body;
      assert qs[j] in qs;
    }
  }

  /** Lists with the same bodies agree among themselves together. */
  lemma AgreeAlike<B(!new)>(ps: seq<Payment>, qs: seq<Payment>, f: View<B>)
    requires EventsAgree(ps) && DonationsAgree(ps, f) && Discerning(f)
    requires SameElements(PaymentBodies(ps, f), PaymentBodies(qs, f))
    ensures EventsAgree(qs) && DonationsAgree(qs, f)
  {
    BodiesToPayments(qs, ps, f);
  }

  lemma SameHoldings<B(!new)>(ps: seq<Payment>, qs: seq<Payment>, f: View<B>)
    requires HoldsEvents(AcceptAll(ps).events, ps) && HoldsEvents(AcceptAll(qs).events, qs)
    requires HoldsDonations(AcceptAll(ps).donations, ps, f) && HoldsDonations(AcceptAll(qs).donations, qs, f)
    requires SameElements(PaymentBodies(ps, f), PaymentBodies(qs, f))
    ensures SameElements(EventBodies(AcceptAll(ps).events), EventBodies(AcceptAll(qs).events))
    ensures SameElements(Images(AcceptAll(ps).donations, f), Images(AcceptAll(qs).donations, f))
  {
    BodiesToPayments(ps, qs, f);
    BodiesToPayments(qs, ps, f);
    hide AcceptAll, PaymentBodies;
  }

  /** Order and repetition do not matter: two lists announcing the same payments, in whatever
      order, at whatever times and however often each, leave the same events, the same
      donations, as many of each, and the same total. */
  lemma OrderAndRepetitionDoNotMatter<B(!new)>(ps: seq<Payment>, qs: seq<Payment>, f: View<B>)
    requires EventsAgree(ps) && DonationsAgree(ps, f) && Discerning(f)
    requires SameElements(PaymentBodies(ps, f), PaymentBodies(qs, f))
    ensures var a, b := AcceptAll(ps), AcceptAll(qs);
            && SameElements(EventBodies(a.events), EventBodies(b.events)) && |a.events| == |b.events|
            && SameElements(Images(a.donations, f), Images(b.donations, f))
            && |a.donations| == |b.donations| && Total(a.donations) == Total(b.donations)
  {
    AgreeAlike(ps, qs, f);
    AcceptedEvents(ps);
    AcceptedEvents(qs);
    AcceptedDonations(ps, f);
    AcceptedDonations(qs, f);
    SameHoldings(ps, qs, f);
    var a, b := AcceptAll(ps), AcceptAll(qs);
    hide AcceptAll, EventsAgree, DonationsAgree, PaymentBodies, Discerning;
    SameSize(EventBodies(a.events), EventBodies(b.events));
    SamePaid(a.donations, b.donations, f);
    SamePaid(b.donations, a.donations, f);
    SameTotals(a.donations, b.donations);
  }

  lemma ImagesDiffer<B>(a: seq<DonationRow>, f: View<B>)
    requires DistinctDonations(a) && Discerning(f)
    ensures NoRepeats(Images(a, f)) && |Images(a, f)| == |a|
  {
  }

  lemma SameTotals(a: seq<DonationRow>, b: seq<DonationRow>)
    requires DistinctDonations(a) && DistinctDonations(b)
    requires SameElements(Images(a, PaidOf), Images(b, PaidOf))
    ensures |a| == |b| && Total(a) == Total(b)
  {
    TotalIsSum(a);
    TotalIsSum(b);
    PaidIsDiscerning();
    hide *;
    ImagesDiffer(a, PaidOf);
    ImagesDiffer(b, PaidOf);
    SameSize(Images(a, PaidOf), Images(b, PaidOf));
    SamePaidSameSum(Images(a, PaidOf), Images(b, PaidOf));
  }

  lemma PaidIsDiscerning()
    ensures Discerning(PaidOf)
  {
  }

  /** When each payment id always carries the same amount, the donations are as many as the
      distinct payments announced, and the committed total is the sum over them. */
  lemma TotalIsOverDistinctPayments(ps: seq<Payment>, once: seq<Paid>)
    requires DonationsAgree(ps, PaidOf) && NoRepeats(once)
    requires forall x :: x in once <==> exists p :: p in ps && PaidOf(p.donation) == x
    ensures Total(AcceptAll(ps).donations) == Sum(once) && |AcceptAll(ps).donations| == |once|
  {
    AcceptedDonations(ps, PaidOf);
    var ds := AcceptAll(ps).donations;
    hide AcceptAll, DonationsAgree;
    ImagesDiffer(ds, PaidOf);
    TotalIsSum(ds);
    assert SameElements(Images(ds, PaidOf), once) by {
      forall x ensures x in Images(ds, PaidOf) <==> x in once {
        assert Announces(ps, PaidOf, x) <==> x in once;
      }
    }
    hide *;
    SameSize(Images(ds, PaidOf), once);
    SamePaidSameSum(Images(ds, PaidOf), once);
  }

  // ---- Where deliveries differ, the first wins ----

  predicate FirstOfItsEvent(ps: seq<Payment>, i: int) {
    && 0 <= i < |ps|
    && forall j :: 0 <= j < i ==> ps[j].event.providerEventId != ps[i].event.providerEventId
  }

  /** Without consistency the first delivery of an event id decides its row. */
  lemma {:induction false} FirstDeliveryWins(ps: seq<Payment>, i: nat)
    requires FirstOfItsEvent(ps, i)
    ensures i < |ps| && FindEvent(AcceptAll(ps).events, ps[i].event.providerEventId) == Some(ps[i].event)
  {
    FirstAmong(ps, i);
    hide FirstOfItsEvent, AcceptAll, FindEvent;
    var before, id := ps[..|ps| - 1], ps[i].event.providerEventId;
    EventAfter(ps, id);
    if i < |before| {
      FirstDeliveryWins(before, i);
    }
  }

  lemma FirstAmong(ps: seq<Payment>, i: nat)
    requires FirstOfItsEvent(ps, i)
    ensures i < |ps|
    ensures i < |ps| - 1 ==> FirstOfItsEvent(ps[..|ps| - 1], i) && ps[..|ps| - 1][i] == ps[i]
  {
  }

  /** What one more payment does to the lookup of an event. */
  lemma EventAfter(ps: seq<Payment>, id: string)
    requires ps != []
    ensures var n, was := |ps| - 1, FindEvent(AcceptAll(ps[..|ps| - 1]).events, id);
            FindEvent(AcceptAll(ps).events, id)
            == if was.Some? then was else if ps[n].event.providerEventId == id then Some(ps[n].event) else None
    ensures FirstOfItsEvent(ps, |ps| - 1) && id == ps[|ps| - 1].event.providerEventId ==>
              FindEvent(AcceptAll(ps[..|ps| - 1]).events, id).None?
  {
    var before := ps[..|ps| - 1];
    FirstIsUnannounced(ps);
    hide FirstOfItsEvent, AcceptAll, FindEvent, FindDonation, Announced;
    KnownIffDelivered(before, id);
    AcceptStep(ps);
    FindEventAppend(AcceptAll(before).events, ps[|ps| - 1].event, id);
  }

  lemma FirstIsUnannounced(ps: seq<Payment>)
    requires ps != []
    ensures FirstOfItsEvent(ps, |ps| - 1)
            <==> !Announced(ps[..|ps| - 1], ps[|ps| - 1].event.providerEventId)
  {
    assert forall j :: 0 <= j < |ps| - 1 ==> ps[..|ps| - 1][j] == ps[j];
  }

  /** No earlier new event announces the same payment id. */
  predicate FirstAnnouncement(ps: seq<Payment>, i: int) {
    && FirstOfItsEvent(ps, i)
    && forall j :: 0 <= j < i && FirstOfItsEvent(ps, j) ==>
         ps[j].donation.providerPaymentId != ps[i].donation.providerPaymentId
  }

  /** And the first new event to announce a payment id decides its donation: later events
      announcing it with other contents, and repeats of known events, do not change it. */
  lemma {:induction false} FirstAnnouncementWins(ps: seq<Payment>, i: nat)
    requires FirstAnnouncement(ps, i)
    ensures i < |ps| && FindDonation(AcceptAll(ps).donations, ps[i].donation.providerPaymentId) == Some(ps[i].donation)
  {
    assert i < |ps|;
    var before, id := ps[..|ps| - 1], ps[i].donation.providerPaymentId;
    AnnouncementInPrefix(ps, i);
    hide FirstAnnouncement, FirstOfItsEvent, AcceptAll, FindDonation;
    DonationAfter(ps, id);
    if i < |before| {
      FirstAnnouncementWins(before, i);
    } else {
      NoSuchDonation(before, id);
    }
  }

  lemma AnnouncementInPrefix(ps: seq<Payment>, i: nat)
    requires FirstAnnouncement(ps, i)
    ensures FirstOfItsEvent(ps, i)
    ensures i < |ps| - 1 ==> FirstAnnouncement(ps[..|ps| - 1], i) && ps[..|ps| - 1][i] == ps[i]
    ensures i == |ps| - 1 ==> forall j :: 0 <= j < i && FirstOfItsEvent(ps[..i], j) ==>
              ps[..i][j].donation.providerPaymentId != ps[i].donation.providerPaymentId
  {
    FirstInPrefix(ps);
  }

  lemma FirstInPrefix(ps: seq<Payment>)
    requires ps != []
    ensures forall j :: 0 <= j < |ps| - 1 ==>
              (FirstOfItsEvent(ps[..|ps| - 1], j) <==> FirstOfItsEvent(ps, j)) && ps[..|ps| - 1][j] == ps[j]
  {
  }

  /** What one more payment does to the lookup of a donation. */
  lemma DonationAfter(ps: seq<Payment>, id: string)
    requires ps != []
    ensures var n, was := |ps| - 1, FindDonation(AcceptAll(ps[..|ps| - 1]).donations, id);
            FindDonation(AcceptAll(ps).donations, id)
            == if was.Some? then was
               else if FirstOfItsEvent(ps, n) && ps[n].donation.providerPaymentId == id then Some(ps[n].donation)
               else None
  {
    var before, p := ps[..|ps| - 1], ps[|ps| - 1];
    KnownIffDelivered(before, p.event.providerEventId);
    FirstIsUnannounced(ps);
    AcceptStep(ps);
    FindDonationAppend(AcceptAll(before).donations, p.donation, id);
    hide FirstOfItsEvent, FindDonation, FindEvent, AcceptAll, Announced;
  }

  lemma {:induction false} FindEventAppend(events: seq<EventRow>, e: EventRow, id: string)
    ensures FindEvent(events + [e], id)
            == if FindEvent(events, id).Some? then FindEvent(events, id)
               else if e.providerEventId == id then Some(e) else None
  {
    if events != [] {
      assert (events + [e])[1..] == events[1..] + [e];
      FindEventAppend(events[1..], e, id);
    }
  }

  lemma {:induction false} FindDonationAppend(donations: seq<DonationRow>, d: DonationRow, id: string)
    ensures FindDonation(donations + [d], id)
            == if FindDonation(donations, id).Some? then FindDonation(donations, id)
               else if d.providerPaymentId == id then Some(d) else None
  {
    if donations != [] {
      assert (donations + [d])[1..] == donations[1..] + [d];
      FindDonationAppend(donations[1..], d, id);
    }
  }

  lemma {:induction false} NoSuchDonation(ps: seq<Payment>, id: string)
    requires forall j :: 0 <= j < |ps| && FirstOfItsEvent(ps, j) ==> ps[j].donation.providerPaymentId != id
    ensures FindDonation(AcceptAll(ps).donations, id).None?
  {
    if ps != [] {
      var before := ps[..|ps| - 1];
      FirstInPrefix(ps);
      DonationAfter(ps, id);
      hide FirstOfItsEvent, AcceptAll, FindDonation;
      forall j | 0 <= j < |before| && FirstOfItsEvent(before, j) ensures before[j].donation.providerPaymentId != id {
        assert FirstOfItsEvent(ps, j);
      }
      NoSuchDonation(before, id);
    }
  }

  ghost predicate Announced(ps: seq<Payment>, id: string) {
    exists j :: 0 <= j < |ps| && ps[j].event.providerEventId == id
  }

  lemma AnnouncedStep(before: seq<Payment>, p: Payment, id: string)
    ensures Announced(before + [p], id) <==> Announced(before, id) || p.event.providerEventId == id
  {
    var ps := before + [p];
    if Announced(before, id) {
      var j :| 0 <= j < |before| && before[j].event.providerEventId == id;
      assert ps[j] == before[j];
    }
    assert ps[|before|] == p;
  }

  lemma {:induction false} KnownIffDelivered(ps: seq<Payment>, id: string)
    ensures FindEvent(AcceptAll(ps).events, id).Some? <==> Announced(ps, id)
  {
    if ps != [] {
      var before, p := ps[..|ps| - 1], ps[|ps| - 1];
      assert ps == before + [p];
      var events := AcceptAll(before).events;
      AcceptStep(ps);
      hide AcceptAll, FindEvent, Announced;
      KnownIffDelivered(before, id);
      AnnouncedStep(before, p, id);
      FindEventAppend(events, p.event, id);
    }
  }
}
