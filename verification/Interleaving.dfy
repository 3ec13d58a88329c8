/** Any number of gift and webhook handlers running against one database.

    A state holds the committed tables and every open transaction.  A SELECT sees committed
    rows and the transaction's own pending writes.  An INSERT of a key another open transaction
    holds waits; an INSERT of a key already committed aborts the transaction; so does a crash,
    at any point.  An UPDATE of a committed row waits for, and then holds, that row's key.
    Every sequence of actions is a run: an action that cannot happen changes nothing. */
module Interleaving {
  import opened Options
  import opened Tables
  import opened Ledger

  type Tid = nat

  /** The next thing a transaction will do. */
  datatype Pc =
    | SelectDonor | InsertDonor | CallProvider | LockDonor | InsertSub
    | SelectEvent | InsertEvent | SelectPayment | InsertPayment | Ready
    | LockEvent | MarkReady

  /** `donorNew`, `eventNew` and `payNew` record which branch each check took. */
  datatype Txn = Txn(
    req: Request, pc: Pc, held: set<Key>, writes: Writes,
    donorId: RowId, donorNew: bool, eventNew: bool, payNew: bool)

  datatype Entry =
    | First(tid: Tid, req: Request, isNew: bool)
    | Second(tid: Tid, hook: Hook, outcome: MarkOutcome)

  /** `started` and `log` are history: every request ever begun, every commit in order. */
  datatype State = State(db: Db, txns: map<Tid, Txn>, started: map<Tid, Request>, log: seq<Entry>)

  datatype Action =
    | Begin(t: Tid, req: Request)
    | Abort(t: Tid)
    | Step(t: Tid, outcome: MarkOutcome)

  const INIT := State(EMPTY, map[], map[], [])

  /** The webhook routes serve the four outside rails only. */
  predicate WellFormed(req: Request) {
    match req
    case Deliver(h) => h.rail != Test
    case _ => req.gift.amountMinor > 0
  }

  predicate RecordsEvent(req: Request) {
    req.Deliver? || req.gift.rail == Test
  }

  function Start(req: Request): Txn {
    Txn(req, if req.Deliver? then SelectEvent else SelectDonor, {}, NOTHING, 0, false, false, false)
  }

  function AfterProvider(req: Request): Pc
    requires !req.Deliver?
  {
    if req.gift.consent then LockDonor else AfterDonor(req)
  }

  function AfterDonor(req: Request): Pc
    requires !req.Deliver?
  {
    if req.Monthly? then InsertSub else if req.gift.rail == Test then SelectEvent else Ready
  }

  function AfterSub(req: Request): Pc
    requires !req.Deliver?
  {
    if req.gift.rail == Test then SelectEvent else Ready
  }

  /** Program counters that only a gift transaction reaches. */
  predicate GiftPc(pc: Pc) {
    || pc.SelectDonor? || pc.InsertDonor? || pc.CallProvider? || pc.LockDonor? || pc.InsertSub?
    || pc.SelectPayment? || pc.InsertPayment?
  }

  /** The next step is a commit. */
  predicate Commits(pc: Pc) {
    pc.Ready? || pc.MarkReady?
  }

  /** The program counter belongs to this kind of request and its pending writes. */
  predicate PcFits(x: Txn) {
    && (GiftPc(x.pc) ==> !x.req.Deliver?)
    && ((x.pc.LockEvent? || x.pc.MarkReady?) ==> x.req.Deliver?)
    && (x.pc == InsertSub ==> x.req.Monthly?)
    && ((x.pc.SelectEvent? || x.pc.InsertEvent? || x.pc.SelectPayment? || x.pc.InsertPayment?) && !x.req.Deliver?
        ==> x.req.gift.rail == Test)
    && (x.pc == LockDonor && x.donorNew ==> x.writes.donor.Some?)
    && ((x.pc.SelectPayment? || x.pc.InsertPayment?) ==> x.writes.event.Some?)
    && (x.pc == MarkReady ==> x.writes.mark.Some?)
  }

  /** The key the next action needs exclusively, if any. */
  function Wants(x: Txn): Option<Key>
    requires PcFits(x)
  {
    match x.pc
    case InsertDonor => Some(DonorKey(x.req.gift.email))
    case LockDonor => if x.donorNew then None else Some(DonorKey(x.req.gift.email))
    case InsertSub => Some(SubKey(x.req.gift.rail, ProviderSubId(x.req.gift)))
    case InsertEvent => Some(EventKey(EventIdOf(x.req)))
    case InsertPayment => Some(PayKey(PaymentIdOf(x.req)))
    case LockEvent => Some(EventKey(EventIdOf(x.req)))
    case _ => None
  }

  ghost predicate WaitsFor(s: State, t: Tid, u: Tid) {
    && t in s.txns && u in s.txns && t != u
    && PcFits(s.txns[t]) && Wants(s.txns[t]).Some?
    && Wants(s.txns[t]).value in s.txns[u].held
  }

  ghost predicate Blocked(s: State, t: Tid) {
    exists u :: WaitsFor(s, t, u)
  }

  function Put(s: State, t: Tid, x: Txn): State {
    s.(txns := s.txns[t := x])
  }

  function Drop(s: State, t: Tid): State {
    s.(txns := s.txns - {t})
  }

  /** `mark_event_processed` on the event row this transaction has just inserted. */
  function MarkedOwn(x: Txn): Writes
    requires !x.req.Deliver? && x.writes.event.Some?
  {
    x.writes.(event := Some(MarkRow(x.writes.event.value, None, x.req.gift.now)))
  }

  predicate Inserts(pc: Pc) {
    (pc.InsertDonor? || pc.InsertSub? || pc.InsertEvent? || pc.InsertPayment?)
  }

  function Claim(x: Txn): set<Key>
    requires PcFits(x)
  {
    if Wants(x).Some? then {Wants(x).value} else {}
  }

  /** The transaction after its next SELECT, INSERT, provider call or row lock has gone through. */
  ghost function Next(db: Db, x: Txn, outcome: MarkOutcome): Txn
    requires PcFits(x) && !Commits(x.pc)
  {
    Work(db, x, outcome).(req := x.req, held := x.held + Claim(x))
  }

  /** What that step does to the program counter, the branches taken and the pending writes. */
  ghost function Work(db: Db, x: Txn, outcome: MarkOutcome): Txn
    requires PcFits(x) && !Commits(x.pc)
  {
    var seen := Apply(db, x.writes);
    match x.pc
    case SelectDonor =>
      var found := FindDonor(seen.donors, x.req.gift.email);
      if found.Some? then x.(pc := CallProvider, donorId := found.value.id) else x.(pc := InsertDonor)
    case InsertDonor =>
      x.(pc := CallProvider, donorNew := true, donorId := x.req.gift.donorRow,
         writes := x.writes.(donor := Some(NewDonor(x.req.gift))))
    case CallProvider =>
      x.(pc := AfterProvider(x.req))
    case LockDonor =>
      if x.donorNew then
        x.(pc := AfterDonor(x.req),
           writes := x.writes.(donor := Some(x.writes.donor.value.(consent := NewConsent(x.req)))))
      else
        x.(pc := AfterDonor(x.req),
           writes := x.writes.(consent := Some(ConsentWrite(x.req.gift.email, NewConsent(x.req)))))
    case InsertSub =>
      var row := NewSub(x.req.gift, x.donorId);
      x.(pc := AfterSub(x.req),
         writes := x.writes.(sub := Some(if x.req.gift.rail == Test then Activated(row, x.req.gift.now) else row)))
    case SelectEvent =>
      x.(pc := if Taken(seen, EventKey(EventIdOf(x.req))) then Ready else InsertEvent)
    case InsertEvent =>
      x.(pc := if x.req.Deliver? then Ready else SelectPayment, eventNew := true,
         writes := x.writes.(event := Some(NewEvent(x.req))))
    case SelectPayment =>
      if Taken(seen, PayKey(PaymentIdOf(x.req))) then x.(pc := Ready, writes := MarkedOwn(x))
      else x.(pc := InsertPayment)
    case InsertPayment =>
      x.(pc := Ready, payNew := true, writes := MarkedOwn(x).(donation := Some(NewDonation(x.req, x.donorId))))
    case LockEvent =>
      x.(pc := MarkReady,
         writes := x.writes.(mark := Some(Mark(x.req.hook.eventId, outcome, x.req.hook.markNow))))
  }

  /** The second half of a new webhook is a transaction of its own. */
  function Reopened(x: Txn): Txn {
    x.(pc := LockEvent, held := {}, writes := NOTHING)
  }

  /** One unblocked step of `t`: a commit, an abort on a committed duplicate or a provider that
      raises, or local progress. */
  ghost function Advance(s: State, t: Tid, outcome: MarkOutcome): State
    requires t in s.txns && PcFits(s.txns[t])
  {
    var x := s.txns[t];
    if x.pc == Ready then
      var s1 := s.(db := Apply(s.db, x.writes), log := s.log + [First(t, x.req, x.eventNew)]);
      if x.req.Deliver? && x.eventNew then Put(s1, t, Reopened(x))
      else Drop(s1, t)
    else if x.pc == MarkReady then
      Drop(s.(db := Apply(s.db, x.writes),
              log := s.log + [Second(t, x.req.hook, x.writes.mark.value.outcome)]), t)
    else if Inserts(x.pc) && Taken(s.db, Wants(x).value) then Drop(s, t)
    else if x.pc == CallProvider && !ProviderCanReturn(x.req) then Drop(s, t)
    else Put(s, t, Next(s.db, x, outcome))
  }

  ghost function Do(s: State, a: Action): State {
    match a
    case Begin(t, req) =>
      if t in s.started || !WellFormed(req) then s
      else s.(txns := s.txns[t := Start(req)], started := s.started[t := req])
    case Abort(t) => Drop(s, t)
    case Step(t, outcome) =>
      if t in s.txns && PcFits(s.txns[t]) && !Blocked(s, t) then Advance(s, t, outcome) else s
  }

  ghost function Exec(run: seq<Action>): State {
    if run == [] then INIT else Do(Exec(run[..|run| - 1]), run[|run| - 1])
  }

  lemma {:induction false} ExecAppend(run: seq<Action>, a: Action)
    ensures Exec(run + [a]) == Do(Exec(run), a)
  {
    assert (run + [a])[..|run|] == run;
  }

  // ---- The one-at-a-time meaning of a log ----

  function Replay1(db: Db, e: Entry): Db {
    match e
    case First(_, req, _) => Tx(db, req)
    case Second(_, hook, outcome) => MarkTx(db, hook, outcome)
  }

  function Replay(log: seq<Entry>): Db {
    if log == [] then EMPTY else Replay1(Replay(log[..|log| - 1]), log[|log| - 1])
  }

  // ---- The invariant ----

  ghost predicate DonorDone(db: Db, x: Txn, stamped: bool)
    requires !x.req.Deliver?
  {
    var g := x.req.gift;
    var c := NewConsent(x.req);
    if x.donorNew then
      && DonorKey(g.email) in x.held && !Taken(db, DonorKey(g.email)) && x.donorId == g.donorRow
      && x.writes.consent.None?
      && x.writes.donor == Some(if stamped && g.consent then NewDonor(g).(consent := c) else NewDonor(g))
    else
      && FindDonor(db.donors, g.email).Some? && FindDonor(db.donors, g.email).value.id == x.donorId
      && x.writes.donor.None?
      && x.writes.consent == (if stamped && g.consent then Some(ConsentWrite(g.email, c)) else None)
      && (stamped && g.consent ==> DonorKey(g.email) in x.held)
  }

  ghost predicate SubDone(db: Db, x: Txn)
    requires !x.req.Deliver?
  {
    if x.req.OneOff? then x.writes.sub.None?
    else
      var g := x.req.gift;
      var row := NewSub(g, x.donorId);
      && SubKey(g.rail, ProviderSubId(g)) in x.held && !Taken(db, SubKey(g.rail, ProviderSubId(g)))
      && x.writes.sub == Some(if g.rail == Test then Activated(row, g.now) else row)
  }

  ghost predicate EventDone(db: Db, x: Txn, marked: bool) {
    var id := EventIdOf(x.req);
    if x.eventNew then
      && EventKey(id) in x.held && !Taken(db, EventKey(id))
      && x.writes.event == Some(if marked && !x.req.Deliver? then MarkRow(NewEvent(x.req), None, x.req.gift.now)
                                else NewEvent(x.req))
    else x.writes.event.None?
  }

  ghost predicate PayDone(db: Db, x: Txn)
    requires !x.req.Deliver?
  {
    var id := PaymentIdOf(x.req);
    if x.payNew then
      && PayKey(id) in x.held && !Taken(db, PayKey(id)) && x.writes.donation == Some(NewDonation(x.req, x.donorId))
    else x.writes.donation.None?
  }

  /** Everything known about an open transaction at each program counter. */
  ghost predicate TxnOk(db: Db, x: Txn) {
    var w := x.writes;
    && PcFits(x)
    && WellFormed(x.req)
    && (!(x.pc.LockEvent? || x.pc.MarkReady?) ==> w.mark.None?)
    && (x.req.Deliver? ==> w.donor.None? && w.consent.None? && w.sub.None? && w.donation.None?)
    && match x.pc
       case SelectDonor => w == NOTHING && !x.donorNew && !x.eventNew && !x.payNew
       case InsertDonor => w == NOTHING && !x.donorNew && !x.eventNew && !x.payNew
       case CallProvider =>
         DonorDone(db, x, false) && w.sub.None? && w.event.None? && w.donation.None? && !x.eventNew && !x.payNew
       case LockDonor =>
         x.req.gift.consent && ProviderCanReturn(x.req) &&
         DonorDone(db, x, false) && w.sub.None? && w.event.None? && w.donation.None? && !x.eventNew && !x.payNew
       case InsertSub =>
         ProviderCanReturn(x.req) &&
         DonorDone(db, x, true) && w.sub.None? && w.event.None? && w.donation.None? && !x.eventNew && !x.payNew
       case SelectEvent =>
         w.event.None? && w.donation.None? && !x.eventNew && !x.payNew
         && (!x.req.Deliver? ==> DonorDone(db, x, true) && SubDone(db, x))
       case InsertEvent =>
         w.event.None? && w.donation.None? && !x.eventNew && !x.payNew
         && (!x.req.Deliver? ==> DonorDone(db, x, true) && SubDone(db, x))
       case SelectPayment =>
         DonorDone(db, x, true) && SubDone(db, x) && x.eventNew && EventDone(db, x, false)
         && w.donation.None? && !x.payNew
       case InsertPayment =>
         DonorDone(db, x, true) && SubDone(db, x) && x.eventNew && EventDone(db, x, false)
         && w.donation.None? && !x.payNew
       case Ready =>
         && EventDone(db, x, true)
         && (!x.req.Deliver? ==>
               && ProviderCanReturn(x.req)
               && DonorDone(db, x, true) && SubDone(db, x) && PayDone(db, x)
               && (x.payNew ==> x.eventNew)
               && (x.req.gift.rail != Test ==> !x.eventNew)
               && (x.req.gift.rail == Test && !x.eventNew ==> Taken(db, EventKey(EventIdOf(x.req))))
               && (x.eventNew && !x.payNew ==> Taken(db, PayKey(PaymentIdOf(x.req)))))
         && (x.req.Deliver? && !x.eventNew ==> Taken(db, EventKey(EventIdOf(x.req))))
       case LockEvent => w == NOTHING && x.eventNew && Taken(db, EventKey(EventIdOf(x.req)))
       case MarkReady =>
         && w.mark.Some? && w == NOTHING.(mark := w.mark) && x.eventNew
         && w.mark.value.eventId == x.req.hook.eventId && w.mark.value.at == x.req.hook.markNow
         && Taken(db, EventKey(EventIdOf(x.req)))
  }

  function Rank(k: Key): nat {
    match k
    case DonorKey(_) => 0
    case SubKey(_, _) => 1
    case EventKey(_) => 2
    case PayKey(_) => 3
  }

  /** Keys are claimed in the order donor, subscription, event, payment. */
  ghost predicate InOrder(x: Txn) {
    match x.pc
    case SelectDonor => x.held == {}
    case InsertDonor => x.held == {}
    case CallProvider => (forall k :: k in x.held ==> Rank(k) <= 0) && (!x.donorNew ==> x.held == {})
    case LockDonor => (forall k :: k in x.held ==> Rank(k) <= 0) && (!x.donorNew ==> x.held == {})
    case InsertSub => forall k :: k in x.held ==> Rank(k) <= 0
    case SelectEvent => forall k :: k in x.held ==> Rank(k) <= 1
    case InsertEvent => forall k :: k in x.held ==> Rank(k) <= 1
    case LockEvent => x.held == {}
    case SelectPayment => forall k :: k in x.held ==> Rank(k) <= 2
    case InsertPayment => forall k :: k in x.held ==> Rank(k) <= 2
    case Ready => true
    case MarkReady => true
  }

  ghost predicate Inv(s: State) {
    && Unique(s.db)
    && s.db == Replay(s.log)
    && (forall t :: t in s.txns ==> TxnOk(s.db, s.txns[t]) && InOrder(s.txns[t]))
    && (forall t :: t in s.txns ==> t in s.started && s.started[t] == s.txns[t].req)
    && (forall t, u, k :: t in s.txns && u in s.txns && t != u && k in s.txns[t].held ==> k !in s.txns[u].held)
  }

  // ---- A transaction's own knowledge survives what the others commit ----

  /** Inserted keys are always held, and never committed before the insert is. */
  lemma InsertedHeld(db: Db, x: Txn)
    requires TxnOk(db, x)
    ensures forall k :: k in Inserted(x.writes) ==> k in x.held && !Taken(db, k)
  {
    hide TxnOk, Taken;
    if x.writes.donor.Some? {
      DonorHeld(db, x);
    }
    if x.writes.sub.Some? {
      SubHeld(db, x);
    }
    if x.writes.event.Some? {
      EventHeld(db, x);
    }
    if x.writes.donation.Some? {
      PaymentHeld(db, x);
    }
  }

  lemma DonorHeld(db: Db, x: Txn)
    requires TxnOk(db, x) && x.writes.donor.Some?
    ensures DonorKey(x.writes.donor.value.email) in x.held && !Taken(db, DonorKey(x.writes.donor.value.email))
  {
    hide Taken, FindDonor, SubDone, EventDone, PayDone;
  }

  lemma SubHeld(db: Db, x: Txn)
    requires TxnOk(db, x) && x.writes.sub.Some?
    ensures var k := SubKey(x.writes.sub.value.provider, x.writes.sub.value.providerSubId);
            k in x.held && !Taken(db, k)
  {
    hide Taken, DonorDone, EventDone, PayDone;
  }

  lemma EventHeld(db: Db, x: Txn)
    requires TxnOk(db, x) && x.writes.event.Some?
    ensures EventKey(x.writes.event.value.providerEventId) in x.held
    ensures !Taken(db, EventKey(x.writes.event.value.providerEventId))
  {
    hide Taken, DonorDone, SubDone, PayDone;
  }

  lemma PaymentHeld(db: Db, x: Txn)
    requires TxnOk(db, x) && x.writes.donation.Some?
    ensures PayKey(x.writes.donation.value.providerPaymentId) in x.held
    ensures !Taken(db, PayKey(x.writes.donation.value.providerPaymentId))
  {
    hide Taken, DonorDone, SubDone, EventDone;
  }

  lemma Stable(db: Db, x: Txn, w: Writes)
    requires TxnOk(db, x)
    requires forall k :: k in Inserted(w) ==> k !in x.held
    ensures TxnOk(Apply(db, w), x)
  {
    forall k ensures Taken(Apply(db, w), k) <==> Taken(db, k) || k in Inserted(w) {
      ApplyTakes(db, w, k);
    }
    if !x.req.Deliver? && FindDonor(db.donors, x.req.gift.email).Some? {
      FindDonorStable(db, w, x.req.gift.email);
    }
  }

  // ---- At its commit a transaction does what it would have done alone ----

  lemma DonorPartAgrees(db: Db, x: Txn)
    requires !x.req.Deliver? && TxnOk(db, x) && x.pc == Ready
    ensures var (db1, donorId) := WithDonor(db, x.req.gift);
            donorId == x.donorId && GiveConsent(db1, x.req) == db.(donors := Apply(db, x.writes).donors)
  {
    var g := x.req.gift;
    if x.donorNew {
      assert !Taken(db, DonorKey(g.email));
      assert FindDonor(db.donors, g.email).None?;
      if g.consent {
        ConsentOnNew(db.donors, NewDonor(g), NewConsent(x.req));
      }
    }
  }

  lemma GiftPartAgrees(db: Db, x: Txn)
    requires !x.req.Deliver? && TxnOk(db, x) && x.pc == Ready && x.req.gift.rail == Test
    ensures var out := WithGift(db, x.req, x.donorId);
            && out.1 == x.eventNew
            && out.0 == db.(events := Apply(db, x.writes).events, donations := Apply(db, x.writes).donations)
  {
    var id := EventIdOf(x.req);
    assert Taken(db, EventKey(id)) <==> FindEvent(db.events, id).Some?;
    if x.eventNew {
      assert Taken(db, PayKey(PaymentIdOf(x.req))) <==> FindDonation(db.donations, PaymentIdOf(x.req)).Some?;
      MarkOnNew(db.events, NewEvent(x.req), Mark(id, Done, x.req.gift.now));
    }
  }

  lemma GiftFrame(db: Db, donors: seq<DonorRow>, subs: seq<SubRow>, req: Request, donorId: RowId)
    requires !req.Deliver?
    ensures var alone := WithGift(db, req, donorId).0;
            WithGift(db.(donors := donors, subs := subs), req, donorId).0
            == alone.(donors := donors, subs := subs)
    ensures var alone := WithGift(db, req, donorId).0;
            alone.donors == db.donors && alone.subs == db.subs
  {
  }

  /** At the commit the `is_new` flag still says what the tables say. */
  lemma FlagIsAccurate(db: Db, x: Txn)
    requires TxnOk(db, x) && x.pc == Ready
    ensures x.eventNew <==> RecordsEvent(x.req) && !Taken(db, EventKey(EventIdOf(x.req)))
  {
  }

  lemma CommitIsAtomic(db: Db, x: Txn)
    requires TxnOk(db, x) && x.pc == Ready
    ensures Apply(db, x.writes) == Tx(db, x.req)
  {
    var out := Apply(db, x.writes);
    assert Taken(db, EventKey(EventIdOf(x.req))) <==> FindEvent(db.events, EventIdOf(x.req)).Some?;
    match x.req
    case Deliver(h) =>
    case OneOff(g) =>
      DonorPartAgrees(db, x);
      if g.rail == Test {
        GiftPartAgrees(db, x);
        GiftFrame(db, out.donors, db.subs, x.req, x.donorId);
      }
    case Monthly(g) =>
      DonorPartAgrees(db, x);
      if g.rail == Test {
        GiftPartAgrees(db, x);
        GiftFrame(db, out.donors, out.subs, x.req, x.donorId);
      }
  }

  // ---- Every action keeps the invariant ----

  lemma PutKeeps(s: State, t: Tid, x: Txn)
    requires Inv(s) && t in s.txns
    requires TxnOk(s.db, x) && InOrder(x) && x.req == s.txns[t].req
    requires forall u, k :: u in s.txns && u != t && k in x.held ==> k !in s.txns[u].held
    ensures Inv(Put(s, t, x))
  {
  }

  lemma DropKeeps(s: State, t: Tid)
    requires Inv(s)
    ensures Inv(Drop(s, t))
  {
  }

  lemma OwnHeldApart(s: State, t: Tid, k: Key)
    requires Inv(s) && t in s.txns && !Blocked(s, t)
    requires PcFits(s.txns[t]) && Wants(s.txns[t]) == Some(k)
    ensures forall u :: u in s.txns && u != t ==> k !in s.txns[u].held
  {
    forall u | u in s.txns && u != t ensures k !in s.txns[u].held {
      assert !WaitsFor(s, t, u);
    }
  }

  lemma NextGiftOk(db: Db, x: Txn, outcome: MarkOutcome)
    requires TxnOk(db, x) && InOrder(x)
    requires (x.pc.SelectDonor? || x.pc.InsertDonor? || x.pc.CallProvider? || x.pc.LockDonor? || x.pc.InsertSub?)
    requires Inserts(x.pc) ==> !Taken(db, Wants(x).value)
    requires x.pc == CallProvider ==> ProviderCanReturn(x.req)
    ensures TxnOk(db, Next(db, x, outcome)) && InOrder(Next(db, x, outcome))
  {
    assert x.pc == SelectDonor ==> Apply(db, x.writes) == db;
  }

  /** A SELECT decides on committed rows alone: no handler has written the table it reads. */
  lemma NextSelectEventOk(db: Db, x: Txn, outcome: MarkOutcome)
    requires TxnOk(db, x) && InOrder(x) && x.pc == SelectEvent
    ensures TxnOk(db, Next(db, x, outcome)) && InOrder(Next(db, x, outcome))
  {
    ApplyTakes(db, x.writes, EventKey(EventIdOf(x.req)));
  }

  lemma NextSelectPayment(db: Db, x: Txn, outcome: MarkOutcome)
    requires TxnOk(db, x) && x.pc == SelectPayment
    ensures Next(db, x, outcome)
            == if Taken(db, PayKey(PaymentIdOf(x.req))) then x.(pc := Ready, writes := MarkedOwn(x))
               else x.(pc := InsertPayment)
  {
    ApplyTakes(db, x.writes, PayKey(PaymentIdOf(x.req)));
    hide Apply, Taken;
  }

  lemma PaymentKnownOk(db: Db, x: Txn)
    requires TxnOk(db, x) && x.pc == SelectPayment && Taken(db, PayKey(PaymentIdOf(x.req)))
    ensures TxnOk(db, x.(pc := Ready, writes := MarkedOwn(x)))
  {
  }

  lemma PaymentUnknownOk(db: Db, x: Txn)
    requires TxnOk(db, x) && InOrder(x) && x.pc == SelectPayment
    ensures TxnOk(db, x.(pc := InsertPayment)) && InOrder(x.(pc := InsertPayment))
  {
  }

  lemma NextSelectPaymentOk(db: Db, x: Txn, outcome: MarkOutcome)
    requires TxnOk(db, x) && InOrder(x) && x.pc == SelectPayment
    ensures TxnOk(db, Next(db, x, outcome)) && InOrder(Next(db, x, outcome))
  {
    NextSelectPayment(db, x, outcome);
    hide Next, TxnOk, Taken;
    if Taken(db, PayKey(PaymentIdOf(x.req))) {
      PaymentKnownOk(db, x);
    } else {
      PaymentUnknownOk(db, x);
    }
  }

  lemma NextInsertEventOk(db: Db, x: Txn, outcome: MarkOutcome)
    requires TxnOk(db, x) && InOrder(x) && x.pc == InsertEvent && !Taken(db, EventKey(EventIdOf(x.req)))
    ensures TxnOk(db, Next(db, x, outcome)) && InOrder(Next(db, x, outcome))
  {
    hide Taken, Apply;
  }

  lemma NextInsertPaymentOk(db: Db, x: Txn, outcome: MarkOutcome)
    requires TxnOk(db, x) && InOrder(x) && x.pc == InsertPayment && !Taken(db, PayKey(PaymentIdOf(x.req)))
    ensures TxnOk(db, Next(db, x, outcome)) && InOrder(Next(db, x, outcome))
  {
    hide Taken, Apply;
  }

  lemma NextLockEventOk(db: Db, x: Txn, outcome: MarkOutcome)
    requires TxnOk(db, x) && InOrder(x) && x.pc == LockEvent
    ensures TxnOk(db, Next(db, x, outcome)) && InOrder(Next(db, x, outcome))
  {
    hide Taken, Apply;
  }

  lemma NextOk(db: Db, x: Txn, outcome: MarkOutcome)
    requires TxnOk(db, x) && InOrder(x)
    requires !Commits(x.pc)
    requires Inserts(x.pc) ==> !Taken(db, Wants(x).value)
    requires x.pc == CallProvider ==> ProviderCanReturn(x.req)
    ensures TxnOk(db, Next(db, x, outcome)) && InOrder(Next(db, x, outcome))
  {
    if (x.pc.SelectDonor? || x.pc.InsertDonor? || x.pc.CallProvider? || x.pc.LockDonor? || x.pc.InsertSub?) {
      NextGiftOk(db, x, outcome);
    } else if x.pc == SelectEvent {
      NextSelectEventOk(db, x, outcome);
    } else if x.pc == SelectPayment {
      NextSelectPaymentOk(db, x, outcome);
    } else if x.pc == InsertEvent {
      NextInsertEventOk(db, x, outcome);
    } else if x.pc == InsertPayment {
      NextInsertPaymentOk(db, x, outcome);
    } else {
      NextLockEventOk(db, x, outcome);
    }
  }

  lemma NextHolds(db: Db, x: Txn, outcome: MarkOutcome)
    requires PcFits(x) && !Commits(x.pc)
    ensures Next(db, x, outcome).held == x.held + Claim(x) && Next(db, x, outcome).req == x.req
  {
    hide Work;
  }

  lemma LocalStepKeeps(s: State, t: Tid, outcome: MarkOutcome)
    requires Inv(s) && t in s.txns && !Blocked(s, t)
    requires !Commits(s.txns[t].pc)
    ensures Inv(Advance(s, t, outcome))
  {
    var x := s.txns[t];
    assert TxnOk(s.db, x) && InOrder(x) && PcFits(x);
    hide TxnOk, InOrder, Next, Taken, Apply, Blocked, PcFits;
    if (Inserts(x.pc) && Taken(s.db, Wants(x).value)) || (x.pc == CallProvider && !ProviderCanReturn(x.req)) {
      DropKeeps(s, t);
    } else {
      if Wants(x).Some? {
        OwnHeldApart(s, t, Wants(x).value);
      }
      NextOk(s.db, x, outcome);
      NextHolds(s.db, x, outcome);
      PutKeeps(s, t, Next(s.db, x, outcome));
    }
  }

  lemma ReplaySnoc(log: seq<Entry>, e: Entry)
    ensures Replay(log + [e]) == Replay1(Replay(log), e)
  {
    assert (log + [e])[..|log|] == log;
  }

  /** The state after `t` commits, before anything is done about `t` itself. */
  lemma OthersSurviveCommit(s: State, t: Tid, e: Entry)
    requires Inv(s) && t in s.txns
    requires Apply(s.db, s.txns[t].writes) == Replay1(s.db, e)
    ensures Inv(Drop(s.(db := Apply(s.db, s.txns[t].writes), log := s.log + [e]), t))
  {
    var x := s.txns[t];
    InsertedHeld(s.db, x);
    ApplyKeepsUnique(s.db, x.writes);
    ReplaySnoc(s.log, e);
    forall u | u in s.txns && u != t ensures TxnOk(Apply(s.db, x.writes), s.txns[u]) {
      Stable(s.db, s.txns[u], x.writes);
    }
  }

  lemma ReopenedOk(db: Db, x: Txn)
    requires TxnOk(db, x) && x.pc == Ready && x.req.Deliver? && x.eventNew
    ensures TxnOk(Apply(db, x.writes), Reopened(x)) && InOrder(Reopened(x))
  {
    ApplyTakes(db, x.writes, EventKey(x.req.hook.eventId));
  }

  lemma FirstCommitShape(s: State, t: Tid, outcome: MarkOutcome)
    requires t in s.txns && PcFits(s.txns[t]) && s.txns[t].pc == Ready
    ensures var x := s.txns[t];
            var s1 := Drop(s.(db := Apply(s.db, x.writes), log := s.log + [First(t, x.req, x.eventNew)]), t);
            Advance(s, t, outcome) == if x.req.Deliver? && x.eventNew then Put(s1, t, Reopened(x)) else s1
  {
    assert s.txns[t := Reopened(s.txns[t])] == (s.txns - {t})[t := Reopened(s.txns[t])];
  }

  lemma FirstCommitKeeps(s: State, t: Tid, outcome: MarkOutcome)
    requires Inv(s) && t in s.txns && s.txns[t].pc == Ready
    ensures Inv(Advance(s, t, outcome))
  {
    var x := s.txns[t];
    FirstCommitShape(s, t, outcome);
    CommitIsAtomic(s.db, x);
    OthersSurviveCommit(s, t, First(t, x.req, x.eventNew));
    if x.req.Deliver? && x.eventNew {
      ReopenedOk(s.db, x);
      Reopen(Drop(s.(db := Apply(s.db, x.writes), log := s.log + [First(t, x.req, x.eventNew)]), t), t, Reopened(x));
    }
  }

  /** A handler's second transaction opens holding nothing. */
  lemma Reopen(s: State, t: Tid, y: Txn)
    requires Inv(s) && t !in s.txns
    requires TxnOk(s.db, y) && InOrder(y) && y.held == {}
    requires t in s.started && s.started[t] == y.req
    ensures Inv(Put(s, t, y))
  {
  }

  lemma CommitKeeps(s: State, t: Tid, outcome: MarkOutcome)
    requires Inv(s) && t in s.txns && Commits(s.txns[t].pc)
    ensures Inv(Advance(s, t, outcome))
  {
    if s.txns[t].pc == Ready {
      FirstCommitKeeps(s, t, outcome);
    } else {
      OthersSurviveCommit(s, t, Second(t, s.txns[t].req.hook, s.txns[t].writes.mark.value.outcome));
    }
  }

  lemma BeginKeeps(s: State, t: Tid, req: Request)
    requires Inv(s) && t !in s.started && WellFormed(req)
    ensures Inv(s.(txns := s.txns[t := Start(req)], started := s.started[t := req]))
  {
    var x := Start(req);
    assert TxnOk(s.db, x) && InOrder(x) && x.held == {};
    Reopen(s.(started := s.started[t := req]), t, x);
  }

  lemma DoKeeps(s: State, a: Action)
    requires Inv(s)
    ensures Inv(Do(s, a))
  {
    match a
    case Begin(t, req) =>
      if t !in s.started && WellFormed(req) {
        BeginKeeps(s, t, req);
      }
    case Abort(t) => DropKeeps(s, t);
    case Step(t, outcome) =>
      if t in s.txns && !Blocked(s, t) {
        if Commits(s.txns[t].pc) {
          CommitKeeps(s, t, outcome);
        } else {
          LocalStepKeeps(s, t, outcome);
        }
      }
  }

  lemma {:induction false} InvHolds(run: seq<Action>)
    ensures Inv(Exec(run))
  {
    if run != [] {
      InvHolds(run[..|run| - 1]);
      DoKeeps(Exec(run[..|run| - 1]), run[|run| - 1]);
    }
  }

  /** Serializability.  Whatever the interleaving and wherever transactions crash, the
      committed tables are those of running the committed requests one at a time, whole, in
      the order they committed. */
  lemma SerializedByCommitOrder(run: seq<Action>)
    ensures Exec(run).db == Replay(Exec(run).log)
  {
    InvHolds(run);
  }

  /** The unique indexes hold in every committed state. */
  lemma CommittedRowsAreUnique(run: seq<Action>)
    ensures Unique(Exec(run).db)
  {
    InvHolds(run);
  }
}
