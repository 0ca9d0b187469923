/** Upgrade orders: how they follow their transactions, and the credit they may give. */
module MarketOrders {
  import opened Wrappers
  import opened Sums
  import opened Ledger
  import opened Market
  import opened MarketLinks
  import Calendar
  import Fee

  // ---- coupling of orders, transactions and quota limits ----

  predicate OrderCoupled(s: State, k: nat)
    requires k < |s.orders|
  {
    var o := s.orders[k];
    && o.tx < |s.txs| && o.user < |s.users|
    && (o.status == OrderActive ==>
          s.txs[o.tx].status == Success
          && s.users[o.user] == User(o.snapshot.maxPhotoQuota, o.snapshot.maxPackageCount))
    && (o.status == OrderExpire ==> s.txs[o.tx].status == Success)
    && (s.txs[o.tx].status == Pending ==> o.status == OrderPending)
  }

  /** Two orders of one user are never both active nor both pending, and a pending order that can
      still be paid offers at least the photo quota of the active one. */
  predicate PairCoupled(s: State, j: nat, k: nat)
    requires j < |s.orders| && k < |s.orders|
  {
    var a, b := s.orders[j], s.orders[k];
    j != k && a.user == b.user ==>
      && !(a.status == OrderActive && b.status == OrderActive)
      && !(a.status == OrderPending && b.status == OrderPending)
      && (a.status == OrderActive && b.tx < |s.txs| && s.txs[b.tx].status == Pending ==>
            a.snapshot.maxPhotoQuota <= b.snapshot.maxPhotoQuota)
  }

  ghost predicate Coupled(s: State) {
    && (forall k: nat | k < |s.orders| :: OrderCoupled(s, k))
    && (forall j: nat, k: nat | j < |s.orders| && k < |s.orders| :: PairCoupled(s, j, k))
  }

  /** A pending order was not paid: its transaction waits, or expired. */
  predicate Unpaid(s: State, k: nat)
    requires k < |s.orders|
  {
    var o := s.orders[k];
    o.status == OrderPending && o.tx < |s.txs| ==> s.txs[o.tx].status == Pending || s.txs[o.tx].status == Expired
  }

  ghost predicate RequestsUnpaid(s: State) {
    forall k: nat | k < |s.orders| :: Unpaid(s, k)
  }

  /** A transaction of an upgrade changes its status while it waits, and only a patch gives it
      another than expired. */
  predicate UpgradeKept(t: Tx, t': Tx, patched: bool) {
    t' == t.(status := t'.status)
    && (t'.status == t.status || (t.status == Pending && (patched || t'.status == Expired)))
  }

  /** The orders are untouched and no upgrade transaction is more open than it was. */
  ghost predicate UpgradesAlone(s: State, s': State, patched: bool) {
    && s'.orders == s.orders && |s.users| <= |s'.users| && |s.txs| <= |s'.txs|
    && (forall u: nat | u < |s.users| :: s'.users[u] == s.users[u])
    && (forall i: nat | i < |s.txs| && s.txs[i].kind == UpgradeToPhotographer ::
          UpgradeKept(s.txs[i], s'.txs[i], patched))
    && (forall i: nat | i < |s'.txs| && s'.txs[i].kind == UpgradeToPhotographer ::
          i < |s.txs| && s.txs[i].kind == UpgradeToPhotographer)
  }

  /** Steps that place, activate or expire an order. */
  predicate MovesOrders(s: State, e: Event) {
    e.EvUpgrade? || e.EvExpireOrders?
    || (e.EvWebhook? && e.tx < |s.txs| && s.txs[e.tx].status == Pending
        && s.txs[e.tx].kind == UpgradeToPhotographer)
  }

  lemma PaymentsLeaveUpgrades(s: State, e: Event)
    requires Linked(s) && OfPayments(e) && !MovesOrders(s, e)
    ensures UpgradesAlone(s, Next(s, e), e.EvPatch?)
  {
  }

  lemma PurchasesLeaveUpgrades(s: State, e: Event)
    requires e.EvBuy?
    ensures UpgradesAlone(s, Next(s, e), false)
  {
  }

  lemma OtherStepsLeaveUpgrades(s: State, e: Event)
    requires Linked(s) && !MovesOrders(s, e)
    ensures UpgradesAlone(s, Next(s, e), e.EvPatch?)
  {
    if Quiet(e) {
      QuietSteps(s, e);
    } else if e.EvBuy? {
      PurchasesLeaveUpgrades(s, e);
    } else {
      PaymentsLeaveUpgrades(s, e);
    }
  }

  lemma OrdersAlone(s: State, s': State, patched: bool)
    requires Linked(s) && Coupled(s) && UpgradesAlone(s, s', patched)
    ensures Coupled(s')
  {
    forall k: nat | k < |s.orders| ensures OrderCoupled(s', k) {
      assert OrderLinked(s, k) && OrderCoupled(s, k);
    }
    forall j: nat, k: nat | j < |s.orders| && k < |s.orders| ensures PairCoupled(s', j, k) {
      assert PairCoupled(s, j, k) && OrderLinked(s, k);
    }
  }

  lemma ExpireCoupled(s: State)
    requires Linked(s) && Coupled(s)
    ensures Coupled(DeactivateExpiredOrder(s).state)
  {
    var s' := DeactivateExpiredOrder(s).state;
    forall k: nat | k < |s.orders| ensures OrderCoupled(s', k) {
      assert OrderCoupled(s, k);
    }
    forall j: nat, k: nat | j < |s.orders| && k < |s.orders| ensures PairCoupled(s', j, k) {
      assert PairCoupled(s, j, k);
    }
  }

  /** Once cleared, a user has no pending order. */
  lemma ClearedCoupled(s: State, user: nat)
    requires Linked(s) && Coupled(s)
    ensures Coupled(Cleared(s, user))
    ensures forall k: nat | k < |s.orders| && s.orders[k].user == user ::
              Cleared(s, user).orders[k].status != OrderPending
              && s.orders[k].tx < |s.txs| && Cleared(s, user).txs[s.orders[k].tx].status != Pending
  {
    var c := Cleared(s, user);
    forall k: nat | k < |s.orders| ensures OrderCoupled(c, k) {
      assert OrderCoupled(s, k) && OrderLinked(s, k);
    }
    forall j: nat, k: nat | j < |s.orders| && k < |s.orders| ensures PairCoupled(c, j, k) {
      assert PairCoupled(s, j, k) && OrderLinked(s, k);
    }
    forall k: nat | k < |s.orders| && s.orders[k].user == user
      ensures c.orders[k].status != OrderPending
      ensures s.orders[k].tx < |s.txs| && c.txs[s.orders[k].tx].status != Pending
    {
      assert OrderCoupled(s, k) && OrderLinked(s, k);
    }
  }

  /** The quota of the active order, if any, does not exceed that of a package. */
  predicate NotDowngrading(s: State, user: nat, p: Fee.PackageRow) {
    forall k: nat | k < |s.orders| :: s.orders[k].user == user && s.orders[k].status == OrderActive ==>
      s.orders[k].snapshot.maxPhotoQuota <= p.maxPhotoQuota
  }

  lemma PlaceOrderCoupled(
    s: State, user: nat, p: Fee.PackageRow, expiredAt: int, remain: Money, discount: Money, pay: PaymentMethod)
    requires Linked(s) && Coupled(s) && user < |s.users| && s.now < expiredAt && NotDowngrading(s, user, p)
    ensures Coupled(PlaceOrder(s, user, p, expiredAt, remain, discount, pay))
  {
    ClearedCoupled(s, user);
    var c := Cleared(s, user);
    var s' := PlaceOrder(s, user, p, expiredAt, remain, discount, pay);
    forall k: nat | k < |s'.orders| ensures OrderCoupled(s', k) {
      if k < |s.orders| {
        assert OrderCoupled(c, k) && OrderLinked(s, k);
      }
    }
    forall j: nat, k: nat | j < |s'.orders| && k < |s'.orders| ensures PairCoupled(s', j, k) {
      if j < |s.orders| && k < |s.orders| {
        assert PairCoupled(c, j, k) && OrderLinked(s, k);
      } else {
        assert j < |s.orders| ==> OrderCoupled(c, j) && OrderLinked(s, j);
        assert k < |s.orders| ==> OrderCoupled(c, k) && OrderLinked(s, k);
      }
    }
  }

  lemma ActivateOrderCoupled(s: State, id: nat)
    requires Linked(s) && Coupled(s) && id < |s.txs|
    requires s.txs[id].status == Pending && s.txs[id].kind == UpgradeToPhotographer
    ensures s.txs[id].link.OrderLink? && s.txs[id].link.order < |s.orders|
    ensures Coupled(ActivateOrder(s, id, s.txs[id].link.order))
  {
    assert TxLinked(s, id);
    var n := s.txs[id].link.order;
    var s' := ActivateOrder(s, id, n);
    assert OrderLinked(s, n) && OrderCoupled(s, n);
    forall k: nat | k < |s.orders| ensures OrderCoupled(s', k) {
      assert OrderCoupled(s, k) && OrderLinked(s, k);
      assert PairCoupled(s, k, n);
    }
    forall j: nat, k: nat | j < |s.orders| && k < |s.orders| ensures PairCoupled(s', j, k) {
      assert PairCoupled(s, j, k) && OrderLinked(s, k);
      assert PairCoupled(s, n, k) && OrderCoupled(s, k);
    }
  }

  /** The order that the fee is computed from is the user's only active one. */
  lemma QuoteFollowsActive(s: State, user: nat, pkg: Option<Fee.PackageRow>, months: real, q: Fee.Quote, k: nat)
    requires Linked(s) && Coupled(s) && months >= 0.0
    requires Fee.TransferFee(CurrentOrder(s, user), pkg, months, s.now) == Ok(q)
    requires k < |s.orders| && s.orders[k].user == user && s.orders[k].status == OrderActive
    ensures pkg.Some? && s.orders[k].snapshot.maxPhotoQuota <= pkg.value.maxPhotoQuota
    ensures s.orders[k].snapshot.id != pkg.value.id
    ensures s.orders[k].tx < |s.txs| && q.discount <= s.txs[s.orders[k].tx].amount
  {
    var f := FirstActive(s.orders, user, 0);
    assert PairCoupled(s, f.value, k);
    assert OrderLinked(s, k);
    var c := CurrentOrder(s, user).value;
    Fee.QuoteBounds(Fee.Price(pkg.value, months), c.paid, s.now - c.createdAt, c.expiredAt - c.createdAt);
  }

  lemma NoActiveNoDiscount(s: State, user: nat, pkg: Option<Fee.PackageRow>, months: real, q: Fee.Quote)
    requires months >= 0.0
    requires Fee.TransferFee(CurrentOrder(s, user), pkg, months, s.now) == Ok(q)
    requires forall k: nat | k < |s.orders| ::
               !(s.orders[k].user == user && s.orders[k].status == OrderActive)
    ensures q.discount == 0.0
  {
  }

  lemma UpgradeCoupled(s: State, user: nat, pkg: Option<Fee.PackageRow>, months: real, pay: PaymentMethod)
    requires Linked(s) && Coupled(s) && RequestUpgradePayment(s, user, pkg, months, pay).Done?
    ensures Coupled(RequestUpgradePayment(s, user, pkg, months, pay).state)
  {
    var q, expiredAt := AcceptedQuote(s, user, pkg, months, pay);
    forall k: nat | k < |s.orders| && s.orders[k].user == user && s.orders[k].status == OrderActive
      ensures s.orders[k].snapshot.maxPhotoQuota <= pkg.value.maxPhotoQuota
    {
      QuoteFollowsActive(s, user, pkg, months, q, k);
    }
    PlaceOrderCoupled(s, user, pkg.value, expiredAt, q.remain, q.discount, pay);
  }

  /** Every step, patched or not, keeps orders coupled to their transactions and quota limits. */
  lemma StepCoupled(s: State, e: Event)
    requires Linked(s) && Coupled(s)
    ensures Coupled(Next(s, e))
  {
    if !MovesOrders(s, e) {
      OtherStepsLeaveUpgrades(s, e);
      OrdersAlone(s, Next(s, e), e.EvPatch?);
    } else if Step(s, e).Done? {
      match e
      case EvWebhook(tx, transferAmount) => ActivateOrderCoupled(s, tx);
      case EvUpgrade(user, pkg, months, pay) => UpgradeCoupled(s, user, pkg, months, pay);
      case EvExpireOrders => ExpireCoupled(s);
    }
  }

  lemma {:induction false} RunCoupled(s: State, events: seq<Event>)
    requires Linked(s) && Coupled(s)
    ensures Linked(Run(s, events)) && Coupled(Run(s, events))
    decreases |events|
  {
    if events == [] {
    } else {
      StepLinked(s, events[0]);
      StepCoupled(s, events[0]);
      RunCoupled(Next(s, events[0]), events[1..]);
    }
  }

  lemma PlaceOrderUnpaid(
    s: State, user: nat, p: Fee.PackageRow, expiredAt: int, remain: Money, discount: Money, pay: PaymentMethod)
    requires Linked(s) && RequestsUnpaid(s) && s.now < expiredAt
    ensures RequestsUnpaid(PlaceOrder(s, user, p, expiredAt, remain, discount, pay))
  {
    var s' := PlaceOrder(s, user, p, expiredAt, remain, discount, pay);
    forall k: nat | k < |s'.orders| ensures Unpaid(s', k) {
      assert k < |s.orders| ==> Unpaid(s, k) && OrderLinked(s, k);
    }
  }

  lemma ActivateOrderUnpaid(s: State, id: nat, n: nat)
    requires Linked(s) && RequestsUnpaid(s) && id < |s.txs| && n < |s.orders| && s.txs[id].link == OrderLink(n)
    ensures RequestsUnpaid(ActivateOrder(s, id, n))
  {
    var s' := ActivateOrder(s, id, n);
    forall k: nat | k < |s'.orders| ensures Unpaid(s', k) {
      assert Unpaid(s, k) && OrderLinked(s, k);
    }
  }

  lemma UnpaidAlone(s: State, s': State)
    requires Linked(s) && RequestsUnpaid(s) && UpgradesAlone(s, s', false)
    ensures RequestsUnpaid(s')
  {
    forall k: nat | k < |s.orders| ensures Unpaid(s', k) {
      assert Unpaid(s, k) && OrderLinked(s, k);
    }
  }

  lemma ExpireUnpaid(s: State)
    requires RequestsUnpaid(s)
    ensures RequestsUnpaid(DeactivateExpiredOrder(s).state)
  {
    forall k: nat | k < |s.orders| ensures Unpaid(DeactivateExpiredOrder(s).state, k) {
      assert Unpaid(s, k);
    }
  }

  lemma StepUnpaid(s: State, e: Event)
    requires Linked(s) && RequestsUnpaid(s) && !e.EvPatch?
    ensures RequestsUnpaid(Next(s, e))
  {
    if !MovesOrders(s, e) {
      OtherStepsLeaveUpgrades(s, e);
      UnpaidAlone(s, Next(s, e));
    } else if Step(s, e).Done? {
      match e
      case EvWebhook(tx, transferAmount) => ActivateOrderUnpaid(s, tx, s.txs[tx].link.order);
      case EvUpgrade(user, pkg, months, pay) =>
        var q, expiredAt := AcceptedQuote(s, user, pkg, months, pay);
        PlaceOrderUnpaid(s, user, pkg.value, expiredAt, q.remain, q.discount, pay);
      case EvExpireOrders => ExpireUnpaid(s);
    }
  }

  lemma {:induction false} RunUnpaid(s: State, events: seq<Event>)
    requires Linked(s) && RequestsUnpaid(s) && Unpatched(events)
    ensures RequestsUnpaid(Run(s, events))
    decreases |events|
  {
    if events == [] {
    } else {
      assert events[0] in events;
      StepLinked(s, events[0]);
      StepUnpaid(s, events[0]);
      RunUnpaid(Next(s, events[0]), events[1..]);
    }
  }

  /** Every reachable state couples orders, transactions and quota limits; without patches pending
      orders are unpaid besides. */
  lemma OrdersFollowTransactions(events: seq<Event>)
    ensures Coupled(Run(INITIAL, events))
    ensures Unpatched(events) ==> RequestsUnpaid(Run(INITIAL, events))
  {
    RunCoupled(INITIAL, events);
    if Unpatched(events) {
      RunUnpaid(INITIAL, events);
    }
  }

  /** The manager's patch leaves pending orders unpaid exactly when it does not settle an upgrade: the
      order stays pending while its transaction is paid, failed or cancelled. */
  lemma PatchUnpaidExactly(s: State, id: nat, patch: Option<Status>)
    requires Linked(s) && Coupled(s) && RequestsUnpaid(s) && PatchStatus(s, id, patch).Done?
    ensures RequestsUnpaid(PatchStatus(s, id, patch).state)
       <==> !(s.txs[id].kind == UpgradeToPhotographer && patch.Some? && patch.value !in {Pending, Expired})
  {
    var s' := PatchStatus(s, id, patch).state;
    assert TxLinked(s, id);
    if s.txs[id].kind == UpgradeToPhotographer && patch.Some? && patch.value !in {Pending, Expired} {
      var k := s.txs[id].link.order;
      assert OrderCoupled(s, k) && !Unpaid(s', k);
    } else {
      forall k: nat | k < |s.orders| ensures Unpaid(s', k) {
        assert Unpaid(s, k) && OrderLinked(s, k);
      }
    }
  }

  // ---- the photo quota while an order is active ----

  predicate HasActive(s: State, user: nat) {
    FirstActive(s.orders, user, 0).Some?
  }

  /** No step lowers the photo quota of a user who has an active order, whether the step places a
      new order, or a webhook activates one requested long before. */
  lemma StepKeepsQuota(s: State, e: Event, user: nat)
    requires Linked(s) && Coupled(s) && user < |s.users| && HasActive(s, user)
    ensures user < |Next(s, e).users|
    ensures s.users[user].maxPhotoQuota <= Next(s, e).users[user].maxPhotoQuota
  {
    var k := FirstActive(s.orders, user, 0).value;
    assert OrderCoupled(s, k);
    if Step(s, e).Done? {
      match e
      case EvUpgrade(u, pkg, months, pay) =>
        var q, expiredAt := AcceptedQuote(s, u, pkg, months, pay);
        if u == user {
          QuoteFollowsActive(s, user, pkg, months, q, k);
        }
      case EvWebhook(tx, transferAmount) =>
        if s.txs[tx].status == Pending && s.txs[tx].kind == UpgradeToPhotographer {
          assert TxLinked(s, tx);
          var n := s.txs[tx].link.order;
          assert OrderLinked(s, n) && OrderCoupled(s, n) && PairCoupled(s, k, n);
        }
      case _ =>
    }
  }

  /** The expiry tick takes the active order from exactly the users whose order has lapsed; these
      are left without a public photo or a bookable package, and the others keep theirs. */
  lemma LapsedUsersGoDark(s: State, user: nat)
    requires Linked(s) && Coupled(s)
    ensures var s', lapsed := Next(s, EvExpireOrders), Lapsed(s.orders, s.now, user);
      && (HasActive(s', user) <==> HasActive(s, user) && !lapsed)
      && |s'.photos| == |s.photos| && |s'.packages| == |s.packages|
      && (forall i: nat | i < |s.photos| && !s.photos[i].deleted && s.photos[i].photographer == user ::
            s'.photos[i].visibility == if lapsed then Private else s.photos[i].visibility)
      && (forall i: nat | i < |s.packages| && s.packages[i].user == user ::
            s'.packages[i].enabled <==> s.packages[i].enabled && !lapsed)
  {
    var s' := Next(s, EvExpireOrders);
    var before := FirstActive(s.orders, user, 0);
    if before.Some? && Lapsed(s.orders, s.now, user) {
      var k :| 0 <= k < |s.orders| && s.orders[k].user == user && Overdue(s.orders[k], s.now);
      forall j: nat | j < |s.orders| && s.orders[j].user == user && s.orders[j].status == OrderActive
        ensures Overdue(s.orders[j], s.now)
      {
        assert PairCoupled(s, j, k);
      }
    } else if before.Some? {
      assert s'.orders[before.value] == s.orders[before.value];
    }
  }

  /** The user has an active order before each event. */
  predicate ActiveThroughout(s: State, events: seq<Event>, user: nat)
    decreases |events|
  {
    events == [] || (HasActive(s, user) && ActiveThroughout(Next(s, events[0]), events[1..], user))
  }

  lemma {:induction false} QuotaNeverDrops(s: State, events: seq<Event>, user: nat)
    requires Linked(s) && Coupled(s) && user < |s.users|
    requires ActiveThroughout(s, events, user)
    ensures user < |Run(s, events).users|
    ensures s.users[user].maxPhotoQuota <= Run(s, events).users[user].maxPhotoQuota
    decreases |events|
  {
    if events == [] {
    } else {
      StepLinked(s, events[0]);
      StepCoupled(s, events[0]);
      StepKeepsQuota(s, events[0], user);
      QuotaNeverDrops(Next(s, events[0]), events[1..], user);
    }
  }

  predicate RefusedAsDowngrade(s: State, user: nat, pkg: Fee.PackageRow, months: real)
    requires months >= 0.0
  {
    Fee.TransferFee(CurrentOrder(s, user), Some(pkg), months, s.now) == Err(Fee.CannotDowngradeOrder)
  }

  /** A user with an active order is refused as downgrading exactly the packages with less photo
      quota than the user's own limit. */
  lemma DowngradesFollowLimits(s: State, user: nat, pkg: Fee.PackageRow, months: real)
    requires Linked(s) && Coupled(s) && months >= 0.0 && user < |s.users| && HasActive(s, user)
    ensures RefusedAsDowngrade(s, user, pkg, months) <==> pkg.maxPhotoQuota < s.users[user].maxPhotoQuota
  {
    assert OrderCoupled(s, FirstActive(s.orders, user, 0).value);
  }

  /** While a user stays active, a package once refused as a downgrade stays refused, whatever
      happens and for however many months it is asked for. */
  lemma DowngradesStayRefused(s: State, events: seq<Event>, user: nat, pkg: Fee.PackageRow, months: real, later: real)
    requires Linked(s) && Coupled(s) && user < |s.users|
    requires ActiveThroughout(s, events, user) && HasActive(s, user) && HasActive(Run(s, events), user)
    requires months >= 0.0 && later >= 0.0 && RefusedAsDowngrade(s, user, pkg, months)
    ensures RefusedAsDowngrade(Run(s, events), user, pkg, later)
  {
    DowngradesFollowLimits(s, user, pkg, months);
    QuotaNeverDrops(s, events, user);
    RunCoupled(s, events);
    DowngradesFollowLimits(Run(s, events), user, pkg, later);
  }

  // ---- how long an order lasts ----

  predicate Lasts(createdAt: int, expiredAt: int, minMonths: int) {
    Calendar.AddMonthsAsCoded(createdAt, minMonths) <= expiredAt <= Calendar.AddMonthsAsCoded(createdAt, 12)
  }

  predicate LastsLongEnough(o: Order) {
    Lasts(o.createdAt, o.expiredAt, o.snapshot.minOrderMonth)
  }

  ghost predicate AllLastLongEnough(orders: seq<Order>) {
    forall k: nat | k < |orders| :: LastsLongEnough(orders[k])
  }

  lemma MoreMonthsLater(t: int, m: int, n: int)
    requires m <= n
    ensures Calendar.AddMonthsAsCoded(t, m) <= Calendar.AddMonthsAsCoded(t, n)
  {
    if m < n {
      Calendar.StepMonthsStrict(t, m, n, true);
    }
  }

  /** One order more, of the given span; the others change their status alone. */
  lemma OneOrderMore(
    s: State, user: nat, p: Fee.PackageRow, expiredAt: int, remain: Money, discount: Money, pay: PaymentMethod)
    requires s.now < expiredAt
    ensures var orders := PlaceOrder(s, user, p, expiredAt, remain, discount, pay).orders;
      && |orders| == |s.orders| + 1
      && (forall k: nat | k < |s.orders| :: orders[k] == s.orders[k].(status := orders[k].status))
      && var o := orders[|s.orders|]; o.createdAt == s.now && o.expiredAt == expiredAt && o.snapshot == p
  {
  }

  lemma SpansLastLongEnough(before: seq<Order>, after: seq<Order>)
    requires AllLastLongEnough(before) && |before| <= |after|
    requires forall k: nat | k < |before| :: after[k] == before[k].(status := after[k].status)
    requires forall k: nat | |before| <= k < |after| :: LastsLongEnough(after[k])
    ensures AllLastLongEnough(after)
  {
    forall k: nat | k < |after| ensures LastsLongEnough(after[k]) {
      assert k < |before| ==> LastsLongEnough(before[k]);
    }
  }

  lemma UpgradeLastsLongEnough(s: State, user: nat, pkg: Option<Fee.PackageRow>, months: real, pay: PaymentMethod)
    requires AllLastLongEnough(s.orders) && RequestUpgradePayment(s, user, pkg, months, pay).Done?
    ensures AllLastLongEnough(RequestUpgradePayment(s, user, pkg, months, pay).state.orders)
  {
    var q, expiredAt := AcceptedQuote(s, user, pkg, months, pay);
    MoreMonthsLater(s.now, pkg.value.minOrderMonth, months.Floor);
    MoreMonthsLater(s.now, months.Floor, 12);
    assert Lasts(s.now, expiredAt, pkg.value.minOrderMonth);
    OneOrderMore(s, user, pkg.value, expiredAt, q.remain, q.discount, pay);
    SpansLastLongEnough(s.orders, PlaceOrder(s, user, pkg.value, expiredAt, q.remain, q.discount, pay).orders);
  }

  lemma OnlyUpgradesPlaceOrders(s: State, e: Event)
    requires !e.EvUpgrade?
    ensures |Next(s, e).orders| == |s.orders|
    ensures forall k: nat | k < |s.orders| ::
              Next(s, e).orders[k] == s.orders[k].(status := Next(s, e).orders[k].status)
  {
  }

  lemma {:induction false} RunLastsLongEnough(s: State, events: seq<Event>)
    requires AllLastLongEnough(s.orders)
    ensures AllLastLongEnough(Run(s, events).orders)
    decreases |events|
  {
    if events == [] {
    } else {
      var e := events[0];
      if !e.EvUpgrade? {
        OnlyUpgradesPlaceOrders(s, e);
        SpansLastLongEnough(s.orders, Next(s, e).orders);
      } else if Step(s, e).Done? {
        UpgradeLastsLongEnough(s, e.user, e.pkg, e.months, e.pay);
      }
      RunLastsLongEnough(Next(s, e), events[1..]);
    }
  }

  /** Every order of every run, patched or not, lasts at least the minimum of months of its package
      and at most twelve. */
  lemma OrdersLastLongEnough(events: seq<Event>)
    ensures AllLastLongEnough(Run(INITIAL, events).orders)
  {
    RunLastsLongEnough(INITIAL, events);
  }

  // ---- credit over a whole upgrade history ----

  predicate PaidUpgrade(t: Tx, user: nat) {
    t.user == user && t.kind == UpgradeToPhotographer && t.status == Success
  }

  predicate IsPending(t: Tx, orders: seq<Order>) {
    t.link.OrderLink? && t.link.order < |orders| && orders[t.link.order].status == OrderPending
  }

  /** All upgrades a user paid for. */
  function PaidUpgrades(user: nat): Tx -> bool {
    (t: Tx) => PaidUpgrade(t, user)
  }

  /** Those whose order has left the pending state. A patch can declare an upgrade paid while its
      order stays pending; only the bank's webhook and the wallet activate the order as well. */
  function PaidOrders(user: nat, orders: seq<Order>): Tx -> bool {
    (t: Tx) => PaidUpgrade(t, user) && !IsPending(t, orders)
  }

  function DeclaredPaid(user: nat, orders: seq<Order>): Tx -> bool {
    (t: Tx) => PaidUpgrade(t, user) && IsPending(t, orders)
  }

  function Paid(counts: Tx -> bool): Tx -> real {
    (t: Tx) => if counts(t) then t.amount else 0.0
  }

  function Credited(counts: Tx -> bool): Tx -> real {
    (t: Tx) => if counts(t) then t.fee else 0.0
  }

  function Net(counts: Tx -> bool): Tx -> real {
    (t: Tx) => if counts(t) then t.amount - t.fee else 0.0
  }

  /** What a user paid for orders and was not credited for later ones. */
  function Uncredited(s: State, user: nat): real {
    Sum(Net(PaidOrders(user, s.orders)), s.txs)
  }

  /** The payment of an active order has not been credited yet, and the credit promised to a pending
      one is there to be given. */
  predicate BackedAt(s: State, user: nat, k: nat)
    requires k < |s.orders|
  {
    var o := s.orders[k];
    o.user == user && o.tx < |s.txs| ==>
      && (o.status == OrderActive ==> s.txs[o.tx].amount <= Uncredited(s, user))
      && (o.status == OrderPending ==> s.txs[o.tx].fee <= Uncredited(s, user))
  }

  ghost predicate Backed(s: State, user: nat) {
    0.0 <= Uncredited(s, user) && forall k: nat | k < |s.orders| :: BackedAt(s, user, k)
  }

  lemma OrdersAloneBacked(s: State, s': State, patched: bool, user: nat)
    requires Linked(s) && Coupled(s) && Backed(s, user) && UpgradesAlone(s, s', patched)
    ensures Backed(s', user)
  {
    var f := Net(PaidOrders(user, s.orders));
    forall i: nat | i < |s.txs| ensures f(s.txs[i]) == f(s'.txs[i]) {
      assert TxLinked(s, i);
      if s.txs[i].kind == UpgradeToPhotographer {
        assert OrderCoupled(s, s.txs[i].link.order) && UpgradeKept(s.txs[i], s'.txs[i], patched);
      }
    }
    SumExtend(f, s.txs, s'.txs);
    forall k: nat | k < |s.orders| ensures BackedAt(s', user, k) {
      assert BackedAt(s, user, k) && OrderLinked(s, k);
    }
  }

  lemma ExpireBacked(s: State, user: nat)
    requires Backed(s, user)
    ensures Backed(DeactivateExpiredOrder(s).state, user)
  {
    var s' := DeactivateExpiredOrder(s).state;
    SumPointwise(Net(PaidOrders(user, s.orders)), Net(PaidOrders(user, s'.orders)), s.txs, s'.txs);
    forall k: nat | k < |s.orders| ensures BackedAt(s', user, k) {
      assert BackedAt(s, user, k);
    }
  }

  /** Cancelling requests credits and refunds nothing, declared paid or not. */
  lemma ClearedUncredited(s: State, user: nat, u: nat)
    ensures Uncredited(Cleared(s, user), u) == Uncredited(s, u)
  {
    var c := Cleared(s, user);
    SumPointwise(Net(PaidOrders(u, s.orders)), Net(PaidOrders(u, c.orders)), s.txs, c.txs);
  }

  /** Placing an order adds its own price less its discount, once it is active. */
  lemma PlaceOrderUncredited(
    s: State, user: nat, p: Fee.PackageRow, expiredAt: int, remain: Money, discount: Money, pay: PaymentMethod,
    u: nat)
    requires Linked(s) && s.now < expiredAt
    ensures Uncredited(PlaceOrder(s, user, p, expiredAt, remain, discount, pay), u)
         == Uncredited(s, u) + if pay == Wallet && u == user then remain - discount else 0.0
  {
    var c := Cleared(s, user);
    var s' := PlaceOrder(s, user, p, expiredAt, remain, discount, pay);
    var f, g := Net(PaidOrders(u, c.orders)), Net(PaidOrders(u, s'.orders));
    ClearedUncredited(s, user, u);
    forall i: nat | i < |s.txs| ensures f(c.txs[i]) == g(c.txs[i]) {
      assert TxLinked(s, i);
    }
    SumPointwise(f, g, c.txs, c.txs);
    assert s'.txs == c.txs + [s'.txs[|s.txs|]];
    SumAppend(g, c.txs, s'.txs[|s.txs|]);
  }

  lemma PlaceOrderBacked(
    s: State, user: nat, p: Fee.PackageRow, expiredAt: int, remain: Money, discount: Money, pay: PaymentMethod,
    u: nat)
    requires Linked(s) && Coupled(s) && Backed(s, u) && s.now < expiredAt
    requires u == user ==> discount <= Uncredited(s, u)
    ensures Backed(PlaceOrder(s, user, p, expiredAt, remain, discount, pay), u)
  {
    var s' := PlaceOrder(s, user, p, expiredAt, remain, discount, pay);
    PlaceOrderUncredited(s, user, p, expiredAt, remain, discount, pay, u);
    forall k: nat | k < |s'.orders| ensures BackedAt(s', u, k) {
      if k < |s.orders| {
        assert BackedAt(s, u, k) && OrderLinked(s, k);
      }
    }
  }

  lemma ActivateOrderUncredited(s: State, id: nat, n: nat, u: nat)
    requires Linked(s) && Coupled(s) && id < |s.txs| && n < |s.orders|
    requires s.txs[id].status == Pending && s.txs[id].kind == UpgradeToPhotographer && s.txs[id].link == OrderLink(n)
    ensures Uncredited(ActivateOrder(s, id, n), u)
         == Uncredited(s, u) + if s.txs[id].user == u then s.txs[id].amount - s.txs[id].fee else 0.0
  {
    var s' := ActivateOrder(s, id, n);
    var f, g := Net(PaidOrders(u, s.orders)), Net(PaidOrders(u, s'.orders));
    assert TxLinked(s, id) && OrderCoupled(s, n);
    forall i: nat | i < |s.txs| ensures f(s.txs[i]) == g(s.txs[i]) {
      assert TxLinked(s, i);
    }
    SumPointwise(f, g, s.txs, s.txs);
    SumUpdate(g, s.txs, id, s'.txs[id]);
  }

  lemma ActivateOrderBacked(s: State, id: nat, n: nat, u: nat)
    requires Linked(s) && Coupled(s) && Backed(s, u) && id < |s.txs| && n < |s.orders|
    requires s.txs[id].status == Pending && s.txs[id].kind == UpgradeToPhotographer && s.txs[id].link == OrderLink(n)
    ensures Backed(ActivateOrder(s, id, n), u)
  {
    var s' := ActivateOrder(s, id, n);
    ActivateOrderUncredited(s, id, n, u);
    assert TxLinked(s, id) && OrderLinked(s, n) && BackedAt(s, u, n) && OrderCoupled(s, n);
    forall k: nat | k < |s'.orders| ensures BackedAt(s', u, k) {
      assert BackedAt(s, u, k) && OrderLinked(s, k) && PairCoupled(s, k, n);
    }
  }

  lemma UpgradeBacked(s: State, user: nat, pkg: Option<Fee.PackageRow>, months: real, pay: PaymentMethod, u: nat)
    requires Linked(s) && Coupled(s) && Backed(s, u)
    requires RequestUpgradePayment(s, user, pkg, months, pay).Done?
    ensures Backed(RequestUpgradePayment(s, user, pkg, months, pay).state, u)
  {
    var q, expiredAt := AcceptedQuote(s, user, pkg, months, pay);
    if u == user {
      var f := FirstActive(s.orders, user, 0);
      if f.Some? {
        QuoteFollowsActive(s, user, pkg, months, q, f.value);
        assert BackedAt(s, u, f.value);
      } else {
        NoActiveNoDiscount(s, user, pkg, months, q);
      }
    }
    PlaceOrderBacked(s, user, pkg.value, expiredAt, q.remain, q.discount, pay, u);
  }

  lemma StepBacked(s: State, e: Event, u: nat)
    requires Linked(s) && Coupled(s) && Backed(s, u)
    ensures Backed(Next(s, e), u)
  {
    if !MovesOrders(s, e) {
      OtherStepsLeaveUpgrades(s, e);
      OrdersAloneBacked(s, Next(s, e), e.EvPatch?, u);
    } else if Step(s, e).Done? {
      match e
      case EvUpgrade(user, pkg, months, pay) => UpgradeBacked(s, user, pkg, months, pay, u);
      case EvExpireOrders => ExpireBacked(s, u);
      case EvWebhook(tx, transferAmount) => ActivateOrderBacked(s, tx, s.txs[tx].link.order, u);
    }
  }

  lemma {:induction false} RunBacked(s: State, events: seq<Event>, u: nat)
    requires Linked(s) && Coupled(s) && Backed(s, u)
    ensures Backed(Run(s, events), u)
    decreases |events|
  {
    if events == [] {
    } else {
      StepLinked(s, events[0]);
      StepCoupled(s, events[0]);
      StepBacked(s, events[0], u);
      RunBacked(Next(s, events[0]), events[1..], u);
    }
  }

  lemma {:induction false} NetIsDifference(counts: Tx -> bool, rows: seq<Tx>)
    ensures Sum(Net(counts), rows) == Sum(Paid(counts), rows) - Sum(Credited(counts), rows)
  {
    if rows == [] {
    } else {
      NetIsDifference(counts, rows[1..]);
    }
  }

  /** At most one upgrade of a user is declared paid while its order is pending. */
  lemma OneDeclaredPaid(s: State, user: nat, i: nat, j: nat)
    requires Linked(s) && Coupled(s) && i < |s.txs| && j < |s.txs|
    requires DeclaredPaid(user, s.orders)(s.txs[i]) && DeclaredPaid(user, s.orders)(s.txs[j])
    ensures i == j
  {
    assert TxLinked(s, i) && TxLinked(s, j);
    var k, l := s.txs[i].link.order, s.txs[j].link.order;
    assert OrderLinked(s, k) && OrderLinked(s, l) && PairCoupled(s, k, l);
  }

  /** Its discount is backed by the payments for other orders. */
  lemma DeclaredPaidIsBacked(s: State, user: nat)
    requires Linked(s) && Coupled(s) && Backed(s, user)
    ensures 0.0 <= Uncredited(s, user) + Sum(Net(DeclaredPaid(user, s.orders)), s.txs)
  {
    var f := Net(DeclaredPaid(user, s.orders));
    if i: nat :| i < |s.txs| && DeclaredPaid(user, s.orders)(s.txs[i]) {
      forall j: nat | j < |s.txs| && j != i ensures f(s.txs[j]) == 0.0 {
        if DeclaredPaid(user, s.orders)(s.txs[j]) {
          OneDeclaredPaid(s, user, i, j);
        }
      }
      SumOfOne(f, s.txs, i);
      assert TxLinked(s, i);
      assert OrderLinked(s, s.txs[i].link.order) && BackedAt(s, user, s.txs[i].link.order);
    } else {
      SumOfZeros(f, s.txs);
    }
  }

  /** Over a whole upgrade history, patched or not, no user is credited more than was paid: each
      order's payment is credited to at most one later order, whatever was requested, cancelled,
      expired or declared paid between. So it is for all paid upgrades, and for those whose order has
      left the pending state. */
  lemma CreditIsBounded(events: seq<Event>, user: nat)
    ensures var s := Run(INITIAL, events);
      && Sum(Credited(PaidUpgrades(user)), s.txs) <= Sum(Paid(PaidUpgrades(user)), s.txs)
      && Sum(Credited(PaidOrders(user, s.orders)), s.txs) <= Sum(Paid(PaidOrders(user, s.orders)), s.txs)
  {
    RunCoupled(INITIAL, events);
    RunBacked(INITIAL, events, user);
    var s := Run(INITIAL, events);
    DeclaredPaidIsBacked(s, user);
    SumDifference(Net(PaidUpgrades(user)), Net(PaidOrders(user, s.orders)), Net(DeclaredPaid(user, s.orders)),
                  s.txs, s.txs);
    NetIsDifference(PaidUpgrades(user), s.txs);
    NetIsDifference(PaidOrders(user, s.orders), s.txs);
  }
}
