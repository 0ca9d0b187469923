/** How the rows of the tables refer to each other in every reachable state, patched or not. */
module MarketLinks {
  import opened Wrappers
  import opened Ledger
  import opened Market
  import Fee
  import Calendar

  /** An order and its transaction name each other; a pending order awaits a bank transfer. */
  predicate OrderLinked(s: State, k: nat)
    requires k < |s.orders|
  {
    var o := s.orders[k];
    && o.tx < |s.txs|
    && s.txs[o.tx].kind == UpgradeToPhotographer
    && s.txs[o.tx].link == OrderLink(k)
    && s.txs[o.tx].user == o.user
    && o.createdAt <= s.now
    && (o.status == OrderPending ==> s.txs[o.tx].pay == Sepay)
  }

  /** A purchase and its buying transaction name each other and agree on the price, of which a
      tenth is the fee; so does its selling transaction, once there is one. */
  predicate PurchaseLinked(s: State, k: nat)
    requires k < |s.purchases|
  {
    var p := s.purchases[k];
    && p.buyTx < |s.txs|
    && p.buyer != p.toUser
    && s.txs[p.buyTx].kind == ImageBuy
    && s.txs[p.buyTx].link == PurchaseLink(k)
    && s.txs[p.buyTx].user == p.buyer
    && s.txs[p.buyTx].amount == p.price
    && s.txs[p.buyTx].fee == FeeOf(p.price)
    && p.toUser < |s.users|
    && (p.sellTx.Some? ==> p.sellTx.value < |s.txs| && IsSellRow(s.txs[p.sellTx.value], k, p))
    && (s.txs[p.buyTx].status == Pending ==> p.sellTx.None?)
  }

  predicate IsSellRow(t: Tx, k: nat, p: Purchase) {
    t.kind == ImageSell && t.link == PurchaseLink(k) && t.user == p.toUser
    && t.status == Success && t.amount == p.price && t.fee == FeeOf(p.price)
  }

  predicate TxLinked(s: State, i: nat)
    requires i < |s.txs|
  {
    var t := s.txs[i];
    && t.user < |s.users|
    && match t.kind
       case Deposit => t.pay == Sepay && t.link == NoLink
       case Withdrawal => t.pay == Wallet && t.link == NoLink
       case UpgradeToPhotographer =>
         t.link.OrderLink? && t.link.order < |s.orders| && s.orders[t.link.order].tx == i
         && (t.pay == Wallet ==> t.status == Success)
       case ImageBuy =>
         t.link.PurchaseLink? && t.link.purchase < |s.purchases| && s.purchases[t.link.purchase].buyTx == i
         && (t.pay == Wallet ==> t.status == Success)
       case ImageSell =>
         t.link.PurchaseLink? && t.link.purchase < |s.purchases|
         && s.purchases[t.link.purchase].sellTx == Some(i)
       case RefundFromBuyImage => false
  }

  ghost predicate Linked(s: State) {
    && (forall k: nat | k < |s.orders| :: OrderLinked(s, k))
    && (forall k: nat | k < |s.purchases| :: PurchaseLinked(s, k))
    && (forall i: nat | i < |s.txs| :: TxLinked(s, i))
    && PhotosOwned(s)
  }

  predicate PhotosOwned(s: State) {
    forall i :: 0 <= i < |s.photos| ==> s.photos[i].photographer < |s.users|
  }

  /** A change of status that leaves settled rows settled and reopens none. */
  predicate Restated(t: Tx, t': Tx) {
    && t' == t.(status := t'.status)
    && (t.status == Success ==> t'.status == Success || (t.pay == Sepay && t.kind == UpgradeToPhotographer))
    && (t'.status == Pending ==> t.status == Pending)
  }

  lemma RestatedLinked(s: State, txs: seq<Tx>)
    requires Linked(s) && |txs| == |s.txs|
    requires forall i: nat | i < |txs| :: Restated(s.txs[i], txs[i])
    ensures Linked(s.(txs := txs))
  {
    var s' := s.(txs := txs);
    forall k: nat | k < |s.orders| ensures OrderLinked(s', k) {
      assert OrderLinked(s, k) && Restated(s.txs[s.orders[k].tx], txs[s.orders[k].tx]);
    }
    forall k: nat | k < |s.purchases| ensures PurchaseLinked(s', k) {
      var p := s.purchases[k];
      assert PurchaseLinked(s, k) && Restated(s.txs[p.buyTx], txs[p.buyTx]);
      assert p.sellTx.Some? ==> Restated(s.txs[p.sellTx.value], txs[p.sellTx.value]);
    }
    forall i: nat | i < |txs| ensures TxLinked(s', i) {
      assert TxLinked(s, i) && Restated(s.txs[i], txs[i]);
    }
  }

  lemma AppendedLinked(s: State, t: Tx)
    requires Linked(s) && t.user < |s.users| && t.link == NoLink
    requires (t.kind == Deposit && t.pay == Sepay) || (t.kind == Withdrawal && t.pay == Wallet)
    ensures Linked(s.(txs := s.txs + [t]))
  {
    var s' := s.(txs := s.txs + [t]);
    forall k: nat | k < |s.orders| ensures OrderLinked(s', k) {
      assert OrderLinked(s, k);
    }
    forall k: nat | k < |s.purchases| ensures PurchaseLinked(s', k) {
      assert PurchaseLinked(s, k);
    }
    forall i: nat | i < |s'.txs| ensures TxLinked(s', i) {
      assert i < |s.txs| ==> TxLinked(s, i);
    }
  }

  lemma StatusLinked(s: State, id: nat, status: Status)
    requires Linked(s) && id < |s.txs| && s.txs[id].status == Pending
    ensures Linked(WithStatus(s, id, status))
  {
    assert TxLinked(s, id);
    RestatedLinked(s, WithStatus(s, id, status).txs);
  }

  lemma OrdersRestatedLinked(s: State, orders: seq<Order>, users: seq<User>)
    requires Linked(s) && |orders| == |s.orders| && |users| == |s.users|
    requires forall k: nat | k < |orders| ::
               orders[k] == s.orders[k].(status := orders[k].status)
               && (orders[k].status == OrderPending ==> s.orders[k].status == OrderPending)
    ensures Linked(s.(orders := orders, users := users))
  {
    var s' := s.(orders := orders, users := users);
    forall k: nat | k < |orders| ensures OrderLinked(s', k) {
      assert OrderLinked(s, k);
    }
    forall k: nat | k < |s.purchases| ensures PurchaseLinked(s', k) {
      assert PurchaseLinked(s, k);
    }
    forall i: nat | i < |s.txs| ensures TxLinked(s', i) {
      assert TxLinked(s, i);
    }
  }

  lemma NewOrderLinked(s: State, o: Order, t: Tx)
    requires Linked(s) && o.tx == |s.txs| && o.createdAt <= s.now
    requires t.user == o.user < |s.users| && t.kind == UpgradeToPhotographer && t.link == OrderLink(|s.orders|)
    requires t.pay == Wallet ==> t.status == Success && o.status != OrderPending
    ensures Linked(s.(txs := s.txs + [t], orders := s.orders + [o]))
  {
    var s' := s.(txs := s.txs + [t], orders := s.orders + [o]);
    forall k: nat | k < |s'.orders| ensures OrderLinked(s', k) {
      assert k < |s.orders| ==> OrderLinked(s, k);
    }
    forall k: nat | k < |s.purchases| ensures PurchaseLinked(s', k) {
      assert PurchaseLinked(s, k);
    }
    forall i: nat | i < |s'.txs| ensures TxLinked(s', i) {
      assert i < |s.txs| ==> TxLinked(s, i);
    }
  }

  /** The state once a user's pending orders are cancelled and the active ones given a status. */
  function Cleared(s: State, user: nat): State {
    s.(txs := CancelOrderTxs(s.txs, s.orders, user), orders := CancelPendingOrders(s.orders, user))
  }

  lemma ClearedLinked(s: State, user: nat)
    requires Linked(s)
    ensures Linked(Cleared(s, user))
  {
    var txs := CancelOrderTxs(s.txs, s.orders, user);
    forall i: nat | i < |txs| ensures Restated(s.txs[i], txs[i]) {
      assert TxLinked(s, i);
      assert s.txs[i].link.OrderLink? && s.txs[i].link.order < |s.orders| ==> OrderLinked(s, s.txs[i].link.order);
    }
    RestatedLinked(s, txs);
    OrdersRestatedLinked(s.(txs := txs), CancelPendingOrders(s.orders, user), s.users);
  }

  lemma PlaceOrderLinked(
    s: State, user: nat, p: Fee.PackageRow, expiredAt: int, remain: Money, discount: Money, pay: PaymentMethod)
    requires Linked(s) && user < |s.users| && s.now < expiredAt
    ensures Linked(PlaceOrder(s, user, p, expiredAt, remain, discount, pay))
  {
    ClearedLinked(s, user);
    var c := Cleared(s, user);
    var s' := PlaceOrder(s, user, p, expiredAt, remain, discount, pay);
    var o, t := s'.orders[|s.orders|], s'.txs[|s.txs|];
    if pay == Sepay {
      NewOrderLinked(c, o, t);
      assert s' == c.(txs := c.txs + [t], orders := c.orders + [o]);
    } else {
      var d := c.(orders := CloseActive(c.orders, user, OrderExpire), users := WithLimits(s.users, user, p));
      OrdersRestatedLinked(c, d.orders, d.users);
      NewOrderLinked(d, o, t);
      assert s' == d.(txs := d.txs + [t], orders := d.orders + [o]);
    }
  }

  lemma ActivateOrderLinked(s: State, id: nat)
    requires Linked(s) && id < |s.txs| && s.txs[id].status == Pending && s.txs[id].link.OrderLink?
    requires s.txs[id].link.order < |s.orders|
    ensures Linked(ActivateOrder(s, id, s.txs[id].link.order))
  {
    var k := s.txs[id].link.order;
    var s' := ActivateOrder(s, id, k);
    StatusLinked(s, id, Success);
    OrdersRestatedLinked(WithStatus(s, id, Success), s'.orders, s'.users);
  }

  lemma SettlePurchaseLinked(s: State, id: nat)
    requires Linked(s) && id < |s.txs| && s.txs[id].status == Pending && s.txs[id].kind == ImageBuy
    ensures s.txs[id].link.PurchaseLink? && s.txs[id].link.purchase < |s.purchases|
    ensures Linked(SettlePurchase(s, id, s.txs[id].link.purchase))
  {
    assert TxLinked(s, id);
    var k := s.txs[id].link.purchase;
    var s' := SettlePurchase(s, id, k);
    assert PurchaseLinked(s, k);
    forall j: nat | j < |s.orders| ensures OrderLinked(s', j) {
      assert OrderLinked(s, j);
    }
    forall j: nat | j < |s.purchases| ensures PurchaseLinked(s', j) {
      assert PurchaseLinked(s, j);
    }
    forall i: nat | i < |s'.txs| ensures TxLinked(s', i) {
      assert i < |s.txs| ==> TxLinked(s, i);
    }
  }

  lemma CancelOffersLinked(s: State, buyer: nat, selling: nat, tag: Tag)
    requires Linked(s)
    ensures Linked(s.(txs := CancelOffers(s.txs, s.purchases, buyer, selling, tag)))
  {
    RestatedLinked(s, CancelOffers(s.txs, s.purchases, buyer, selling, tag));
  }

  /** Appending a purchase with its rows. */
  lemma NewPurchaseLinked(s: State, p: Purchase, rows: seq<Tx>)
    requires Linked(s) && p.buyer < |s.users| && p.toUser < |s.users| && p.buyer != p.toUser
    requires p.buyTx == |s.txs| && 1 <= |rows| <= 2
    requires rows[0].kind == ImageBuy && rows[0].link == PurchaseLink(|s.purchases|) && rows[0].user == p.buyer
    requires rows[0].amount == p.price && rows[0].fee == FeeOf(p.price)
    requires |rows| == 1 ==> p.sellTx.None? && rows[0].pay == Sepay
    requires |rows| == 2 ==> p.sellTx == Some(|s.txs| + 1) && rows[0].status == Success
                             && IsSellRow(rows[1], |s.purchases|, p)
    ensures Linked(s.(txs := s.txs + rows, purchases := s.purchases + [p]))
  {
    var s' := s.(txs := s.txs + rows, purchases := s.purchases + [p]);
    forall k: nat | k < |s.orders| ensures OrderLinked(s', k) {
      assert OrderLinked(s, k);
    }
    forall k: nat | k < |s'.purchases| ensures PurchaseLinked(s', k) {
      assert k < |s.purchases| ==> PurchaseLinked(s, k);
    }
    forall i: nat | i < |s'.txs| ensures TxLinked(s', i) {
      assert i < |s.txs| ==> TxLinked(s, i);
    }
  }

  lemma RecordPurchaseLinked(s: State, buyer: nat, selling: nat, tag: Tag, toUser: nat, pay: PaymentMethod)
    requires Linked(s) && buyer < |s.users| && toUser < |s.users| && buyer != toUser
    ensures Linked(RecordPurchase(s, buyer, selling, tag, toUser, pay))
  {
    CancelOffersLinked(s, buyer, selling, tag);
    var c := s.(txs := CancelOffers(s.txs, s.purchases, buyer, selling, tag));
    var s' := RecordPurchase(s, buyer, selling, tag, toUser, pay);
    var rows := s'.txs[|s.txs|..];
    assert s'.txs == c.txs + rows;
    NewPurchaseLinked(c, s'.purchases[|s.purchases|], rows);
  }

  /** The shapes of the rows that may wait for a decision or a transfer. */
  lemma PendingShape(s: State, id: nat)
    requires Linked(s) && id < |s.txs| && s.txs[id].status == Pending
    ensures s.txs[id].kind in {Deposit, Withdrawal, ImageBuy, UpgradeToPhotographer}
    ensures s.txs[id].kind == Withdrawal <==> s.txs[id].pay == Wallet
  {
    assert TxLinked(s, id);
    assert s.txs[id].kind == ImageSell ==> PurchaseLinked(s, s.txs[id].link.purchase);
  }

  /** Steps that touch no transaction, order or purchase. */
  lemma SurroundingsLinked(s: State, s': State)
    requires Linked(s) && PhotosOwned(s')
    requires s'.txs == s.txs && s'.orders == s.orders && s'.purchases == s.purchases
    requires |s.users| <= |s'.users| && s.now <= s'.now
    ensures Linked(s')
  {
    forall k: nat | k < |s'.orders| ensures OrderLinked(s', k) {
      assert OrderLinked(s, k);
    }
    forall k: nat | k < |s'.purchases| ensures PurchaseLinked(s', k) {
      assert PurchaseLinked(s, k);
    }
    forall i: nat | i < |s'.txs| ensures TxLinked(s', i) {
      assert TxLinked(s, i);
    }
  }

  lemma ProcessLinked(s: State, id: nat, transferAmount: real)
    requires Linked(s) && ProcessTransaction(s, id, transferAmount).Done?
    ensures Linked(ProcessTransaction(s, id, transferAmount).state)
  {
    if s.txs[id].status == Pending {
      assert TxLinked(s, id);
      match s.txs[id].kind
      case UpgradeToPhotographer => ActivateOrderLinked(s, id);
      case ImageBuy => SettlePurchaseLinked(s, id);
      case Deposit => StatusLinked(s, id, Success);
      case Withdrawal => StatusLinked(s, id, Success);
      case ImageSell =>
      case RefundFromBuyImage =>
    }
  }

  /** An accepted upgrade request places an order at the quoted price. */
  lemma AcceptedQuote(s: State, user: nat, pkg: Option<Fee.PackageRow>, months: real, pay: PaymentMethod)
    returns (q: Fee.Quote, expiredAt: int)
    requires RequestUpgradePayment(s, user, pkg, months, pay).Done?
    ensures user < |s.users| && pkg.Some? && months >= 0.0
    ensures s.now < expiredAt == Calendar.AddMonthsAsCoded(s.now, months.Floor)
    ensures Fee.TransferFee(CurrentOrder(s, user), pkg, months, s.now) == Ok(q)
    ensures pay == Wallet ==> q.remain <= Balance(s, user)
    ensures RequestUpgradePayment(s, user, pkg, months, pay)
         == Done(PlaceOrder(s, user, pkg.value, expiredAt, q.remain, q.discount, pay))
  {
    q := Fee.TransferFee(CurrentOrder(s, user), pkg, months, s.now).value;
    expiredAt := Calendar.AddMonthsAsCoded(s.now, months.Floor);
    Calendar.AddMonthsAsCodedLater(s.now, months.Floor);
  }

  lemma UpgradeLinked(s: State, user: nat, pkg: Option<Fee.PackageRow>, months: real, pay: PaymentMethod)
    requires Linked(s) && RequestUpgradePayment(s, user, pkg, months, pay).Done?
    ensures Linked(RequestUpgradePayment(s, user, pkg, months, pay).state)
  {
    var q, expiredAt := AcceptedQuote(s, user, pkg, months, pay);
    PlaceOrderLinked(s, user, pkg.value, expiredAt, q.remain, q.discount, pay);
  }

  lemma PaymentsLinked(s: State, e: Event)
    requires Linked(s) && OfPayments(e) && Step(s, e).Done?
    ensures Linked(Next(s, e))
  {
    match e
    case EvDeposit(user, sum) => AppendedLinked(s, Next(s, e).txs[|s.txs|]);
    case EvWithdraw(user, sum) => AppendedLinked(s, Next(s, e).txs[|s.txs|]);
    case EvAccept(tx) => StatusLinked(s, tx, Success);
    case EvDeny(tx) => StatusLinked(s, tx, Cancel);
    case EvWebhook(tx, transferAmount) => ProcessLinked(s, tx, transferAmount);
    case EvSweep => RestatedLinked(s, Next(s, e).txs);
    case EvPatch(tx, patch) => if patch.Some? { StatusLinked(s, tx, patch.value); }
  }

  lemma ExpiryLinked(s: State)
    requires Linked(s)
    ensures Linked(Next(s, EvExpireOrders))
  {
    var s' := Next(s, EvExpireOrders);
    OrdersRestatedLinked(s, s'.orders, s.users);
    SurroundingsLinked(s.(orders := s'.orders), s');
  }

  lemma PurchaseStepLinked(s: State, e: Event)
    requires Linked(s) && e.EvBuy? && Step(s, e).Done?
    ensures Linked(Next(s, e))
  {
    var tag := s.sellings[e.selling].tags[e.tag];
    RecordPurchaseLinked(s, e.user, e.selling, tag, s.photos[e.photo].photographer, e.pay);
  }

  lemma QuietStepsOwned(s: State, e: Event)
    requires PhotosOwned(s) && Quiet(e)
    ensures PhotosOwned(Next(s, e))
  {
  }

  /** Every step, patched or not, keeps the rows linked. */
  lemma StepLinked(s: State, e: Event)
    requires Linked(s)
    ensures Linked(Next(s, e))
  {
    if Step(s, e).Done? {
      if Quiet(e) {
        QuietSteps(s, e);
        QuietStepsOwned(s, e);
        SurroundingsLinked(s, Next(s, e));
      } else {
        match e
        case EvUpgrade(user, pkg, months, pay) => UpgradeLinked(s, user, pkg, months, pay);
        case EvExpireOrders => ExpiryLinked(s);
        case EvBuy(_, _, _, _, _) => PurchaseStepLinked(s, e);
        case _ => PaymentsLinked(s, e);
      }
    }
  }

  // ---- what every step keeps of a transaction ----

  /** Only its status and payment method change: once settled it never waits again, and once
      successful it can only be cancelled. */
  predicate TxKept(t: Tx, t': Tx) {
    t' == t.(status := t'.status, pay := t'.pay)
    && (t'.status == t.status || t.status == Pending || t'.status == Cancel)
  }

  /** New transactions are dated now, and a withdrawal waits only when it was requested. */
  predicate TxAdded(t: Tx, now: int, requested: bool) {
    t.createdAt == now && (t.kind == Withdrawal && t.status == Pending ==> requested)
  }

  ghost predicate KeepsTxs(s: State, s': State, requested: bool) {
    && |s.txs| <= |s'.txs|
    && (forall i: nat | i < |s.txs| :: TxKept(s.txs[i], s'.txs[i]))
    && (forall i: nat | |s.txs| <= i < |s'.txs| :: TxAdded(s'.txs[i], s.now, requested))
  }

  lemma PaymentsKeepTxs(s: State, e: Event)
    requires OfPayments(e)
    ensures KeepsTxs(s, Next(s, e), e.EvWithdraw?)
  {
  }

  lemma PurchasesKeepTxs(s: State, e: Event)
    requires e.EvBuy?
    ensures KeepsTxs(s, Next(s, e), false)
  {
  }

  lemma UpgradesKeepTxs(s: State, e: Event)
    requires e.EvUpgrade?
    ensures KeepsTxs(s, Next(s, e), false)
  {
    if Step(s, e).Done? {
      var q, expiredAt := AcceptedQuote(s, e.user, e.pkg, e.months, e.pay);
    }
  }

  lemma StepKeepsTxs(s: State, e: Event)
    ensures KeepsTxs(s, Next(s, e), e.EvWithdraw?)
  {
    if OfPayments(e) {
      PaymentsKeepTxs(s, e);
    } else if e.EvBuy? {
      PurchasesKeepTxs(s, e);
    } else if e.EvUpgrade? {
      UpgradesKeepTxs(s, e);
    } else if Quiet(e) {
      QuietSteps(s, e);
    }
  }

  lemma {:induction false} RunLinked(s: State, events: seq<Event>)
    requires Linked(s)
    ensures Linked(Run(s, events))
    decreases |events|
  {
    if events == [] {
    } else {
      StepLinked(s, events[0]);
      RunLinked(Next(s, events[0]), events[1..]);
    }
  }
}
