/** Conservation of money, wallets that never go negative, and webhooks delivered repeatedly. */
module MarketMoney {
  import opened Wrappers
  import opened Sums
  import opened Ledger
  import opened Market
  import opened MarketLinks
  import opened MarketOrders
  import Fee

  // ---- conservation ----

  /** Money the platform still owes to or has paid out in withdrawals. */
  function Withdrawn(t: Tx): real {
    if t.kind == Withdrawal && (t.status == Pending || t.status == Success) then t.amount else 0.0
  }

  function FeeKept(t: Tx): real {
    if t.kind == ImageSell && t.status == Success then t.fee else 0.0
  }

  function UpgradePaid(t: Tx): real {
    if t.kind == UpgradeToPhotographer && t.status == Success then t.amount else 0.0
  }

  /** Everything the platform holds or has spent for its users. */
  function Holdings(s: State): real {
    WalletTotal(s.txs, |s.users|) + Sum(Withdrawn, s.txs) + Sum(FeeKept, s.txs) + Sum(UpgradePaid, s.txs)
  }

  function Books(t: Tx): real {
    Delta(t) + Withdrawn(t) + FeeKept(t) + UpgradePaid(t)
  }

  lemma {:induction false} BooksSplit(rows: seq<Tx>)
    ensures Sum(Books, rows)
         == Sum(Delta, rows) + Sum(Withdrawn, rows) + Sum(FeeKept, rows) + Sum(UpgradePaid, rows)
  {
    if rows == [] {
    } else {
      BooksSplit(rows[1..]);
    }
  }

  lemma HoldingsAreBooks(s: State)
    requires Linked(s)
    ensures Holdings(s) == Sum(Books, s.txs)
  {
    forall t | t in s.txs ensures t.user < |s.users| {
      var i :| 0 <= i < |s.txs| && s.txs[i] == t;
      assert TxLinked(s, i);
    }
    WalletsAddUp(s.txs, |s.users|);
    BooksSplit(s.txs);
  }

  /** What a webhook brings in: the transfer, when it settles a deposit, a purchase or an upgrade. */
  function AcceptedTransfer(s: State, e: Event): real {
    if e.EvWebhook? && e.tx < |s.txs| && s.txs[e.tx].status == Pending
       && s.txs[e.tx].amount == e.transferAmount && s.txs[e.tx].kind in {Deposit, ImageBuy, UpgradeToPhotographer}
    then e.transferAmount else 0.0
  }

  function AcceptedTransfers(s: State, events: seq<Event>): real
    decreases |events|
  {
    if events == [] then 0.0
    else AcceptedTransfer(s, events[0]) + AcceptedTransfers(Next(s, events[0]), events[1..])
  }

  /** Payments of a user's pending orders that a patch declared made. */
  function CancelledPayment(orders: seq<Order>, user: nat): Tx -> real {
    (t: Tx) => if t.status == Success && OfPendingOrder(t, orders, user) then t.amount else 0.0
  }

  /** What the manager's patches put into the books without a transfer: a deposit or upgrade declared
      paid, until the user's next upgrade request cancels such an order together with its payment. */
  function Minted(s: State, e: Event): real {
    if e.EvPatch? && Step(s, e).Done? && e.patch == Some(Success)
       && s.txs[e.tx].kind in {Deposit, UpgradeToPhotographer}
    then s.txs[e.tx].amount
    else if e.EvUpgrade? && Step(s, e).Done? then 0.0 - Sum(CancelledPayment(s.orders, e.user), s.txs)
    else 0.0
  }

  function AllMinted(s: State, events: seq<Event>): real
    decreases |events|
  {
    if events == [] then 0.0 else Minted(s, events[0]) + AllMinted(Next(s, events[0]), events[1..])
  }

  lemma BooksOfStatus(s: State, id: nat, status: Status)
    requires id < |s.txs|
    ensures Sum(Books, WithStatus(s, id, status).txs)
         == Sum(Books, s.txs) - Books(s.txs[id]) + Books(s.txs[id].(status := status))
  {
    SumUpdate(Books, s.txs, id, s.txs[id].(status := status));
  }

  lemma ProcessConserves(s: State, id: nat, transferAmount: real)
    requires Linked(s) && ProcessTransaction(s, id, transferAmount).Done?
    ensures Sum(Books, ProcessTransaction(s, id, transferAmount).state.txs)
         == Sum(Books, s.txs) + AcceptedTransfer(s, EvWebhook(id, transferAmount))
  {
    if s.txs[id].status == Pending {
      assert TxLinked(s, id);
      var t := s.txs[id];
      match t.kind
      case ImageBuy =>
        var k := t.link.purchase;
        var settled := t.(status := Success, pay := Sepay);
        SumUpdate(Books, s.txs, id, settled);
        SumAppend(Books, s.txs[id := settled], SellRow(s.purchases[k], k, t.amount, t.fee, s.now));
      case _ => BooksOfStatus(s, id, Success);
    }
  }

  lemma ClearedBooks(s: State, user: nat)
    requires Linked(s)
    ensures Sum(Books, Cleared(s, user).txs) == Sum(Books, s.txs) - Sum(CancelledPayment(s.orders, user), s.txs)
  {
    var c := Cleared(s, user);
    forall i: nat | i < |s.txs|
      ensures Books(s.txs[i]) == Books(c.txs[i]) + CancelledPayment(s.orders, user)(s.txs[i])
    {
      assert TxLinked(s, i);
      assert s.txs[i].link.OrderLink? && s.txs[i].link.order < |s.orders| ==> OrderLinked(s, s.txs[i].link.order);
    }
    SumDifference(Books, Books, CancelledPayment(s.orders, user), s.txs, c.txs);
  }

  lemma PlaceOrderBooks(
    s: State, user: nat, p: Fee.PackageRow, expiredAt: int, remain: Money, discount: Money, pay: PaymentMethod)
    requires Linked(s) && s.now < expiredAt
    ensures Sum(Books, PlaceOrder(s, user, p, expiredAt, remain, discount, pay).txs)
         == Sum(Books, s.txs) - Sum(CancelledPayment(s.orders, user), s.txs)
  {
    var s', c := PlaceOrder(s, user, p, expiredAt, remain, discount, pay), Cleared(s, user);
    ClearedBooks(s, user);
    assert s'.txs == c.txs + [s'.txs[|s.txs|]];
    SumAppend(Books, c.txs, s'.txs[|s.txs|]);
  }

  lemma PurchaseConserves(s: State, buyer: nat, selling: nat, tag: Tag, toUser: nat, pay: PaymentMethod)
    requires Linked(s)
    ensures Sum(Books, RecordPurchase(s, buyer, selling, tag, toUser, pay).txs) == Sum(Books, s.txs)
  {
    var txs := CancelOffers(s.txs, s.purchases, buyer, selling, tag);
    SumPointwise(Books, Books, s.txs, txs);
    var s' := RecordPurchase(s, buyer, selling, tag, toUser, pay);
    var buy := s'.txs[|s.txs|];
    SumAppend(Books, txs, buy);
    if pay == Wallet {
      var sell := s'.txs[|s.txs| + 1];
      SumAppend(Books, txs + [buy], sell);
      assert s'.txs == txs + [buy] + [sell];
    } else {
      assert s'.txs == txs + [buy];
    }
  }

  lemma SweepConserves(s: State)
    ensures Sum(Books, CleanupPendingTransaction(s).state.txs) == Sum(Books, s.txs)
  {
    SumPointwise(Books, Books, s.txs, CleanupPendingTransaction(s).state.txs);
  }

  /** The books change by what the bank brings in and what patches mint. */
  predicate Conserves(s: State, e: Event) {
    Sum(Books, Next(s, e).txs) == Sum(Books, s.txs) + AcceptedTransfer(s, e) + Minted(s, e)
  }

  lemma WithdrawalsConserve(s: State, e: Event)
    requires e.EvWithdraw? || e.EvAccept? || e.EvDeny?
    ensures Conserves(s, e)
  {
    if Step(s, e).Done? {
      match e
      case EvWithdraw(user, sum) => SumAppend(Books, s.txs, Next(s, e).txs[|s.txs|]);
      case EvAccept(tx) => BooksOfStatus(s, tx, Success);
      case EvDeny(tx) => BooksOfStatus(s, tx, Cancel);
    }
  }

  lemma DepositsConserve(s: State, e: Event)
    requires e.EvDeposit? || e.EvSweep?
    ensures Conserves(s, e)
  {
    if e.EvSweep? {
      SweepConserves(s);
    } else if Step(s, e).Done? {
      SumAppend(Books, s.txs, Next(s, e).txs[|s.txs|]);
    }
  }

  lemma WebhookConserves(s: State, e: Event)
    requires Linked(s) && e.EvWebhook?
    ensures Conserves(s, e)
  {
    if e.tx < |s.txs| {
      assert TxLinked(s, e.tx);
    }
    if Step(s, e).Done? {
      ProcessConserves(s, e.tx, e.transferAmount);
    }
  }

  lemma OrdersConserve(s: State, e: Event)
    requires Linked(s) && (e.EvUpgrade? || e.EvExpireOrders?)
    ensures Conserves(s, e)
  {
    if e.EvUpgrade? && Step(s, e).Done? {
      var q, expiredAt := AcceptedQuote(s, e.user, e.pkg, e.months, e.pay);
      PlaceOrderBooks(s, e.user, e.pkg.value, expiredAt, q.remain, q.discount, e.pay);
    }
  }

  lemma PatchConserves(s: State, e: Event)
    requires Linked(s) && e.EvPatch?
    ensures Conserves(s, e)
  {
    if Step(s, e).Done? && e.patch.Some? {
      PendingShape(s, e.tx);
      BooksOfStatus(s, e.tx, e.patch.value);
    }
  }

  lemma PurchasesConserve(s: State, e: Event)
    requires Linked(s) && e.EvBuy?
    ensures Conserves(s, e)
  {
    if Step(s, e).Done? {
      PurchaseConserves(s, e.user, e.selling, s.sellings[e.selling].tags[e.tag], s.photos[e.photo].photographer, e.pay);
    }
  }

  lemma StepConserves(s: State, e: Event)
    requires Linked(s)
    ensures Conserves(s, e)
  {
    if Quiet(e) {
      QuietSteps(s, e);
    } else {
      match e
      case EvDeposit(_, _) => DepositsConserve(s, e);
      case EvSweep => DepositsConserve(s, e);
      case EvWebhook(_, _) => WebhookConserves(s, e);
      case EvUpgrade(_, _, _, _) => OrdersConserve(s, e);
      case EvExpireOrders => OrdersConserve(s, e);
      case EvBuy(_, _, _, _, _) => PurchasesConserve(s, e);
      case EvPatch(_, _) => PatchConserves(s, e);
      case _ => WithdrawalsConserve(s, e);
    }
  }

  lemma {:induction false} RunConserves(s: State, events: seq<Event>)
    requires Linked(s)
    ensures Sum(Books, Run(s, events).txs) == Sum(Books, s.txs) + AcceptedTransfers(s, events) + AllMinted(s, events)
    decreases |events|
  {
    if events == [] {
    } else {
      StepLinked(s, events[0]);
      StepConserves(s, events[0]);
      RunConserves(Next(s, events[0]), events[1..]);
    }
  }

  /** In every run, patched or not, what is in the wallets, waiting or paid out as withdrawals, kept as
      sale fees, or paid for upgrades is what the bank brought in and what patches minted. */
  lemma EveryRunIsAccounted(events: seq<Event>)
    ensures Holdings(Run(INITIAL, events)) == AcceptedTransfers(INITIAL, events) + AllMinted(INITIAL, events)
  {
    RunConserves(INITIAL, events);
    RunLinked(INITIAL, events);
    HoldingsAreBooks(Run(INITIAL, events));
  }

  lemma NothingMinted(s: State, e: Event)
    requires Linked(s) && RequestsUnpaid(s) && !e.EvPatch?
    ensures Minted(s, e) == 0.0
  {
    if e.EvUpgrade? {
      var f := CancelledPayment(s.orders, e.user);
      forall i: nat | i < |s.txs| ensures f(s.txs[i]) == 0.0 {
        assert TxLinked(s, i);
        assert s.txs[i].link.OrderLink? && s.txs[i].link.order < |s.orders| ==>
          Unpaid(s, s.txs[i].link.order) && OrderLinked(s, s.txs[i].link.order);
      }
      SumOfZeros(f, s.txs);
    }
  }

  lemma {:induction false} NothingEverMinted(s: State, events: seq<Event>)
    requires Linked(s) && RequestsUnpaid(s) && Unpatched(events)
    ensures AllMinted(s, events) == 0.0
    decreases |events|
  {
    if events == [] {
    } else {
      assert events[0] in events;
      NothingMinted(s, events[0]);
      StepLinked(s, events[0]);
      StepUnpaid(s, events[0]);
      NothingEverMinted(Next(s, events[0]), events[1..]);
    }
  }

  /** Money is conserved in every unpatched run: what the bank brought in is what is in the
      wallets, waiting or paid out as withdrawals, kept as sale fees, or paid for upgrades. */
  lemma MoneyIsConserved(events: seq<Event>)
    requires Unpatched(events)
    ensures AcceptedTransfers(INITIAL, events) == Holdings(Run(INITIAL, events))
  {
    EveryRunIsAccounted(events);
    NothingEverMinted(INITIAL, events);
  }

  /** A patch creates money exactly when it declares a deposit or an upgrade paid that was not. */
  lemma PatchConservesExactly(s: State, id: nat, patch: Option<Status>)
    requires Linked(s) && PatchStatus(s, id, patch).Done?
    ensures Holdings(PatchStatus(s, id, patch).state) == Holdings(s)
       <==> !(patch == Some(Success) && s.txs[id].kind in {Deposit, UpgradeToPhotographer}
              && s.txs[id].amount != 0.0)
  {
    StepLinked(s, EvPatch(id, patch));
    HoldingsAreBooks(s);
    HoldingsAreBooks(Next(s, EvPatch(id, patch)));
    PatchConserves(s, EvPatch(id, patch));
  }

  // ---- wallets never go negative ----

  lemma BalanceIsSum(s: State, u: nat)
    ensures Balance(s, u) == Sum(Mine(u), s.txs)
  {
    WalletIsSum(s.txs, u);
  }

  /** Status changes that take nothing out of any wallet. */
  predicate Harmless(t: Tx, t': Tx) {
    t' == t.(status := t'.status) && Delta(t) <= Delta(t')
  }

  lemma {:induction false} HarmlessKeepsBalance(a: seq<Tx>, b: seq<Tx>, u: nat)
    requires |a| == |b| && forall i: nat | i < |a| :: Harmless(a[i], b[i])
    ensures Sum(Mine(u), a) <= Sum(Mine(u), b)
  {
    if a == [] {
    } else {
      assert Harmless(a[0], b[0]);
      forall i: nat | i < |a[1..]| ensures Harmless(a[1..][i], b[1..][i]) {
        assert Harmless(a[i + 1], b[i + 1]);
      }
      HarmlessKeepsBalance(a[1..], b[1..], u);
    }
  }

  lemma StatusBalance(s: State, id: nat, status: Status, u: nat)
    requires Linked(s) && id < |s.txs| && s.txs[id].status == Pending
    ensures Balance(s, u) <= Balance(WithStatus(s, id, status), u)
  {
    PendingShape(s, id);
    BalanceIsSum(s, u);
    BalanceIsSum(WithStatus(s, id, status), u);
    HarmlessKeepsBalance(s.txs, WithStatus(s, id, status).txs, u);
  }

  lemma AppendBalance(s: State, rows: seq<Tx>, t: Tx, u: nat)
    ensures WalletOf(rows + [t], u) == WalletOf(rows, u) + if t.user == u then Delta(t) else 0.0
  {
    WalletIsSum(rows + [t], u);
    WalletIsSum(rows, u);
    SumAppend(Mine(u), rows, t);
  }

  lemma HarmlessBalance(a: seq<Tx>, b: seq<Tx>, u: nat)
    requires |a| == |b| && forall i: nat | i < |a| :: Harmless(a[i], b[i])
    ensures WalletOf(a, u) <= WalletOf(b, u)
  {
    WalletIsSum(a, u);
    WalletIsSum(b, u);
    HarmlessKeepsBalance(a, b, u);
  }

  lemma ClearedBalance(s: State, user: nat, u: nat)
    requires Linked(s)
    ensures Balance(s, u) <= Balance(Cleared(s, user), u)
  {
    var c := Cleared(s, user);
    forall i: nat | i < |s.txs| ensures Harmless(s.txs[i], c.txs[i]) {
      assert TxLinked(s, i);
      assert s.txs[i].link.OrderLink? && s.txs[i].link.order < |s.orders| ==> OrderLinked(s, s.txs[i].link.order);
    }
    HarmlessBalance(s.txs, c.txs, u);
  }

  lemma UpgradeBalance(
    s: State, user: nat, pkg: Option<Fee.PackageRow>, months: real, pay: PaymentMethod, u: nat)
    requires Linked(s) && RequestUpgradePayment(s, user, pkg, months, pay).Done? && 0.0 <= Balance(s, u)
    ensures 0.0 <= Balance(RequestUpgradePayment(s, user, pkg, months, pay).state, u)
  {
    var q, expiredAt := AcceptedQuote(s, user, pkg, months, pay);
    var s' := PlaceOrder(s, user, pkg.value, expiredAt, q.remain, q.discount, pay);
    var c := Cleared(s, user);
    ClearedBalance(s, user, u);
    assert s'.txs == c.txs + [s'.txs[|s.txs|]];
    AppendBalance(s, c.txs, s'.txs[|s.txs|], u);
  }

  lemma PurchaseBalance(s: State, buyer: nat, selling: nat, tag: Tag, toUser: nat, pay: PaymentMethod, u: nat)
    requires Linked(s) && buyer != toUser && 0.0 <= Balance(s, u)
    requires pay == Wallet ==> tag.price <= Balance(s, buyer)
    ensures 0.0 <= Balance(RecordPurchase(s, buyer, selling, tag, toUser, pay), u)
  {
    var txs := CancelOffers(s.txs, s.purchases, buyer, selling, tag);
    forall i: nat | i < |s.txs| ensures Harmless(s.txs[i], txs[i]) { }
    HarmlessBalance(s.txs, txs, u);
    var s' := RecordPurchase(s, buyer, selling, tag, toUser, pay);
    var buy := s'.txs[|s.txs|];
    AppendBalance(s, txs, buy, u);
    if pay == Wallet {
      var sell := s'.txs[|s.txs| + 1];
      AppendBalance(s, txs + [buy], sell, u);
      assert s'.txs == txs + [buy] + [sell];
    } else {
      assert s'.txs == txs + [buy];
    }
  }

  lemma ProcessBalance(s: State, id: nat, transferAmount: real, u: nat)
    requires Linked(s) && ProcessTransaction(s, id, transferAmount).Done? && 0.0 <= Balance(s, u)
    ensures 0.0 <= Balance(ProcessTransaction(s, id, transferAmount).state, u)
  {
    if s.txs[id].status == Pending {
      assert TxLinked(s, id);
      var t := s.txs[id];
      StatusBalance(s, id, Success, u);
      if t.kind == ImageBuy {
        var k := t.link.purchase;
        assert PurchaseLinked(s, k);
        var settled := s.txs[id := t.(status := Success, pay := Sepay)];
        assert settled == WithStatus(s, id, Success).txs;
        AppendBalance(s, settled, SellRow(s.purchases[k], k, t.amount, t.fee, s.now), u);
      }
    }
  }

  /** No step takes a wallet below zero, the manager's patch included. */
  lemma StepSolvent(s: State, e: Event, u: nat)
    requires Linked(s) && 0.0 <= Balance(s, u)
    ensures 0.0 <= Balance(Next(s, e), u)
  {
    var s' := Next(s, e);
    if Step(s, e).Done? {
      match e
      case EvDeposit(user, sum) => AppendBalance(s, s.txs, s'.txs[|s.txs|], u);
      case EvWithdraw(user, sum) => AppendBalance(s, s.txs, s'.txs[|s.txs|], u);
      case EvAccept(tx) => StatusBalance(s, tx, Success, u);
      case EvDeny(tx) => StatusBalance(s, tx, Cancel, u);
      case EvWebhook(tx, transferAmount) => ProcessBalance(s, tx, transferAmount, u);
      case EvSweep =>
        forall i: nat | i < |s.txs| ensures Harmless(s.txs[i], s'.txs[i]) { }
        HarmlessBalance(s.txs, s'.txs, u);
      case EvUpgrade(user, pkg, months, pay) => UpgradeBalance(s, user, pkg, months, pay, u);
      case EvBuy(user, photo, selling, tag, pay) =>
        PurchaseBalance(s, user, selling, s.sellings[selling].tags[tag], s.photos[photo].photographer, pay, u);
      case EvPatch(tx, patch) => if patch.Some? { StatusBalance(s, tx, patch.value, u); }
      case _ =>
    }
  }

  lemma {:induction false} RunSolvent(s: State, events: seq<Event>, u: nat)
    requires Linked(s) && 0.0 <= Balance(s, u)
    ensures 0.0 <= Balance(Run(s, events), u)
    decreases |events|
  {
    if events == [] {
    } else {
      StepLinked(s, events[0]);
      StepSolvent(s, events[0], u);
      RunSolvent(Next(s, events[0]), events[1..], u);
    }
  }

  /** In every run, patched or not, no wallet is ever negative. */
  lemma NoWalletIsNegative(events: seq<Event>, u: nat)
    ensures 0.0 <= Balance(Run(INITIAL, events), u)
  {
    RunSolvent(INITIAL, events, u);
  }

  // ---- what each step does to a wallet ----

  /** Withdrawals that a sweep gives back to a user. */
  function GivenBack(user: nat, now: int): Tx -> real {
    (t: Tx) => if t.user == user && t.kind == Withdrawal && Stale(t, now) then t.amount else 0.0
  }

  function To(receiver: nat, user: nat, sum: real): real {
    if receiver == user then sum else 0.0
  }

  /** The change of a user's wallet that a step means: withdrawals leave when requested and come
      back when denied or expired, deposits arrive with the bank's transfer, purchases and upgrades
      cost the wallet only when paid from it, and a sale brings nine tenths of its price. */
  function Effect(s: State, e: Event, user: nat): real {
    if Step(s, e).Refused? then 0.0
    else
      match e
      case EvWithdraw(u, sum) => To(u, user, -sum)
      case EvDeny(tx) => To(s.txs[tx].user, user, s.txs[tx].amount)
      case EvWebhook(tx, transferAmount) =>
        if s.txs[tx].status != Pending then 0.0
        else if s.txs[tx].kind == Deposit then To(s.txs[tx].user, user, transferAmount)
        else if s.txs[tx].kind == ImageBuy then
          To(s.purchases[s.txs[tx].link.purchase].toUser, user, 9.0 * transferAmount / 10.0)
        else 0.0
      case EvSweep => Sum(GivenBack(user, s.now), s.txs)
      case EvUpgrade(u, pkg, months, pay) =>
        if pay == Wallet then To(u, user, 0.0 - Fee.TransferFee(CurrentOrder(s, u), pkg, months, s.now).value.remain)
        else 0.0
      case EvBuy(u, photo, selling, tag, pay) =>
        var price := s.sellings[selling].tags[tag].price;
        if pay == Wallet
        then To(u, user, 0.0 - price) + To(s.photos[photo].photographer, user, 9.0 * price / 10.0)
        else 0.0
      case EvPatch(tx, patch) =>
        if s.txs[tx].kind == Withdrawal && patch.Some? && patch.value !in {Pending, Success} then
          To(s.txs[tx].user, user, s.txs[tx].amount)
        else if s.txs[tx].kind == Deposit && patch == Some(Success) then
          To(s.txs[tx].user, user, s.txs[tx].amount)
        else 0.0
      case _ => 0.0
  }

  lemma StatusEffect(s: State, id: nat, status: Status, u: nat)
    requires id < |s.txs|
    ensures Balance(WithStatus(s, id, status), u) == Balance(s, u)
              + To(s.txs[id].user, u, Delta(s.txs[id].(status := status)) - Delta(s.txs[id]))
  {
    BalanceIsSum(s, u);
    BalanceIsSum(WithStatus(s, id, status), u);
    SumUpdate(Mine(u), s.txs, id, s.txs[id].(status := status));
  }

  lemma WeightlessEffect(a: seq<Tx>, b: seq<Tx>, u: nat)
    requires |a| == |b| && forall i: nat | i < |a| :: a[i].user == b[i].user && Delta(a[i]) == Delta(b[i])
    ensures WalletOf(a, u) == WalletOf(b, u)
  {
    WalletIsSum(a, u);
    WalletIsSum(b, u);
    SumPointwise(Mine(u), Mine(u), a, b);
  }

  lemma {:induction false} SweepEffect(rows: seq<Tx>, swept: seq<Tx>, now: int, u: nat)
    requires |rows| == |swept| && forall i: nat | i < |rows| :: swept[i] == Swept(rows[i], now)
    ensures Sum(Mine(u), swept) == Sum(Mine(u), rows) + Sum(GivenBack(u, now), rows)
  {
    if rows == [] {
    } else {
      assert swept[0] == Swept(rows[0], now);
      forall i: nat | i < |rows[1..]| ensures swept[1..][i] == Swept(rows[1..][i], now) {
        assert swept[i + 1] == Swept(rows[i + 1], now);
      }
      SweepEffect(rows[1..], swept[1..], now, u);
    }
  }

  /** The user's wallet changes by exactly what the step means. */
  predicate ChangesAsMeant(s: State, e: Event, u: nat) {
    Balance(Next(s, e), u) == Balance(s, u) + Effect(s, e, u)
  }

  lemma RequestEffect(s: State, e: Event, u: nat)
    requires e.EvDeposit? || e.EvWithdraw?
    ensures ChangesAsMeant(s, e, u)
  {
    if Step(s, e).Done? {
      AppendBalance(s, s.txs, Next(s, e).txs[|s.txs|], u);
    }
  }

  lemma DecisionEffect(s: State, e: Event, u: nat)
    requires e.EvAccept? || e.EvDeny?
    ensures ChangesAsMeant(s, e, u)
  {
    if Step(s, e).Done? {
      StatusEffect(s, e.tx, if e.EvAccept? then Success else Cancel, u);
    }
  }

  lemma PatchEffect(s: State, e: Event, u: nat)
    requires Linked(s) && e.EvPatch?
    ensures ChangesAsMeant(s, e, u)
  {
    if Step(s, e).Done? && e.patch.Some? {
      PendingShape(s, e.tx);
      StatusEffect(s, e.tx, e.patch.value, u);
    }
  }

  lemma SweepStepEffect(s: State, u: nat)
    ensures ChangesAsMeant(s, EvSweep, u)
  {
    BalanceIsSum(s, u);
    BalanceIsSum(Next(s, EvSweep), u);
    SweepEffect(s.txs, Next(s, EvSweep).txs, s.now, u);
  }

  lemma SettledPurchaseEffect(s: State, id: nat, k: nat, u: nat)
    requires id < |s.txs| && k < |s.purchases|
    requires s.txs[id].kind == ImageBuy && s.txs[id].pay == Sepay && s.txs[id].fee == FeeOf(s.txs[id].amount)
    ensures Balance(SettlePurchase(s, id, k), u)
         == Balance(s, u) + To(s.purchases[k].toUser, u, 9.0 * s.txs[id].amount / 10.0)
  {
    var t := s.txs[id];
    StatusEffect(s, id, Success, u);
    assert s.txs[id := t.(status := Success, pay := Sepay)] == WithStatus(s, id, Success).txs;
    AppendBalance(s, WithStatus(s, id, Success).txs, SellRow(s.purchases[k], k, t.amount, t.fee, s.now), u);
  }

  lemma WebhookEffect(s: State, e: Event, u: nat)
    requires Linked(s) && e.EvWebhook?
    ensures ChangesAsMeant(s, e, u)
  {
    if Step(s, e).Done? && s.txs[e.tx].status == Pending {
      assert TxLinked(s, e.tx);
      PendingShape(s, e.tx);
      StatusEffect(s, e.tx, Success, u);
      if s.txs[e.tx].kind == ImageBuy {
        var k := s.txs[e.tx].link.purchase;
        assert PurchaseLinked(s, k);
        SettledPurchaseEffect(s, e.tx, k, u);
      }
    }
  }

  lemma ClearedEffect(s: State, user: nat, u: nat)
    requires Linked(s)
    ensures Balance(Cleared(s, user), u) == Balance(s, u)
  {
    var c := Cleared(s, user);
    forall i: nat | i < |s.txs| ensures s.txs[i].user == c.txs[i].user && Delta(s.txs[i]) == Delta(c.txs[i]) {
      assert TxLinked(s, i);
      assert s.txs[i].link.OrderLink? && s.txs[i].link.order < |s.orders| ==> OrderLinked(s, s.txs[i].link.order);
    }
    WeightlessEffect(s.txs, c.txs, u);
  }

  lemma PlacedEffect(
    s: State, user: nat, p: Fee.PackageRow, expiredAt: int, remain: Money, discount: Money, pay: PaymentMethod, u: nat)
    requires Linked(s) && s.now < expiredAt
    ensures Balance(PlaceOrder(s, user, p, expiredAt, remain, discount, pay), u)
         == Balance(s, u) + if pay == Wallet then To(user, u, 0.0 - remain) else 0.0
  {
    var s', c := PlaceOrder(s, user, p, expiredAt, remain, discount, pay), Cleared(s, user);
    ClearedEffect(s, user, u);
    assert s'.txs == c.txs + [s'.txs[|s.txs|]];
    AppendBalance(s, c.txs, s'.txs[|s.txs|], u);
  }

  lemma UpgradeEffect(s: State, e: Event, u: nat)
    requires Linked(s) && e.EvUpgrade?
    ensures ChangesAsMeant(s, e, u)
  {
    if Step(s, e).Done? {
      var q, expiredAt := AcceptedQuote(s, e.user, e.pkg, e.months, e.pay);
      PlacedEffect(s, e.user, e.pkg.value, expiredAt, q.remain, q.discount, e.pay, u);
    }
  }

  lemma RecordedEffect(s: State, buyer: nat, selling: nat, tag: Tag, toUser: nat, pay: PaymentMethod, u: nat)
    ensures Balance(RecordPurchase(s, buyer, selling, tag, toUser, pay), u)
         == Balance(s, u)
            + if pay == Wallet then To(buyer, u, 0.0 - tag.price) + To(toUser, u, 9.0 * tag.price / 10.0) else 0.0
  {
    var txs := CancelOffers(s.txs, s.purchases, buyer, selling, tag);
    WeightlessEffect(s.txs, txs, u);
    var s' := RecordPurchase(s, buyer, selling, tag, toUser, pay);
    var buy := s'.txs[|s.txs|];
    AppendBalance(s, txs, buy, u);
    if pay == Wallet {
      var sell := s'.txs[|s.txs| + 1];
      AppendBalance(s, txs + [buy], sell, u);
      assert s'.txs == txs + [buy] + [sell];
    } else {
      assert s'.txs == txs + [buy];
    }
  }

  lemma PurchaseEffect(s: State, e: Event, u: nat)
    requires e.EvBuy?
    ensures ChangesAsMeant(s, e, u)
  {
    if Step(s, e).Done? {
      RecordedEffect(s, e.user, e.selling, s.sellings[e.selling].tags[e.tag], s.photos[e.photo].photographer, e.pay, u);
    }
  }

  lemma QuietEffect(s: State, e: Event, u: nat)
    requires Quiet(e) || e.EvExpireOrders?
    ensures ChangesAsMeant(s, e, u)
  {
    if Quiet(e) {
      QuietSteps(s, e);
    }
  }

  /** Each step changes each user's wallet, though it is never stored, by exactly what it means. */
  lemma StepEffect(s: State, e: Event, u: nat)
    requires Linked(s)
    ensures ChangesAsMeant(s, e, u)
  {
    match e
    case EvDeposit(_, _) => RequestEffect(s, e, u);
    case EvWithdraw(_, _) => RequestEffect(s, e, u);
    case EvAccept(_) => DecisionEffect(s, e, u);
    case EvDeny(_) => DecisionEffect(s, e, u);
    case EvPatch(_, _) => PatchEffect(s, e, u);
    case EvWebhook(_, _) => WebhookEffect(s, e, u);
    case EvSweep => SweepStepEffect(s, u);
    case EvUpgrade(_, _, _, _) => UpgradeEffect(s, e, u);
    case EvBuy(_, _, _, _, _) => PurchaseEffect(s, e, u);
    case _ => QuietEffect(s, e, u);
  }

  function Effects(s: State, events: seq<Event>, user: nat): real
    decreases |events|
  {
    if events == [] then 0.0 else Effect(s, events[0], user) + Effects(Next(s, events[0]), events[1..], user)
  }

  lemma {:induction false} RunEffects(s: State, events: seq<Event>, u: nat)
    requires Linked(s)
    ensures Balance(Run(s, events), u) == Balance(s, u) + Effects(s, events, u)
    decreases |events|
  {
    if events == [] {
    } else {
      StepLinked(s, events[0]);
      StepEffect(s, events[0], u);
      RunEffects(Next(s, events[0]), events[1..], u);
    }
  }

  // ---- how long a transaction waits ----

  /** Not pending, or too young at a moment to be swept then. */
  predicate YoungAt(t: Tx, moment: int) {
    t.status == Pending ==> moment - t.createdAt < 1000 * 60 * if t.kind == Withdrawal then 60 * 24 * 3 else 5
  }

  ghost predicate AllYoungAt(txs: seq<Tx>, moment: int) {
    forall i: nat | i < |txs| :: YoungAt(txs[i], moment)
  }

  /** A sweep expires what is too old and nothing else. */
  lemma SweepLeavesOnlyYoung(s: State, i: nat)
    requires i < |s.txs|
    ensures var s' := Next(s, EvSweep);
      && s'.now == s.now && |s'.txs| == |s.txs| && YoungAt(s'.txs[i], s.now)
      && s'.txs[i] == if YoungAt(s.txs[i], s.now) then s.txs[i] else s.txs[i].(status := Expired)
  {
  }

  lemma TimeNeverFalls(s: State, e: Event)
    ensures s.now <= Next(s, e).now
  {
  }

  lemma StepKeepsYoung(s: State, e: Event, moment: int)
    requires moment <= s.now && AllYoungAt(s.txs, moment)
    ensures moment <= Next(s, e).now && AllYoungAt(Next(s, e).txs, moment)
  {
    var s' := Next(s, e);
    StepKeepsTxs(s, e);
    TimeNeverFalls(s, e);
    forall i: nat | i < |s'.txs| ensures YoungAt(s'.txs[i], moment) {
      if i < |s.txs| {
        assert YoungAt(s.txs[i], moment) && TxKept(s.txs[i], s'.txs[i]);
      } else {
        assert TxAdded(s'.txs[i], s.now, e.EvWithdraw?);
      }
    }
  }

  lemma {:induction false} RunKeepsYoung(s: State, events: seq<Event>, moment: int)
    requires moment <= s.now && AllYoungAt(s.txs, moment)
    ensures AllYoungAt(Run(s, events).txs, moment)
    decreases |events|
  {
    if events == [] {
    } else {
      StepKeepsYoung(s, events[0], moment);
      RunKeepsYoung(Next(s, events[0]), events[1..], moment);
    }
  }

  /** From a sweep on nothing is ever pending that was overdue at the sweep: a withdrawal requested
      three days, or another transaction created five minutes, before it. */
  lemma SweepsBoundWaiting(s: State, events: seq<Event>)
    ensures AllYoungAt(Run(Next(s, EvSweep), events).txs, s.now)
  {
    forall i: nat | i < |s.txs| ensures YoungAt(Next(s, EvSweep).txs[i], s.now) {
      SweepLeavesOnlyYoung(s, i);
    }
    RunKeepsYoung(Next(s, EvSweep), events, s.now);
  }

  // ---- one pending withdrawal per user ----

  predicate Waiting(t: Tx) {
    t.kind == Withdrawal && t.status == Pending
  }

  ghost predicate OneWithdrawal(txs: seq<Tx>) {
    forall i: nat, j: nat | i < j < |txs| :: Waiting(txs[i]) && Waiting(txs[j]) ==> txs[i].user != txs[j].user
  }

  /** Besides an accepted withdrawal request, no step makes a transaction wait for a decision. */
  lemma OnlyRequestsWait(s: State, e: Event)
    requires !e.EvWithdraw?
    ensures |s.txs| <= |Next(s, e).txs|
    ensures forall i: nat | i < |Next(s, e).txs| && Waiting(Next(s, e).txs[i]) ::
              i < |s.txs| && Waiting(s.txs[i]) && Next(s, e).txs[i].user == s.txs[i].user
  {
    StepKeepsTxs(s, e);
    forall i: nat | i < |Next(s, e).txs| && Waiting(Next(s, e).txs[i])
      ensures i < |s.txs| && Waiting(s.txs[i]) && Next(s, e).txs[i].user == s.txs[i].user
    {
      assert if i < |s.txs| then TxKept(s.txs[i], Next(s, e).txs[i]) else TxAdded(Next(s, e).txs[i], s.now, false);
    }
  }

  lemma StepOneWithdrawal(s: State, e: Event)
    requires OneWithdrawal(s.txs)
    ensures OneWithdrawal(Next(s, e).txs)
  {
    if !e.EvWithdraw? {
      OnlyRequestsWait(s, e);
    }
  }

  lemma {:induction false} RunOneWithdrawal(s: State, events: seq<Event>)
    requires OneWithdrawal(s.txs)
    ensures OneWithdrawal(Run(s, events).txs)
    decreases |events|
  {
    if events == [] {
    } else {
      StepOneWithdrawal(s, events[0]);
      RunOneWithdrawal(Next(s, events[0]), events[1..]);
    }
  }

  /** In every run, patched or not, no user has two withdrawals waiting at once. */
  lemma NeverTwoPendingWithdrawals(events: seq<Event>, i: nat, j: nat)
    requires var txs := Run(INITIAL, events).txs; i < j < |txs| && Waiting(txs[i]) && Waiting(txs[j])
    ensures Run(INITIAL, events).txs[i].user != Run(INITIAL, events).txs[j].user
  {
    RunOneWithdrawal(INITIAL, events);
  }

  // ---- settled transactions and repeated webhooks ----

  /** Once a transaction has left the pending state no step makes it pending again. */
  lemma StepNeverReopens(s: State, e: Event, id: nat)
    requires id < |s.txs| && s.txs[id].status != Pending
    ensures id < |Next(s, e).txs| && Next(s, e).txs[id].status != Pending
  {
    StepKeepsTxs(s, e);
    assert TxKept(s.txs[id], Next(s, e).txs[id]);
  }

  lemma {:induction false} NeverReopens(s: State, events: seq<Event>, id: nat)
    requires id < |s.txs| && s.txs[id].status != Pending
    ensures id < |Run(s, events).txs| && Run(s, events).txs[id].status != Pending
    decreases |events|
  {
    if events == [] {
    } else {
      StepNeverReopens(s, events[0], id);
      NeverReopens(Next(s, events[0]), events[1..], id);
    }
  }

  /** A webhook that settles its transaction: the row is pending and the amount is right. */
  predicate Settles(s: State, id: nat, transferAmount: real) {
    id < |s.txs| && s.txs[id].status == Pending && s.txs[id].amount == transferAmount
  }

  /** After a webhook was accepted, delivering it again has no effect, however often and after
      whatever other steps, the manager's patch included. */
  lemma RedeliveryHasNoEffect(s: State, id: nat, transferAmount: real, between: seq<Event>, again: real)
    requires Linked(s) && Settles(s, id, transferAmount)
    ensures Next(s, EvWebhook(id, transferAmount)).txs[..|s.txs|][id].status == Success
    ensures var t := Run(Next(s, EvWebhook(id, transferAmount)), between);
      Next(t, EvWebhook(id, again)) == t
  {
    assert TxLinked(s, id);
    PendingShape(s, id);
    NeverReopens(Next(s, EvWebhook(id, transferAmount)), between, id);
  }

  /** A successful transaction changes exactly when it belongs to a pending order of a user whose
      new upgrade request is accepted; only a patch can have brought it there. */
  lemma SuccessChangesExactly(s: State, e: Event, id: nat)
    requires Linked(s) && id < |s.txs| && s.txs[id].status == Success
    ensures id < |Next(s, e).txs|
    ensures Next(s, e).txs[id] != s.txs[id]
       <==> e.EvUpgrade? && Step(s, e).Done? && OfPendingOrder(s.txs[id], s.orders, e.user)
  {
    assert TxLinked(s, id);
  }

  /** While pending orders are unpaid a successful transaction does not change. */
  lemma StepKeepsSuccess(s: State, e: Event, id: nat)
    requires Linked(s) && RequestsUnpaid(s) && id < |s.txs| && s.txs[id].status == Success
    ensures id < |Next(s, e).txs| && Next(s, e).txs[id] == s.txs[id]
  {
    SuccessChangesExactly(s, e, id);
    assert TxLinked(s, id);
    if s.txs[id].link.OrderLink? && s.txs[id].link.order < |s.orders| {
      assert Unpaid(s, s.txs[id].link.order) && OrderLinked(s, s.txs[id].link.order);
    }
  }

  /** Without patches a successful transaction never changes again. */
  lemma {:induction false} SuccessIsFinal(s: State, events: seq<Event>, id: nat)
    requires Linked(s) && RequestsUnpaid(s) && Unpatched(events) && id < |s.txs| && s.txs[id].status == Success
    ensures id < |Run(s, events).txs| && Run(s, events).txs[id] == s.txs[id]
    decreases |events|
  {
    if events == [] {
    } else {
      assert events[0] in events;
      StepLinked(s, events[0]);
      StepUnpaid(s, events[0]);
      StepKeepsSuccess(s, events[0], id);
      SuccessIsFinal(Next(s, events[0]), events[1..], id);
    }
  }
}
