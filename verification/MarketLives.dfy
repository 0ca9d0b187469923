/** The life of a request from the step that makes it to the one that settles it, whatever happens in
    between. */
module MarketLives {
  import opened Wrappers
  import opened Ledger
  import opened Market
  import opened MarketLinks
  import opened MarketOrders
  import opened MarketEffects
  import Calendar
  import Fee
  import Ladder
  import MarketMoney
  import MarketSales

  // ---- rows over runs ----

  /** Over any run a transaction keeps its user, kind, amount, fee and link. */
  lemma {:induction false} RunKeepsTx(s: State, events: seq<Event>, i: nat)
    requires i < |s.txs|
    ensures i < |Run(s, events).txs| && TxKept(s.txs[i], Run(s, events).txs[i])
    decreases |events|
  {
    if events == [] {
    } else {
      StepKeepsTxs(s, events[0]);
      assert TxKept(s.txs[i], Next(s, events[0]).txs[i]);
      RunKeepsTx(Next(s, events[0]), events[1..], i);
    }
  }

  lemma {:induction false} RunKeepsPurchase(s: State, events: seq<Event>, k: nat)
    requires k < |s.purchases|
    ensures k < |Run(s, events).purchases|
    ensures Run(s, events).purchases[k] == s.purchases[k].(sellTx := Run(s, events).purchases[k].sellTx)
    decreases |events|
  {
    if events == [] {
    } else {
      MarketSales.StepKeepsPurchases(s, events[0]);
      RunKeepsPurchase(Next(s, events[0]), events[1..], k);
    }
  }

  lemma StepKeepsOrder(s: State, e: Event, k: nat)
    requires Linked(s) && k < |s.orders|
    ensures k < |Next(s, e).orders|
    ensures Next(s, e).orders[k] == s.orders[k].(status := Next(s, e).orders[k].status)
  {
    if !e.EvUpgrade? {
      OnlyUpgradesPlaceOrders(s, e);
    } else if Step(s, e).Done? {
      var q, expiredAt := UpgradesOrder(s, e);
    }
  }

  lemma {:induction false} RunKeepsOrder(s: State, events: seq<Event>, k: nat)
    requires Linked(s) && k < |s.orders|
    ensures k < |Run(s, events).orders|
    ensures Run(s, events).orders[k] == s.orders[k].(status := Run(s, events).orders[k].status)
    decreases |events|
  {
    if events == [] {
    } else {
      StepLinked(s, events[0]);
      StepKeepsOrder(s, events[0], k);
      RunKeepsOrder(Next(s, events[0]), events[1..], k);
    }
  }

  // ---- deposits and withdrawals ----

  /** A deposit changes no wallet when it is requested; while it is pending the bank's transfer of its
      sum is accepted, and adds the sum to the wallet of the user who asked for it and to no other. */
  lemma DepositArrives(s: State, user: nat, sum: real, between: seq<Event>, u: nat)
    requires Linked(s) && Step(s, EvDeposit(user, sum)).Done?
    ensures Balance(Next(s, EvDeposit(user, sum)), u) == Balance(s, u)
    ensures var i, t := |s.txs|, Run(Next(s, EvDeposit(user, sum)), between);
      && i < |t.txs|
      && (t.txs[i].status == Pending ==>
            && Step(t, EvWebhook(i, sum)).Done?
            && Balance(Next(t, EvWebhook(i, sum)), u) == Balance(t, u) + if u == user then sum else 0.0)
  {
    var e, i := EvDeposit(user, sum), |s.txs|;
    MarketMoney.StepEffect(s, e, u);
    RequestsAdd(s, e);
    StepLinked(s, e);
    RunLinked(Next(s, e), between);
    RunKeepsTx(Next(s, e), between, i);
    MarketMoney.StepEffect(Run(Next(s, e), between), EvWebhook(i, sum), u);
  }

  lemma {:induction false} SettledWithdrawalStays(s: State, events: seq<Event>, i: nat)
    requires Linked(s) && i < |s.txs| && s.txs[i].kind == Withdrawal && s.txs[i].status in {Success, Cancel}
    ensures i < |Run(s, events).txs| && Run(s, events).txs[i] == s.txs[i]
    decreases |events|
  {
    if events == [] {
    } else {
      var s' := Next(s, events[0]);
      StepKeepsTxs(s, events[0]);
      StepLinked(s, events[0]);
      assert TxKept(s.txs[i], s'.txs[i]) && TxLinked(s, i) && TxLinked(s', i);
      if s.txs[i].status == Success {
        MarketMoney.SuccessChangesExactly(s, events[0], i);
      }
      SettledWithdrawalStays(s', events[1..], i);
    }
  }

  /** A decision on a withdrawal is final. Accepted, it is successful from then on and its sum, taken
      when it was requested, never comes back to the wallet; denied, it is cancelled from then on and
      its sum is back in the wallet. */
  lemma WithdrawalDecisionIsFinal(s: State, e: Event, after: seq<Event>, u: nat)
    requires Linked(s) && (e.EvAccept? || e.EvDeny?) && Step(s, e).Done?
    ensures e.tx < |s.txs| && e.tx < |Run(Next(s, e), after).txs|
    ensures var t, t' := s.txs[e.tx], Run(Next(s, e), after).txs[e.tx];
      && t' == t.(status := if e.EvAccept? then Success else Cancel)
      && Delta(t') == if e.EvAccept? then 0.0 - t.amount else 0.0
    ensures Balance(Next(s, e), u)
         == Balance(s, u) + if e.EvDeny? && u == s.txs[e.tx].user then s.txs[e.tx].amount else 0.0
  {
    DecisionsDecide(s, e);
    MarketMoney.StepEffect(s, e, u);
    StepLinked(s, e);
    SettledWithdrawalStays(Next(s, e), after, e.tx);
  }

  // ---- purchases by bank ----

  /** While a purchase by bank is pending, the bank's transfer of the tag's price is accepted: the
      purchase is paid, can be downloaded at the tag's width, and brings the photographer nine tenths
      of the price; no other wallet changes. */
  lemma BankPurchaseCompletes(s: State, e: Event, between: seq<Event>, u: nat)
    requires Linked(s) && MarketSales.Listed(s) && e.EvBuy? && e.pay == Sepay && Step(s, e).Done?
    ensures e.photo < |s.photos| && e.selling < |s.sellings| && e.tag < |s.sellings[e.selling].tags|
    ensures var tag, photographer := s.sellings[e.selling].tags[e.tag], s.photos[e.photo].photographer;
      var i, k, t := |s.txs|, |s.purchases|, Run(Next(s, e), between);
      var e' := EvWebhook(i, tag.price);
      && i < |t.txs| && k < |t.purchases|
      && (t.txs[i].status == Pending ==>
            && Step(t, e').Done?
            && k < |Next(t, e').purchases| && MarketSales.PurchaseListed(Next(t, e'), k)
            && MarketSales.DownloadWidth(Next(t, e'), k) == Some(tag.size.width)
            && Balance(Next(t, e'), u)
                 == Balance(t, u) + if u == photographer then 9.0 * tag.price / 10.0 else 0.0)
  {
    PurchasesRecord(s, e);
    var i, k, t := |s.txs|, |s.purchases|, Run(Next(s, e), between);
    StepLinked(s, e);
    MarketSales.StepListed(s, e);
    MarketSales.RunListed(Next(s, e), between);
    RunKeepsTx(Next(s, e), between, i);
    RunKeepsPurchase(Next(s, e), between, k);
    if t.txs[i].status == Pending {
      PendingPurchaseCompletes(t, i, k, u);
    }
  }

  lemma PendingPurchaseCompletes(t: State, i: nat, k: nat, u: nat)
    requires Linked(t) && MarketSales.Listed(t) && i < |t.txs| && k < |t.purchases|
    requires t.txs[i].status == Pending && t.txs[i].kind == ImageBuy && t.txs[i].link == PurchaseLink(k)
    ensures var p, e := t.purchases[k], EvWebhook(i, t.txs[i].amount);
      && t.txs[i].amount == p.price
      && Step(t, e).Done?
      && k < |Next(t, e).purchases| && MarketSales.PurchaseListed(Next(t, e), k)
      && MarketSales.DownloadWidth(Next(t, e), k) == Some(p.size.width)
      && Balance(Next(t, e), u) == Balance(t, u) + if u == p.toUser then 9.0 * p.price / 10.0 else 0.0
  {
    var e := EvWebhook(i, t.txs[i].amount);
    assert TxLinked(t, i) && PurchaseLinked(t, k);
    SettlesPurchase(t, i, k);
    MarketMoney.StepEffect(t, e, u);
    MarketSales.StepListed(t, e);
    PaidDownloads(Next(t, e), k);
  }

  lemma SettlesPurchase(t: State, i: nat, k: nat)
    requires Linked(t) && i < |t.txs| && k < |t.purchases|
    requires t.txs[i].status == Pending && t.txs[i].kind == ImageBuy && t.txs[i].link == PurchaseLink(k)
    ensures Step(t, EvWebhook(i, t.txs[i].amount)).Done?
    ensures PurchasePaid(t, Next(t, EvWebhook(i, t.txs[i].amount)), i, k)
  {
    assert TxLinked(t, i) && PurchaseLinked(t, k);
    TransfersSettle(t, EvWebhook(i, t.txs[i].amount));
    forall j: nat | j < |t.purchases| && t.purchases[j].buyTx == i ensures j == k {
      assert PurchaseLinked(t, j);
    }
  }

  /** A purchase can be downloaded when it is paid, and at the width it was sold at. */
  lemma PaidDownloads(s: State, k: nat)
    requires k < |s.purchases| && MarketSales.PurchaseListed(s, k)
    ensures MarketSales.DownloadWidth(s, k)
         == if s.txs[s.purchases[k].buyTx].status == Success then Some(s.purchases[k].size.width) else None
  {
  }

  // ---- upgrades by bank ----

  lemma SettlesOrder(t: State, i: nat, n: nat)
    requires Linked(t) && i < |t.txs| && n < |t.orders|
    requires t.txs[i].status == Pending && t.txs[i].kind == UpgradeToPhotographer && t.txs[i].link == OrderLink(n)
    ensures Step(t, EvWebhook(i, t.txs[i].amount)).Done?
    ensures OrderPaid(t, Next(t, EvWebhook(i, t.txs[i].amount)), i, n)
  {
    assert TxLinked(t, i) && OrderLinked(t, n);
    TransfersSettle(t, EvWebhook(i, t.txs[i].amount));
    forall j: nat | j < |t.orders| && t.orders[j].tx == i ensures j == n {
      assert OrderLinked(t, j);
    }
  }

  /** The user's only active order, with the limits of a package. */
  ghost predicate OnlyActive(s: State, user: nat, n: nat, p: Fee.PackageRow) {
    && n < |s.orders| && user < |s.users|
    && s.orders[n].snapshot == p && s.users[user] == User(p.maxPhotoQuota, p.maxPackageCount)
    && forall j: nat | j < |s.orders| && s.orders[j].user == user :: s.orders[j].status == OrderActive <==> j == n
  }

  /** An upgrade by bank changes no limits and activates nothing when it is requested. While it is
      pending the bank's transfer of what was quoted is accepted: its order becomes the user's only
      active one, with the limits of the package. */
  lemma BankUpgradeCompletes(s: State, e: Event, between: seq<Event>) returns (q: Fee.Quote)
    requires Linked(s) && e.EvUpgrade? && e.pay == Sepay && Step(s, e).Done?
    ensures e.pkg.Some? && e.months >= 0.0 && Next(s, e).users == s.users
    ensures Fee.TransferFee(CurrentOrder(s, e.user), e.pkg, e.months, s.now) == Ok(q)
    ensures var i, n, t := |s.txs|, |s.orders|, Run(Next(s, e), between);
      && i < |t.txs|
      && (t.txs[i].status == Pending ==>
            && Step(t, EvWebhook(i, q.remain)).Done?
            && OnlyActive(Next(t, EvWebhook(i, q.remain)), e.user, n, e.pkg.value))
  {
    var expiredAt;
    q, expiredAt := UpgradesOrder(s, e);
    var i, n, t := |s.txs|, |s.orders|, Run(Next(s, e), between);
    StepLinked(s, e);
    RunLinked(Next(s, e), between);
    RunKeepsTx(Next(s, e), between, i);
    RunKeepsOrder(Next(s, e), between, n);
    if t.txs[i].status == Pending {
      SettlesOrder(t, i, n);
    }
  }
}
