/** The services as methods on the tables. Each one leaves the tables exactly as the step function
    of the state machine says, and refuses exactly when that function refuses. */
module MarketStore {
  import opened Wrappers
  import Sums
  import opened Ledger
  import opened Market
  import opened MarketLinks
  import Fee
  import Calendar
  import Ladder

  /** Outcome of a service call against the step that specifies it. */
  predicate Follows(step: Outcome, before: State, after: State, error: Option<Error>) {
    match step
    case Done(s) => error.None? && after == s
    case Refused(e) => error == Some(e) && after == before
  }

  /** Ids of a user's pending orders. */
  function PendingOrderIds(orders: seq<Order>, user: nat, n: nat): (ids: seq<nat>)
    requires n <= |orders|
    ensures forall k: nat :: k in ids <==> k < n && orders[k].user == user && orders[k].status == OrderPending
  {
    if n == 0 then []
    else
      PendingOrderIds(orders, user, n - 1)
      + if orders[n - 1].user == user && orders[n - 1].status == OrderPending then [n - 1] else []
  }

  /** Ids of a buyer's purchases of one offer whose payment is pending. */
  function PendingOfferIds(
    purchases: seq<Purchase>, txs: seq<Tx>, buyer: nat, selling: nat, tag: Tag, n: nat): (ids: seq<nat>)
    requires n <= |purchases|
    ensures forall k: nat :: k in ids <==>
      k < n && SameOffer(purchases[k], buyer, selling, tag)
      && purchases[k].buyTx < |txs| && txs[purchases[k].buyTx].status == Pending
  {
    if n == 0 then []
    else
      PendingOfferIds(purchases, txs, buyer, selling, tag, n - 1)
      + var p := purchases[n - 1];
        if SameOffer(p, buyer, selling, tag) && p.buyTx < |txs| && txs[p.buyTx].status == Pending
        then [n - 1] else []
  }

  /** Without an overdue order the expiry tick changes nothing, so the service may return early. */
  lemma NothingLapses(s: State)
    requires forall k: nat | k < |s.orders| :: !Overdue(s.orders[k], s.now)
    ensures Next(s, EvExpireOrders) == s
  {
    assert ExpiredOrders(s.orders, s.now) == s.orders;
    assert Hidden(s.photos, s.orders, s.now) == s.photos;
    assert Disabled(s.packages, s.orders, s.now) == s.packages;
  }

  class Store {
    var now: int
    var users: seq<User>
    var txs: seq<Tx>
    var orders: seq<Order>
    var photos: seq<Photo>
    var sellings: seq<Selling>
    var purchases: seq<Purchase>
    var packages: seq<ShootPackage>

    function View(): State
      reads this
    {
      State(now, users, txs, orders, photos, sellings, purchases, packages)
    }

    ghost predicate Valid()
      reads this
    {
      Linked(View())
    }

    constructor ()
      ensures View() == INITIAL && Valid()
    {
      now, users, txs, orders, photos, sellings, purchases, packages := 0, [], [], [], [], [], [], [];
    }

    // ---- money in and out ----

    method CalculateWallet(user: nat) returns (balance: real)
      ensures balance == Balance(View(), user)
    {
      balance := 0.0;
      ghost var rows := Sums.Select(Owner, user, txs);
      var i := 0;
      while i < |txs|
        invariant i <= |txs|
        invariant Reduce(Sums.Select(Owner, user, txs[i..]), balance) == Reduce(rows, 0.0)
      {
        assert txs[i..][0] == txs[i] && txs[i..][1..] == txs[i + 1..];
        if txs[i].user == user {
          assert Sums.Select(Owner, user, txs[i..])[1..] == Sums.Select(Owner, user, txs[i + 1..]);
          balance := Apply(balance, txs[i]);
        }
        i := i + 1;
      }
    }

    method CreateDeposit(user: nat, amount: real) returns (error: Option<Error>)
      requires Valid()
      modifies this
      ensures Valid()
      ensures Follows(Step(old(View()), EvDeposit(user, amount)), old(View()), View(), error)
    {
      StepLinked(View(), EvDeposit(user, amount));
      if amount < MIN_AMOUNT { return Some(BadRequest); }
      if user >= |users| { return Some(NotFound); }
      txs := txs + [Tx(user, Deposit, Pending, Sepay, amount, 0.0, now, NoLink)];
      error := None;
    }

    method CreateWithdrawal(user: nat, amount: real) returns (error: Option<Error>)
      requires Valid()
      modifies this
      ensures Valid()
      ensures Follows(Step(old(View()), EvWithdraw(user, amount)), old(View()), View(), error)
    {
      StepLinked(View(), EvWithdraw(user, amount));
      if amount < MIN_AMOUNT { return Some(BadRequest); }
      if user >= |users| { return Some(NotFound); }
      var balance := CalculateWallet(user);
      if balance < amount { return Some(NotEnoughBalance); }
      if HasPendingWithdrawal(txs, user) { return Some(ExistPendingWithdrawal); }
      txs := txs + [Tx(user, Withdrawal, Pending, Wallet, amount, 0.0, now, NoLink)];
      error := None;
    }

    method UpdateStatus(id: nat, status: Status)
      requires id < |txs|
      modifies this`txs
      ensures View() == WithStatus(old(View()), id, status)
    {
      txs := txs[id := txs[id].(status := status)];
    }

    method AcceptWithdrawal(id: nat) returns (error: Option<Error>)
      requires Valid()
      modifies this
      ensures Valid()
      ensures Follows(Step(old(View()), EvAccept(id)), old(View()), View(), error)
    {
      StepLinked(View(), EvAccept(id));
      if id >= |txs| { return Some(NotFound); }
      if txs[id].kind != Withdrawal { return Some(NotAWithdrawal); }
      if txs[id].status != Pending { return Some(TransactionNotInPending); }
      UpdateStatus(id, Success);
      error := None;
    }

    method DenyWithdrawal(id: nat) returns (error: Option<Error>)
      requires Valid()
      modifies this
      ensures Valid()
      ensures Follows(Step(old(View()), EvDeny(id)), old(View()), View(), error)
    {
      StepLinked(View(), EvDeny(id));
      if id >= |txs| { return Some(NotFound); }
      if txs[id].kind != Withdrawal { return Some(NotAWithdrawal); }
      if txs[id].status != Pending { return Some(TransactionNotInPending); }
      UpdateStatus(id, Cancel);
      error := None;
    }

    method UpdateTransaction(id: nat, patch: Option<Status>) returns (error: Option<Error>)
      requires Valid()
      modifies this
      ensures Valid()
      ensures Follows(Step(old(View()), EvPatch(id, patch)), old(View()), View(), error)
    {
      StepLinked(View(), EvPatch(id, patch));
      if id >= |txs| { return Some(NotFound); }
      if txs[id].status != Pending { return Some(TransactionNotInPending); }
      var balance := CalculateWallet(txs[id].user);
      if patch == Some(Success) && txs[id].amount > balance { return Some(NotEnoughBalance); }
      if patch.Some? {
        UpdateStatus(id, patch.value);
      }
      error := None;
    }

    /** One bulk update of the pending rows of a kind that are old enough. */
    method ExpirePending(withdrawals: bool, before: int)
      modifies this`txs
      ensures |txs| == |old(txs)|
      ensures forall i :: 0 <= i < |txs| ==>
        txs[i] == if old(txs)[i].status == Pending && (old(txs)[i].kind == Withdrawal) == withdrawals
                     && old(txs)[i].createdAt <= before
                  then old(txs)[i].(status := Expired) else old(txs)[i]
    {
      var i := 0;
      while i < |txs|
        invariant i <= |txs| == |old(txs)|
        invariant forall j :: i <= j < |txs| ==> txs[j] == old(txs)[j]
        invariant forall j :: 0 <= j < i ==>
          txs[j] == if old(txs)[j].status == Pending && (old(txs)[j].kind == Withdrawal) == withdrawals
                       && old(txs)[j].createdAt <= before
                    then old(txs)[j].(status := Expired) else old(txs)[j]
      {
        if txs[i].status == Pending && (txs[i].kind == Withdrawal) == withdrawals && txs[i].createdAt <= before {
          txs := txs[i := txs[i].(status := Expired)];
        }
        i := i + 1;
      }
    }

    method CleanupPendingTransaction()
      requires Valid()
      modifies this
      ensures Valid()
      ensures View() == Next(old(View()), EvSweep)
    {
      StepLinked(View(), EvSweep);
      ghost var before := View();
      ExpirePending(false, now - FIVE_MINUTES);
      ExpirePending(true, now - THREE_DAYS);
      assert txs == Next(before, EvSweep).txs;
    }

    // ---- the bank's webhook ----

    method HandleUpgradeToPhotographer(id: nat, order: nat)
      requires id < |txs| && order < |orders|
      modifies this
      ensures View() == ActivateOrder(old(View()), id, order)
    {
      var user := txs[id].user;
      orders := CloseActive(orders, user, OrderCancel);
      txs := txs[id := txs[id].(status := Success)];
      orders := orders[order := orders[order].(status := OrderActive)];
      users := WithLimits(users, user, orders[order].snapshot);
    }

    method HandleBuy(id: nat, purchase: nat)
      requires id < |txs| && purchase < |purchases|
      modifies this
      ensures View() == SettlePurchase(old(View()), id, purchase)
    {
      var t, p := txs[id], purchases[purchase];
      txs := txs[id := t.(status := Success, pay := Sepay)];
      purchases := purchases[purchase := p.(sellTx := Some(|txs|))];
      txs := txs + [SellRow(p, purchase, t.amount, t.fee, now)];
    }

    /** `id` is the row whose id the memo decodes to, if any. */
    method ProcessTransaction(id: nat, transferAmount: real) returns (error: Option<Error>)
      requires Valid()
      modifies this
      ensures Valid()
      ensures Follows(Step(old(View()), EvWebhook(id, transferAmount)), old(View()), View(), error)
    {
      StepLinked(View(), EvWebhook(id, transferAmount));
      error := None;
      if id >= |txs| { return Some(NotFound); }
      var t := txs[id];
      if t.status != Pending { return; }
      if t.amount != transferAmount { return Some(AmountIsNotEqual); }
      match t.kind {
        case UpgradeToPhotographer =>
          if !(t.link.OrderLink? && t.link.order < |orders|) { return Some(TransactionNotFound); }
          HandleUpgradeToPhotographer(id, t.link.order);
        case Deposit => UpdateStatus(id, Success);
        case Withdrawal => UpdateStatus(id, Success);
        case ImageSell =>
        case ImageBuy =>
          if !(t.link.PurchaseLink? && t.link.purchase < |purchases|) { return Some(TransactionNotFound); }
          HandleBuy(id, t.link.purchase);
        case RefundFromBuyImage =>
      }
    }

    // ---- upgrade orders ----

    method CancelOrderAndTransaction(order: nat)
      requires order < |orders| && orders[order].tx < |txs|
      modifies this`orders, this`txs
      ensures orders == old(orders)[order := old(orders)[order].(status := OrderCancel)]
      ensures txs == old(txs)[orders[order].tx := old(txs)[orders[order].tx].(status := Cancel)]
    {
      orders := orders[order := orders[order].(status := OrderCancel)];
      txs := txs[orders[order].tx := txs[orders[order].tx].(status := Cancel)];
    }

    method CancelPendingOf(user: nat)
      requires Valid()
      modifies this`orders, this`txs
      ensures View() == Cleared(old(View()), user)
    {
      var pending := PendingOrderIds(orders, user, |orders|);
      ghost var before := View();
      var n := 0;
      while n < |pending|
        invariant n <= |pending|
        invariant |orders| == |before.orders| && |txs| == |before.txs|
        invariant forall k: nat | k < |orders| ::
          orders[k] == if k in pending[..n] then before.orders[k].(status := OrderCancel) else before.orders[k]
        invariant forall i: nat | i < |txs| ::
          txs[i] == if before.txs[i].link.OrderLink? && before.txs[i].link.order in pending[..n]
                    then before.txs[i].(status := Cancel) else before.txs[i]
      {
        var k := pending[n];
        assert k in pending && OrderLinked(before, k);
        forall i: nat | i < |txs| && before.txs[i].link == OrderLink(k) ensures i == before.orders[k].tx {
          assert TxLinked(before, i);
        }
        assert pending[..n + 1] == pending[..n] + [k];
        CancelOrderAndTransaction(k);
        n := n + 1;
      }
      assert pending[..n] == pending;
      assert orders == Cleared(before, user).orders;
      assert txs == Cleared(before, user).txs;
    }

    method AddCalendarMonths(months: real) returns (expiredAt: int)
      ensures expiredAt == Calendar.AddMonthsAsCoded(now, months.Floor)
    {
      var currentDate := new Calendar.JsDate(now);
      var expiredDate := Calendar.AddCalendarMonths(currentDate, months.Floor);
      expiredAt := expiredDate.t;
    }

    method RequestUpgradePayment(user: nat, pkg: Option<Fee.PackageRow>, months: real, pay: PaymentMethod)
      returns (error: Option<Error>)
      requires Valid()
      modifies this
      ensures Valid()
      ensures Follows(Step(old(View()), EvUpgrade(user, pkg, months, pay)), old(View()), View(), error)
    {
      ghost var before := View();
      StepLinked(View(), EvUpgrade(user, pkg, months, pay));
      if !(1.0 <= months <= 12.0) { return Some(BadRequest); }
      if user >= |users| { return Some(NotFound); }
      if pkg.None? { return Some(UpgradeRefused(Fee.UpgradePackageNotFound)); }

      var fee := Fee.TransferFee(CurrentOrder(View(), user), pkg, months, now);
      if fee.Err? { return Some(UpgradeRefused(fee.error)); }
      var quote := fee.value;

      var expiredAt := AddCalendarMonths(months);
      if expiredAt < now { return Some(NotValidExpireDate); }
      Calendar.AddMonthsAsCodedLater(now, months.Floor);

      if pay == Wallet {
        var balance := CalculateWallet(user);
        if balance < quote.remain { return Some(NotEnoughBalance); }
      }

      PlaceNewOrder(user, pkg.value, expiredAt, quote, pay);
      error := None;
    }

    method PlaceNewOrder(user: nat, p: Fee.PackageRow, expiredAt: int, quote: Fee.Quote, pay: PaymentMethod)
      requires Valid() && now < expiredAt
      modifies this
      ensures View() == PlaceOrder(old(View()), user, p, expiredAt, quote.remain, quote.discount, pay)
    {
      CancelPendingOf(user);
      if pay == Sepay {
        CreateUpgradeOrder(user, p, expiredAt, quote, OrderPending, Pending, Sepay);
      } else {
        orders := CloseActive(orders, user, OrderExpire);
        CreateUpgradeOrder(user, p, expiredAt, quote, OrderActive, Success, Wallet);
        users := WithLimits(users, user, p);
      }
    }

    method CreateUpgradeOrder(
      user: nat, p: Fee.PackageRow, expiredAt: int, quote: Fee.Quote,
      status: OrderStatus, txStatus: Status, pay: PaymentMethod)
      requires now < expiredAt
      modifies this`orders, this`txs
      ensures orders == old(orders) + [Order(user, status, now, expiredAt, p, |old(txs)|)]
      ensures txs == old(txs) + [Tx(user, UpgradeToPhotographer, txStatus, pay, quote.remain, quote.discount,
                                    now, OrderLink(|old(orders)|))]
    {
      var order, tx := |orders|, |txs|;
      txs := txs + [Tx(user, UpgradeToPhotographer, txStatus, pay, quote.remain, quote.discount,
                       now, OrderLink(order))];
      orders := orders + [Order(user, status, now, expiredAt, p, tx)];
    }

    method FindManyActivateAndExpired() returns (expired: seq<nat>)
      ensures forall k: nat :: k in expired <==> k < |orders| && Overdue(orders[k], now)
    {
      expired := [];
      var k := 0;
      while k < |orders|
        invariant k <= |orders|
        invariant forall j: nat :: j in expired <==> j < k && Overdue(orders[j], now)
      {
        if Overdue(orders[k], now) {
          expired := expired + [k];
        }
        k := k + 1;
      }
    }

    method DeactivateActivatedAndExpired()
      modifies this`orders
      ensures orders == ExpiredOrders(old(orders), now)
    {
      ghost var before := orders;
      var k := 0;
      while k < |orders|
        invariant k <= |orders| == |before|
        invariant forall j: nat | k <= j < |orders| :: orders[j] == before[j]
        invariant forall j: nat | j < k :: orders[j] == ExpiredOrders(before, now)[j]
      {
        if Overdue(orders[k], now) {
          orders := orders[k := orders[k].(status := OrderExpire)];
        }
        k := k + 1;
      }
    }

    /** The photos and packages are chosen by the orders, so they are updated before these. */
    method DeactivateAndNotifyExpiredOrder() returns (expired: seq<nat>)
      requires Valid()
      modifies this
      ensures Valid()
      ensures View() == Next(old(View()), EvExpireOrders)
      ensures forall k: nat :: k in expired <==> k < |old(orders)| && Overdue(old(orders)[k], now)
    {
      StepLinked(View(), EvExpireOrders);
      expired := FindManyActivateAndExpired();
      if expired == [] {
        NothingLapses(View());
        return;
      }
      photos := Hidden(photos, orders, now);
      packages := Disabled(packages, orders, now);
      DeactivateActivatedAndExpired();
    }

    // ---- photos and sellings ----

    method DeletePhoto(user: Option<nat>, photo: nat) returns (error: Option<Error>)
      requires Valid()
      modifies this
      ensures Valid()
      ensures Follows(Step(old(View()), EvDelete(user, photo)), old(View()), View(), error)
    {
      StepLinked(View(), EvDelete(user, photo));
      if !Live(View(), photo) { return Some(NotFound); }
      if user.Some? && photos[photo].photographer != user.value { return Some(NotBelongPhoto); }
      photos := photos[photo := photos[photo].(deleted := true)];
      sellings := Deactivated(sellings, photo);
      error := None;
    }

    method StopSellingPhoto(user: nat, photo: nat) returns (error: Option<Error>)
      requires Valid()
      modifies this
      ensures Valid()
      ensures Follows(Step(old(View()), EvStop(user, photo)), old(View()), View(), error)
    {
      StepLinked(View(), EvStop(user, photo));
      if !Live(View(), photo) { return Some(NotFound); }
      if photos[photo].photographer != user { return Some(NotBelongPhoto); }
      if photos[photo].status == PhotoDuplicated { return Some(DuplicatedPhoto); }
      if photos[photo].kind == Booking { return Some(BookingPhoto); }
      sellings := Deactivated(sellings, photo);
      photos := photos[photo := photos[photo].(visibility := Private, watermark := false)];
      error := None;
    }

    /** Looks every price tag up in the sizes available for the photo. */
    method TagsAvailable(tags: seq<Tag>, photo: Photo) returns (ok: bool)
      ensures ok <==> TagsOnLadder(tags, photo)
    {
      var file := Ladder.PhotoFile(0, photo.width, photo.height, photo.status == PhotoPending, false, "", "");
      var available := Ladder.GetAvailablePhotoResolution(file);
      var sizes := Ladder.Sizes(available);
      var i := 0;
      while i < |tags|
        invariant i <= |tags|
        invariant forall j :: 0 <= j < i ==> tags[j].size in Ladder.Rungs(photo.width, photo.height)
      {
        if tags[i].size !in sizes { return false; }
        i := i + 1;
      }
      ok := true;
    }

    method SellPhoto(user: nat, photo: nat, tags: seq<Tag>) returns (error: Option<Error>)
      requires Valid()
      modifies this
      ensures Valid()
      ensures Follows(Step(old(View()), EvSell(user, photo, tags)), old(View()), View(), error)
    {
      StepLinked(View(), EvSell(user, photo, tags));
      if !TagsWellFormed(tags) { return Some(BadRequest); }
      if !Live(View(), photo) { return Some(NotFound); }
      var p := photos[photo];
      if p.photographer != user { return Some(NotBelongPhoto); }
      if p.status == PhotoDuplicated { return Some(DuplicatedPhoto); }
      if p.kind == Booking { return Some(BookingPhoto); }
      if p.status == PhotoBan { return Some(PhotoBanned); }
      var available := TagsAvailable(tags, p);
      if !available { return Some(SellQualityNotExist); }

      var previousActive := exists i :: 0 <= i < |sellings| && sellings[i].photo == photo && sellings[i].active;
      if previousActive {
        sellings := Deactivated(sellings, photo);
      }
      assert sellings == Deactivated(old(sellings), photo);
      photos := photos[photo := p.(watermark := true, visibility := Public)];
      sellings := sellings + [Selling(photo, true, tags)];
      error := None;
    }

    // ---- purchases ----

    method CancelPendingOffers(buyer: nat, selling: nat, tag: Tag)
      requires Valid()
      modifies this`txs
      ensures View() == old(View()).(txs := CancelOffers(old(txs), purchases, buyer, selling, tag))
    {
      var pending := PendingOfferIds(purchases, txs, buyer, selling, tag, |purchases|);
      ghost var before := View();
      var n := 0;
      while n < |pending|
        invariant n <= |pending|
        invariant |txs| == |before.txs|
        invariant forall i: nat | i < |txs| ::
          txs[i] == if before.txs[i].kind == ImageBuy && before.txs[i].link.PurchaseLink?
                       && before.txs[i].link.purchase in pending[..n]
                    then before.txs[i].(status := Cancel) else before.txs[i]
      {
        var k := pending[n];
        assert k in pending && PurchaseLinked(before, k);
        forall i: nat | i < |txs| && before.txs[i].kind == ImageBuy && before.txs[i].link == PurchaseLink(k)
          ensures i == before.purchases[k].buyTx
        {
          assert TxLinked(before, i);
        }
        assert pending[..n + 1] == pending[..n] + [k];
        txs := txs[purchases[k].buyTx := txs[purchases[k].buyTx].(status := Cancel)];
        n := n + 1;
      }
      assert pending[..n] == pending;
      forall i: nat | i < |txs| ensures txs[i] == CancelOffers(before.txs, purchases, buyer, selling, tag)[i] {
        assert TxLinked(before, i);
      }
    }

    method BuyPhotoRequest(buyer: nat, photo: nat, selling: nat, tag: nat, pay: PaymentMethod)
      returns (error: Option<Error>)
      requires Valid()
      modifies this
      ensures Valid()
      ensures Follows(Step(old(View()), EvBuy(buyer, photo, selling, tag, pay)), old(View()), View(), error)
    {
      StepLinked(View(), EvBuy(buyer, photo, selling, tag, pay));
      if !Live(View(), photo) { return Some(NotFound); }
      if photos[photo].status == PhotoBan { return Some(PhotoBanned); }
      if !(selling < |sellings| && sellings[selling].photo == photo && sellings[selling].active) {
        return Some(NotFound);
      }
      if photos[photo].photographer == buyer { return Some(CannotBuyOwnedPhoto); }
      if buyer >= |users| { return Some(NotFound); }
      if tag >= |sellings[selling].tags| { return Some(NotFound); }
      var chosen := sellings[selling].tags[tag];
      if AlreadyBought(View(), buyer, photo, chosen.size) { return Some(ExistSuccessedPhotoBuy); }

      // the balance is read outside the database transaction that cancels and creates rows
      var balance := CalculateWallet(buyer);
      var snapshot := txs;
      CancelPendingOffers(buyer, selling, chosen);
      if pay == Wallet && balance < chosen.price {
        txs := snapshot;
        return Some(NotEnoughBalance);
      }
      CreatePurchase(buyer, selling, chosen, photos[photo].photographer, pay);
      assert View() == RecordPurchase(old(View()), buyer, selling, chosen, photos[photo].photographer, pay);
      error := None;
    }

    method CreatePurchase(buyer: nat, selling: nat, tag: Tag, toUser: nat, pay: PaymentMethod)
      modifies this`txs, this`purchases
      ensures purchases == old(purchases)
        + [Purchase(buyer, selling, tag.size, tag.price, toUser, |old(txs)|,
                    if pay == Wallet then Some(|old(txs)| + 1) else None)]
      ensures var k := |old(purchases)|;
        txs == old(txs)
          + if pay == Wallet
            then [BuyRow(buyer, k, tag.price, Success, Wallet, now),
                  SellRow(purchases[k], k, tag.price, FeeOf(tag.price), now)]
            else [BuyRow(buyer, k, tag.price, Pending, Sepay, now)]
    {
      var n, k := |txs|, |purchases|;
      if pay == Wallet {
        var p := Purchase(buyer, selling, tag.size, tag.price, toUser, n, Some(n + 1));
        purchases := purchases + [p];
        txs := txs + [BuyRow(buyer, k, tag.price, Success, Wallet, now)];
        txs := txs + [SellRow(p, k, tag.price, FeeOf(tag.price), now)];
      } else {
        purchases := purchases + [Purchase(buyer, selling, tag.size, tag.price, toUser, n, None)];
        txs := txs + [BuyRow(buyer, k, tag.price, Pending, Sepay, now)];
      }
    }
  }
}
