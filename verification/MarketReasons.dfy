/** Why requests are refused, said of the rows they meet and not of the order in which the services
    look: a step is refused exactly when there is a reason, and the error it gives is one. */
module MarketReasons {
  import opened Wrappers
  import opened Ledger
  import opened Market
  import opened MarketLinks
  import opened MarketOrders
  import Calendar
  import Fee
  import Ladder

  predicate UnknownUser(s: State, user: nat, x: Error) {
    x == NotFound && user >= |s.users|
  }

  predicate WithdrawReason(s: State, user: nat, sum: real, x: Error) {
    || (x == BadRequest && sum < 10000.0)
    || UnknownUser(s, user, x)
    || (x == NotEnoughBalance && WalletOf(s.txs, user) < sum)
    || (x == ExistPendingWithdrawal
        && exists i :: 0 <= i < |s.txs| && s.txs[i].user == user && s.txs[i].kind == Withdrawal
                       && s.txs[i].status == Pending)
  }

  predicate DecisionReason(s: State, tx: nat, x: Error) {
    || (x == NotFound && tx >= |s.txs|)
    || (x == NotAWithdrawal && tx < |s.txs| && s.txs[tx].kind != Withdrawal)
    || (x == TransactionNotInPending && tx < |s.txs| && s.txs[tx].status != Pending)
  }

  predicate WebhookReason(s: State, tx: nat, transferAmount: real, x: Error) {
    || (x == NotFound && tx >= |s.txs|)
    || (x == AmountIsNotEqual && tx < |s.txs| && s.txs[tx].status == Pending && s.txs[tx].amount != transferAmount)
  }

  predicate PatchReason(s: State, tx: nat, patch: Option<Status>, x: Error) {
    || (x == NotFound && tx >= |s.txs|)
    || (x == TransactionNotInPending && tx < |s.txs| && s.txs[tx].status != Pending)
    || (x == NotEnoughBalance && tx < |s.txs| && patch == Some(Success)
        && WalletOf(s.txs, s.txs[tx].user) < s.txs[tx].amount)
  }

  predicate ActiveOrder(s: State, user: nat, k: int) {
    0 <= k < |s.orders| && s.orders[k].user == user && s.orders[k].status == OrderActive
  }

  predicate FeeReason(s: State, user: nat, pkg: Option<Fee.PackageRow>, months: real, y: Fee.UpgradeError) {
    || (y == Fee.UpgradePackageNotFound && pkg.None?)
    || (y == Fee.TotalMonthLesserThanMinMonth && pkg.Some? && months < pkg.value.minOrderMonth as real)
    || (y == Fee.CannotDowngradeOrder && pkg.Some?
        && exists k :: 0 <= k < |s.orders| && ActiveOrder(s, user, k)
                       && pkg.value.maxPhotoQuota < s.orders[k].snapshot.maxPhotoQuota)
    || (y == Fee.CannotTransferToTheSameUpgradePackage && pkg.Some?
        && exists k :: 0 <= k < |s.orders| && ActiveOrder(s, user, k) && s.orders[k].snapshot.id == pkg.value.id)
  }

  /** The amount due is the one that `Fee.QuoteMeans` speaks of. */
  predicate UpgradeReason(
    s: State, user: nat, pkg: Option<Fee.PackageRow>, months: real, pay: PaymentMethod, x: Error)
  {
    || (x == BadRequest && (months < 1.0 || 12.0 < months))
    || UnknownUser(s, user, x)
    || (x.UpgradeRefused? && FeeReason(s, user, pkg, months, x.reason))
    || (x == NotEnoughBalance && pay == Wallet && months >= 0.0
        && var fee := Fee.TransferFee(CurrentOrder(s, user), pkg, months, s.now);
           fee.Ok? && WalletOf(s.txs, user) < fee.value.remain)
  }

  predicate Missing(s: State, photo: nat, x: Error) {
    x == NotFound && (photo >= |s.photos| || s.photos[photo].deleted)
  }

  predicate NotTheirs(s: State, user: nat, photo: nat, x: Error) {
    x == NotBelongPhoto && photo < |s.photos| && s.photos[photo].photographer != user
  }

  predicate Listing(s: State, photo: nat) {
    exists i :: 0 <= i < |s.sellings| && s.sellings[i].photo == photo && s.sellings[i].active
  }

  predicate UpdateReason(
    s: State, editor: Option<nat>, photo: nat, visibility: Option<Visibility>, watermark: Option<bool>, x: Error)
  {
    || Missing(s, photo, x)
    || (editor.Some? && NotTheirs(s, editor.value, photo, x))
    || (x == DuplicatedPhoto && editor.Some? && photo < |s.photos| && s.photos[photo].status == PhotoDuplicated)
    || (x == CannotUpdateWatermark && watermark == Some(true) && Listing(s, photo))
    || (x == CannotUpdateVisibility && editor.Some? && visibility.Some? && Listing(s, photo))
  }

  predicate StopReason(s: State, user: nat, photo: nat, x: Error) {
    || Missing(s, photo, x)
    || NotTheirs(s, user, photo, x)
    || (x == DuplicatedPhoto && photo < |s.photos| && s.photos[photo].status == PhotoDuplicated)
    || (x == BookingPhoto && photo < |s.photos| && s.photos[photo].kind == Booking)
  }

  predicate SellReason(s: State, user: nat, photo: nat, tags: seq<Tag>, x: Error) {
    || (x == BadRequest
        && (tags == [] || exists i :: 0 <= i < |tags| && (tags[i].price < 1000.0 || tags[i].size.width < 480)))
    || StopReason(s, user, photo, x)
    || (x == PhotoBanned && photo < |s.photos| && s.photos[photo].status == PhotoBan)
    || (x == SellQualityNotExist && photo < |s.photos|
        && exists i :: 0 <= i < |tags|
             && tags[i].size !in Ladder.Rungs(s.photos[photo].width, s.photos[photo].height))
  }

  /** What is asked for is not on offer. */
  predicate NotOffered(s: State, photo: nat, selling: nat, tag: nat) {
    || photo >= |s.photos| || s.photos[photo].deleted
    || selling >= |s.sellings| || s.sellings[selling].photo != photo || !s.sellings[selling].active
    || tag >= |s.sellings[selling].tags|
  }

  /** The buyer has paid for this size of the photo, under whatever selling. */
  predicate Owns(s: State, buyer: nat, photo: nat, width: int, height: int) {
    exists k :: 0 <= k < |s.purchases|
      && var p := s.purchases[k];
         p.buyer == buyer && p.size.width == width && p.size.height == height
         && p.selling < |s.sellings| && s.sellings[p.selling].photo == photo
         && p.buyTx < |s.txs| && s.txs[p.buyTx].status == Success
  }

  predicate BuyReason(s: State, buyer: nat, photo: nat, selling: nat, tag: nat, pay: PaymentMethod, x: Error) {
    || UnknownUser(s, buyer, x)
    || (x == NotFound && NotOffered(s, photo, selling, tag))
    || (x == PhotoBanned && photo < |s.photos| && s.photos[photo].status == PhotoBan)
    || (x == CannotBuyOwnedPhoto && photo < |s.photos| && s.photos[photo].photographer == buyer)
    || (!NotOffered(s, photo, selling, tag)
        && var chosen := s.sellings[selling].tags[tag];
           || (x == ExistSuccessedPhotoBuy && Owns(s, buyer, photo, chosen.size.width, chosen.size.height))
           || (x == NotEnoughBalance && pay == Wallet && WalletOf(s.txs, buyer) < chosen.price))
  }

  predicate Reason(s: State, e: Event, x: Error) {
    match e
    case EvDeposit(user, sum) => (x == BadRequest && sum < 10000.0) || UnknownUser(s, user, x)
    case EvWithdraw(user, sum) => WithdrawReason(s, user, sum, x)
    case EvAccept(tx) => DecisionReason(s, tx, x)
    case EvDeny(tx) => DecisionReason(s, tx, x)
    case EvWebhook(tx, transferAmount) => WebhookReason(s, tx, transferAmount, x)
    case EvPatch(tx, patch) => PatchReason(s, tx, patch, x)
    case EvUpgrade(user, pkg, months, pay) => UpgradeReason(s, user, pkg, months, pay, x)
    case EvUpload(user, _, _, _, _) => UnknownUser(s, user, x)
    case EvUpdate(editor, photo, _, visibility, watermark) => UpdateReason(s, editor, photo, visibility, watermark, x)
    case EvModerate(photo, _) => Missing(s, photo, x)
    case EvDuplicate(photo) => Missing(s, photo, x)
    case EvMark(photo, _) => Missing(s, photo, x)
    case EvDelete(owner, photo) => Missing(s, photo, x) || (owner.Some? && NotTheirs(s, owner.value, photo, x))
    case EvSell(user, photo, tags) => SellReason(s, user, photo, tags, x)
    case EvStop(user, photo) => StopReason(s, user, photo, x)
    case EvBuy(user, photo, selling, tag, pay) => BuyReason(s, user, photo, selling, tag, pay, x)
    case _ => false
  }

  /** Accepted without a reason to refuse, or refused for a reason. */
  ghost predicate RefusedWithReason(s: State, e: Event) {
    match Step(s, e)
    case Refused(x) => Reason(s, e, x)
    case Done(_) => forall x :: !Reason(s, e, x)
  }

  lemma PaymentReasons(s: State, e: Event)
    requires Linked(s) && OfPayments(e)
    ensures RefusedWithReason(s, e)
  {
    if e.EvWebhook? && e.tx < |s.txs| {
      assert TxLinked(s, e.tx);
    }
  }

  ghost predicate FeeRefusedWithReason(s: State, user: nat, pkg: Option<Fee.PackageRow>, months: real)
    requires months >= 0.0
  {
    match Fee.TransferFee(CurrentOrder(s, user), pkg, months, s.now)
    case Err(y) => FeeReason(s, user, pkg, months, y)
    case Ok(_) => forall y :: !FeeReason(s, user, pkg, months, y)
  }

  lemma FeeReasons(s: State, user: nat, pkg: Option<Fee.PackageRow>, months: real)
    requires Linked(s) && Coupled(s) && months >= 0.0
    ensures FeeRefusedWithReason(s, user, pkg, months)
  {
    var f := FirstActive(s.orders, user, 0);
    if f.Some? {
      forall k | 0 <= k < |s.orders| && ActiveOrder(s, user, k) ensures k == f.value {
        assert PairCoupled(s, k, f.value);
      }
      assert ActiveOrder(s, user, f.value);
    }
  }

  /** The check for an expiry in the past never refuses. */
  lemma RequestOutcome(s: State, user: nat, pkg: Option<Fee.PackageRow>, months: real, pay: PaymentMethod)
    requires 1.0 <= months <= 12.0 && user < |s.users| && pkg.Some?
    ensures var r, fee := RequestUpgradePayment(s, user, pkg, months, pay),
                          Fee.TransferFee(CurrentOrder(s, user), pkg, months, s.now);
      && (fee.Err? ==> r == Refused(UpgradeRefused(fee.error)))
      && (fee.Ok? && pay == Wallet && Balance(s, user) < fee.value.remain ==> r == Refused(NotEnoughBalance))
      && (fee.Ok? && !(pay == Wallet && Balance(s, user) < fee.value.remain) ==> r.Done?)
  {
    Calendar.AddMonthsAsCodedLater(s.now, months.Floor);
  }

  lemma UpgradeReasons(s: State, e: Event)
    requires Linked(s) && Coupled(s) && e.EvUpgrade?
    ensures RefusedWithReason(s, e)
  {
    if 1.0 <= e.months <= 12.0 {
      FeeReasons(s, e.user, e.pkg, e.months);
      if e.user < |s.users| && e.pkg.Some? {
        RequestOutcome(s, e.user, e.pkg, e.months, e.pay);
      }
    }
  }

  lemma EditReasons(s: State, e: Event)
    requires Edits(e) || e.EvUpload? || e.EvDelete? || e.EvPackages?
    ensures RefusedWithReason(s, e)
  {
  }

  lemma SellReasons(s: State, e: Event)
    requires e.EvSell? || e.EvStop?
    ensures RefusedWithReason(s, e)
  {
  }

  lemma BuyReasons(s: State, e: Event)
    requires e.EvBuy?
    ensures RefusedWithReason(s, e)
  {
  }

  lemma TickReasons(s: State, e: Event)
    requires e.Tick? || e.Register? || e.EvExpireOrders?
    ensures RefusedWithReason(s, e)
  {
  }

  /** In every reachable state a request is refused exactly when there is a reason to, and for one. */
  lemma RefusedExactly(s: State, e: Event)
    requires Linked(s) && Coupled(s)
    ensures RefusedWithReason(s, e)
  {
    if OfPayments(e) {
      PaymentReasons(s, e);
    } else if e.EvUpgrade? {
      UpgradeReasons(s, e);
    } else if e.EvBuy? {
      BuyReasons(s, e);
    } else if e.EvSell? || e.EvStop? {
      SellReasons(s, e);
    } else if OfGoods(e) {
      EditReasons(s, e);
    } else {
      TickReasons(s, e);
    }
  }
}
