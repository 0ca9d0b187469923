/** What every accepted request leaves in the tables, row by row: the rows it adds, the rows it
      changes and how, and that all others are as before. */
module MarketEffects {
  import opened Wrappers
  import opened Ledger
  import opened Market
  import opened MarketLinks
  import opened MarketOrders
  import Calendar
  import Fee

  /** One row is replaced and the others are as before. */
  ghost predicate OneRow<T>(a: seq<T>, b: seq<T>, i: nat, t: T) {
    && i < |a| == |b|
    && forall j: nat | j < |a| :: b[j] == if j == i then t else a[j]
  }

  // ---- payments ----

  /** A request for money adds one pending row. */
  ghost predicate MoneyRequested(s: State, s': State, user: nat, kind: Kind, pay: PaymentMethod, sum: real) {
    && sum >= 0.0
    && s' == s.(txs := s.txs + [Tx(user, kind, Pending, pay, sum, 0.0, s.now, NoLink)])
  }

  /** The status of one pending row is set and nothing else is changed. */
  ghost predicate Decided(s: State, s': State, id: nat, status: Status) {
    && id < |s.txs| && s.txs[id].status == Pending
    && s' == s.(txs := s'.txs)
    && OneRow(s.txs, s'.txs, id, s.txs[id].(status := status))
  }

  /** The bank's transfer pays an order: it becomes the user's active one in place of any other. */
  ghost predicate OrderPaid(s: State, s': State, id: nat, k: nat) {
    && id < |s.txs| && k < |s.orders|
    && s' == s.(txs := s'.txs, orders := s'.orders, users := s'.users)
    && OneRow(s.txs, s'.txs, id, s.txs[id].(status := Success))
    && |s'.orders| == |s.orders|
    && (forall j: nat | j < |s.orders| ::
          s'.orders[j] ==
            if j == k then s.orders[j].(status := OrderActive)
            else if s.orders[j].user == s.txs[id].user && s.orders[j].status == OrderActive
            then s.orders[j].(status := OrderCancel) else s.orders[j])
    && OneRow(s.users, s'.users, s.txs[id].user,
              User(s.orders[k].snapshot.maxPhotoQuota, s.orders[k].snapshot.maxPackageCount))
  }

  predicate IsSale(t: Tx, p: Purchase, purchase: nat, now: int) {
    && t.user == p.toUser && t.kind == ImageSell && t.status == Success && t.pay == Wallet
    && t.amount == p.price && 10.0 * t.fee == p.price && t.createdAt == now && t.link == PurchaseLink(purchase)
  }

  /** The bank's transfer pays a purchase, and the photographer's sale is added. */
  ghost predicate PurchasePaid(s: State, s': State, id: nat, k: nat) {
    && id < |s.txs| && k < |s.purchases|
    && s' == s.(txs := s'.txs, purchases := s'.purchases)
    && |s'.txs| == |s.txs| + 1
    && (forall i: nat | i < |s.txs| ::
          s'.txs[i] == if i == id then s.txs[i].(status := Success, pay := Sepay) else s.txs[i])
    && IsSale(s'.txs[|s.txs|], s.purchases[k], k, s.now)
    && OneRow(s.purchases, s'.purchases, k, s.purchases[k].(sellTx := Some(|s.txs|)))
  }

  /** A transfer settles the pending transaction according to its kind. */
  ghost predicate Settled(s: State, s': State, id: nat)
    requires id < |s.txs|
  {
    match s.txs[id].kind
    case UpgradeToPhotographer => exists k: nat :: k < |s.orders| && s.orders[k].tx == id && OrderPaid(s, s', id, k)
    case ImageBuy => exists k: nat :: k < |s.purchases| && s.purchases[k].buyTx == id && PurchasePaid(s, s', id, k)
    case _ => Decided(s, s', id, Success)
  }

  lemma RequestsAdd(s: State, e: Event)
    requires (e.EvDeposit? || e.EvWithdraw?) && Step(s, e).Done?
    ensures e.EvDeposit? ==> MoneyRequested(s, Next(s, e), e.user, Deposit, Sepay, e.sum)
    ensures e.EvWithdraw? ==> MoneyRequested(s, Next(s, e), e.user, Withdrawal, Wallet, e.sum)
  {
  }

  /** A decision concerns a pending withdrawal, which becomes successful or cancelled. */
  lemma DecisionsDecide(s: State, e: Event)
    requires e.EvAccept? || e.EvDeny?
    ensures Step(s, e).Done? <==> e.tx < |s.txs| && s.txs[e.tx].kind == Withdrawal && s.txs[e.tx].status == Pending
    ensures Step(s, e).Done? ==> Decided(s, Next(s, e), e.tx, if e.EvAccept? then Success else Cancel)
  {
  }

  lemma PatchesPatch(s: State, e: Event)
    requires e.EvPatch? && Step(s, e).Done?
    ensures e.patch.None? ==> Next(s, e) == s
    ensures e.patch.Some? ==> Decided(s, Next(s, e), e.tx, e.patch.value)
  {
  }

  lemma TransfersSettle(s: State, e: Event)
    requires Linked(s) && e.EvWebhook? && Step(s, e).Done?
    ensures e.tx < |s.txs|
    ensures s.txs[e.tx].status != Pending ==> Next(s, e) == s
    ensures s.txs[e.tx].status == Pending ==> s.txs[e.tx].amount == e.transferAmount && Settled(s, Next(s, e), e.tx)
  {
    if s.txs[e.tx].status == Pending {
      PendingShape(s, e.tx);
      assert TxLinked(s, e.tx);
      var t := s.txs[e.tx];
      if t.kind == UpgradeToPhotographer {
        assert OrderPaid(s, Next(s, e), e.tx, t.link.order);
      } else if t.kind == ImageBuy {
        assert PurchaseLinked(s, t.link.purchase);
        assert PurchasePaid(s, Next(s, e), e.tx, t.link.purchase);
      }
    }
  }

  // ---- purchases ----

  /** The transaction of a pending purchase of the same tag by the same buyer. */
  predicate Superseded(s: State, i: nat, buyer: nat, selling: nat, tag: Tag) {
    i < |s.txs| && s.txs[i].status == Pending
    && exists k :: 0 <= k < |s.purchases|
         && var p := s.purchases[k];
            p.buyTx == i && p.buyer == buyer && p.selling == selling
            && p.size.width == tag.size.width && p.size.height == tag.size.height && p.price == tag.price
  }

  predicate IsPurchase(t: Tx, buyer: nat, price: real, purchase: nat, now: int) {
    && t.user == buyer && t.kind == ImageBuy && t.amount == price && 10.0 * t.fee == price
    && t.createdAt == now && t.link == PurchaseLink(purchase)
  }

  /** The purchase is recorded at the tag's size and price, to be paid to the photographer: by bank it
      waits for a transfer of that price, from the wallet it is paid and sold at once. Exactly the
      pending purchases of the same tag by the same buyer are cancelled. */
  ghost predicate Purchased(
    s: State, s': State, buyer: nat, photographer: nat, selling: nat, tag: Tag, pay: PaymentMethod)
  {
    var n, k := |s.txs|, |s.purchases|;
    && s' == s.(txs := s'.txs, purchases := s'.purchases)
    && |s'.txs| == n + (if pay == Wallet then 2 else 1) && |s'.purchases| == k + 1
    && (forall i: nat | i < n ::
          s'.txs[i] == if Superseded(s, i, buyer, selling, tag) then s.txs[i].(status := Cancel) else s.txs[i])
    && (forall j: nat | j < k :: s'.purchases[j] == s.purchases[j])
    && s'.purchases[k] == Purchase(buyer, selling, tag.size, tag.price, photographer, n,
                                   if pay == Wallet then Some(n + 1) else None)
    && IsPurchase(s'.txs[n], buyer, tag.price, k, s.now) && s'.txs[n].pay == pay
    && s'.txs[n].status == (if pay == Wallet then Success else Pending)
    && (pay == Wallet ==> IsSale(s'.txs[n + 1], s'.purchases[k], k, s.now))
  }

  lemma CancelledOffers(s: State, buyer: nat, selling: nat, tag: Tag, i: nat)
    requires Linked(s) && i < |s.txs|
    ensures PendingOffer(s.txs[i], s.purchases, buyer, selling, tag) <==> Superseded(s, i, buyer, selling, tag)
  {
    assert TxLinked(s, i);
    forall k: nat | k < |s.purchases| && s.purchases[k].buyTx == i
      ensures s.txs[i].kind == ImageBuy && s.txs[i].link == PurchaseLink(k)
    {
      assert PurchaseLinked(s, k);
    }
  }

  lemma RecordedPurchases(s: State, buyer: nat, selling: nat, tag: Tag, toUser: nat, pay: PaymentMethod)
    requires Linked(s)
    ensures Purchased(s, RecordPurchase(s, buyer, selling, tag, toUser, pay), buyer, toUser, selling, tag, pay)
  {
    forall i: nat | i < |s.txs|
      ensures PendingOffer(s.txs[i], s.purchases, buyer, selling, tag) <==> Superseded(s, i, buyer, selling, tag)
    {
      CancelledOffers(s, buyer, selling, tag, i);
    }
  }

  lemma PurchasesRecord(s: State, e: Event)
    requires Linked(s) && e.EvBuy? && Step(s, e).Done?
    ensures e.photo < |s.photos| && e.selling < |s.sellings| && e.tag < |s.sellings[e.selling].tags|
    ensures Purchased(s, Next(s, e), e.user, s.photos[e.photo].photographer, e.selling,
                      s.sellings[e.selling].tags[e.tag], e.pay)
  {
    var tag := s.sellings[e.selling].tags[e.tag];
    RecordedPurchases(s, e.user, e.selling, tag, s.photos[e.photo].photographer, e.pay);
  }

  /** A purchase request changes an existing transaction exactly when it is the pending payment for the
      same tag by the same buyer, and then cancels it: other customers' requests stay open. */
  lemma PurchasesCancelExactly(s: State, e: Event, i: nat)
    requires Linked(s) && e.EvBuy? && Step(s, e).Done? && i < |s.txs|
    ensures e.selling < |s.sellings| && e.tag < |s.sellings[e.selling].tags| && i < |Next(s, e).txs|
    ensures Next(s, e).txs[i] != s.txs[i]
       <==> Superseded(s, i, e.user, e.selling, s.sellings[e.selling].tags[e.tag])
    ensures Next(s, e).txs[i] != s.txs[i] ==>
              s.txs[i].user == e.user && Next(s, e).txs[i] == s.txs[i].(status := Cancel)
  {
    PurchasesRecord(s, e);
    forall k: nat | k < |s.purchases| && s.purchases[k].buyTx == i ensures s.txs[i].user == s.purchases[k].buyer {
      assert PurchaseLinked(s, k);
    }
  }

  // ---- upgrade orders ----

  /** The transaction of a pending order of the user. */
  predicate OfUsersRequest(s: State, i: nat, user: nat) {
    exists k :: 0 <= k < |s.orders| && s.orders[k].tx == i && s.orders[k].user == user
                && s.orders[k].status == OrderPending
  }

  /** The user's pending orders are cancelled with their transactions, and an order for the quoted
      amounts is placed: by bank it waits for a transfer of what remains to be paid, from the wallet it
      is paid, active and gives the user its limits, in place of the order active before. */
  ghost predicate Ordered(
    s: State, s': State, user: nat, p: Fee.PackageRow, expiredAt: int, q: Fee.Quote, pay: PaymentMethod)
  {
    var n, k := |s.txs|, |s.orders|;
    && s' == s.(txs := s'.txs, orders := s'.orders, users := s'.users)
    && |s'.txs| == n + 1 && |s'.orders| == k + 1
    && (forall i: nat | i < n ::
          s'.txs[i] == if OfUsersRequest(s, i, user) then s.txs[i].(status := Cancel) else s.txs[i])
    && (forall j: nat | j < k ::
          s'.orders[j] ==
            if s.orders[j].user == user && s.orders[j].status == OrderPending then s.orders[j].(status := OrderCancel)
            else if s.orders[j].user == user && s.orders[j].status == OrderActive && pay == Wallet
            then s.orders[j].(status := OrderExpire) else s.orders[j])
    && s'.txs[n] == Tx(user, UpgradeToPhotographer, if pay == Wallet then Success else Pending, pay,
                       q.remain, q.discount, s.now, OrderLink(k))
    && (if pay == Wallet then OneRow(s.users, s'.users, user, User(p.maxPhotoQuota, p.maxPackageCount))
        else s'.users == s.users)
    && var o := s'.orders[k];
       o.user == user && o.createdAt == s.now && o.expiredAt == expiredAt && o.snapshot == p && o.tx == n
       && o.status == if pay == Wallet then OrderActive else OrderPending
  }

  lemma CancelledRequests(s: State, user: nat, i: nat)
    requires Linked(s) && i < |s.txs|
    ensures OfPendingOrder(s.txs[i], s.orders, user) <==> OfUsersRequest(s, i, user)
  {
    assert TxLinked(s, i);
    forall k: nat | k < |s.orders| && s.orders[k].tx == i ensures s.txs[i].link == OrderLink(k) {
      assert OrderLinked(s, k);
    }
  }

  lemma PlacedOrders(
    s: State, user: nat, p: Fee.PackageRow, expiredAt: int, q: Fee.Quote, pay: PaymentMethod)
    requires Linked(s) && user < |s.users| && s.now < expiredAt
    ensures Ordered(s, PlaceOrder(s, user, p, expiredAt, q.remain, q.discount, pay), user, p, expiredAt, q, pay)
  {
    forall i: nat | i < |s.txs|
      ensures OfPendingOrder(s.txs[i], s.orders, user) <==> OfUsersRequest(s, i, user)
    {
      CancelledRequests(s, user, i);
    }
  }

  /** What the quote is taken of: the payment and lifetime of the user's active order, if any. */
  ghost predicate IsCurrent(s: State, user: nat, c: Option<Fee.Current>) {
    match c
    case None => forall k: nat | k < |s.orders| :: !(s.orders[k].user == user && s.orders[k].status == OrderActive)
    case Some(x) =>
      exists k: nat ::
        && k < |s.orders| && s.orders[k].user == user && s.orders[k].status == OrderActive
        && s.orders[k].tx < |s.txs|
        && x == Fee.Current(s.txs[s.orders[k].tx].amount, s.orders[k].createdAt, s.orders[k].expiredAt,
                            s.orders[k].snapshot)
  }

  lemma CurrentOrderIs(s: State, user: nat)
    requires Linked(s)
    ensures IsCurrent(s, user, CurrentOrder(s, user))
  {
    var f := FirstActive(s.orders, user, 0);
    if f.Some? {
      assert OrderLinked(s, f.value);
    }
  }

  lemma CurrentBegan(s: State, user: nat)
    requires Linked(s)
    ensures CurrentOrder(s, user).Some? ==> CurrentOrder(s, user).value.createdAt <= s.now
  {
    var f := FirstActive(s.orders, user, 0);
    if f.Some? {
      assert OrderLinked(s, f.value);
    }
  }

  /** The bill of a request: of the total price of the months, less what is unused of the payment for
      the active order, as `Fee.QuoteOf` says. */
  ghost predicate Billed(s: State, user: nat, price: real, c: Option<Fee.Current>, q: Fee.Quote) {
    && IsCurrent(s, user, c)
    && (c.Some? ==> c.value.createdAt < c.value.expiredAt && c.value.createdAt <= s.now)
    && Fee.QuoteOf(q, c, price, s.now)
  }

  /** The quote that an accepted request is placed at (`UpgradesOrder`) is such a bill. */
  lemma QuotesBill(s: State, user: nat, pkg: Option<Fee.PackageRow>, months: real, q: Fee.Quote)
    requires Linked(s) && months >= 0.0
    requires Fee.TransferFee(CurrentOrder(s, user), pkg, months, s.now) == Ok(q)
    ensures pkg.Some? && Billed(s, user, pkg.value.price * months, CurrentOrder(s, user), q)
  {
    CurrentOrderIs(s, user);
    CurrentBegan(s, user);
    Fee.QuoteMeans(CurrentOrder(s, user), pkg, months, s.now, q);
  }

  /** An accepted upgrade request places an order as quoted, for the calendar months asked for. */
  lemma UpgradesOrder(s: State, e: Event) returns (q: Fee.Quote, expiredAt: int)
    requires Linked(s) && e.EvUpgrade? && Step(s, e).Done?
    ensures e.user < |s.users| && e.pkg.Some? && e.months >= 0.0
    ensures Fee.TransferFee(CurrentOrder(s, e.user), e.pkg, e.months, s.now) == Ok(q)
    ensures expiredAt == Calendar.AddMonthsAsCoded(s.now, e.months.Floor)
    ensures Ordered(s, Next(s, e), e.user, e.pkg.value, expiredAt, q, e.pay)
  {
    q, expiredAt := AcceptedQuote(s, e.user, e.pkg, e.months, e.pay);
    assert Next(s, e) == PlaceOrder(s, e.user, e.pkg.value, expiredAt, q.remain, q.discount, e.pay);
    PlacedOrders(s, e.user, e.pkg.value, expiredAt, q, e.pay);
  }

  predicate PastItsTime(s: State, user: nat) {
    exists k :: 0 <= k < |s.orders| && s.orders[k].user == user && s.orders[k].status == OrderActive
                && s.orders[k].expiredAt <= s.now
  }

  /** The expiry tick: active orders past their time expire, their users' photos that are not deleted
      become private and their packages disabled. */
  lemma ExpiryExpires(s: State)
    ensures var s' := Next(s, EvExpireOrders);
      && s' == s.(orders := s'.orders, photos := s'.photos, packages := s'.packages)
      && |s'.orders| == |s.orders| && |s'.photos| == |s.photos| && |s'.packages| == |s.packages|
      && (forall k: nat | k < |s.orders| ::
            s'.orders[k] == if s.orders[k].status == OrderActive && s.orders[k].expiredAt <= s.now
                            then s.orders[k].(status := OrderExpire) else s.orders[k])
      && (forall i: nat | i < |s.photos| ::
            s'.photos[i] == if !s.photos[i].deleted && PastItsTime(s, s.photos[i].photographer)
                            then s.photos[i].(visibility := Private) else s.photos[i])
      && (forall i: nat | i < |s.packages| ::
            s'.packages[i] == if PastItsTime(s, s.packages[i].user)
                              then s.packages[i].(enabled := false) else s.packages[i])
  {
  }

  // ---- photos ----

  /** One photo is changed and nothing else. */
  ghost predicate PhotoChanged(s: State, s': State, photo: nat, p: Photo) {
    s' == s.(photos := s'.photos) && OneRow(s.photos, s'.photos, photo, p)
  }

  /** One photo is changed, and its sellings stop. */
  ghost predicate SellingsStopped(s: State, s': State, photo: nat, p: Photo, more: seq<Selling>) {
    && s' == s.(photos := s'.photos, sellings := s'.sellings)
    && OneRow(s.photos, s'.photos, photo, p)
    && |s'.sellings| == |s.sellings| + |more|
    && (forall i: nat | i < |s.sellings| ::
          s'.sellings[i] == if s.sellings[i].photo == photo then s.sellings[i].(active := false) else s.sellings[i])
    && (forall i: nat | i < |more| :: s'.sellings[|s.sellings| + i] == more[i])
  }

  predicate ForSale(s: State, photo: nat) {
    exists i :: 0 <= i < |s.sellings| && s.sellings[i].photo == photo && s.sellings[i].active
  }

  /** The fields that an update form gives; the visibility of a photo for sale stays. */
  function Updated(
    p: Photo, kind: Option<PhotoType>, visibility: Option<Visibility>, watermark: Option<bool>, forSale: bool): Photo
  {
    p.(kind := if kind.Some? then kind.value else p.kind,
       visibility := if visibility.Some? && !forSale then visibility.value else p.visibility,
       watermark := if watermark.Some? then watermark.value else p.watermark)
  }

  ghost predicate GoodsChanged(s: State, e: Event, s': State) {
    match e
    case EvUpload(user, width, height, status, kind) =>
      s' == s.(photos := s.photos + [Photo(user, width, height, status, kind, Private, false, false)])
    case Tick(ms) => s' == s.(now := s.now + ms)
    case Register => s' == s.(users := s.users + [User(0, 0)])
    case EvPackages(packages) => s' == s.(packages := packages)
    case EvRestore(photographer) =>
      && s' == s.(photos := s'.photos) && |s'.photos| == |s.photos|
      && forall i: nat | i < |s.photos| ::
           s'.photos[i] == if !s.photos[i].deleted && s.photos[i].photographer == photographer && ForSale(s, i)
                           then s.photos[i].(visibility := Public) else s.photos[i]
    case EvUpdate(_, x, kind, visibility, watermark) =>
      x < |s.photos|
      && PhotoChanged(s, s', x, Updated(s.photos[x], kind, visibility, watermark, ForSale(s, x)))
    case EvModerate(x, banned) =>
      x < |s.photos| && PhotoChanged(s, s', x, s.photos[x].(status := if banned then PhotoBan else PhotoParsed))
    case EvDuplicate(x) =>
      x < |s.photos|
      && if s.photos[x].kind == Booking then s' == s
         else PhotoChanged(s, s', x, s.photos[x].(status := PhotoDuplicated, visibility := Private))
    case EvMark(x, marked) => x < |s.photos| && PhotoChanged(s, s', x, s.photos[x].(watermark := marked))
    case EvDelete(_, x) => x < |s.photos| && SellingsStopped(s, s', x, s.photos[x].(deleted := true), [])
    case EvStop(_, x) =>
      x < |s.photos| && SellingsStopped(s, s', x, s.photos[x].(visibility := Private, watermark := false), [])
    case EvSell(_, x, tags) =>
      x < |s.photos|
      && SellingsStopped(s, s', x, s.photos[x].(visibility := Public, watermark := true), [Selling(x, true, tags)])
    case _ => true
  }

  lemma EditsEdit(s: State, e: Event)
    requires (Edits(e) || e.EvUpload? || e.EvPackages? || e.Tick? || e.Register?) && Step(s, e).Done?
    ensures GoodsChanged(s, e, Next(s, e))
  {
  }

  lemma ListingsList(s: State, e: Event)
    requires (e.EvDelete? || e.EvStop? || e.EvSell?) && Step(s, e).Done?
    ensures GoodsChanged(s, e, Next(s, e))
  {
  }

  /** Every accepted step on photos, sellings and packages, the clock and a registration change what
      they name and nothing else. */
  lemma GoodsStepsChange(s: State, e: Event)
    requires Quiet(e) && Step(s, e).Done?
    ensures GoodsChanged(s, e, Next(s, e))
  {
    if e.EvDelete? || e.EvStop? || e.EvSell? {
      ListingsList(s, e);
    } else {
      EditsEdit(s, e);
    }
  }
}
