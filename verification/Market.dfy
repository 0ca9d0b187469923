/** The tables behind money, upgrade orders and photo sales, and one atomic step for every
    request, webhook and cron tick that changes them. */
module Market {
  import opened Wrappers
  import opened Ledger
  import Fee
  import Calendar
  import Ladder

  // ---- rows ----

  datatype User = User(maxPhotoQuota: nat, maxPackageCount: nat)

  datatype OrderStatus = OrderActive | OrderExpire | OrderPending | OrderCancel

  datatype OrderRow = Order(
    user: nat, status: OrderStatus, createdAt: int, expiredAt: int,
    snapshot: Fee.PackageRow, tx: nat)

  /** An order always expires after it was created. */
  type Order = o: OrderRow | o.createdAt < o.expiredAt
    witness Order(0, OrderCancel, 0, 1, Fee.Package(0, 0.0, 0, 0, 0), 0)

  datatype PhotoStatus = PhotoPending | PhotoParsed | PhotoDuplicated | PhotoBan

  datatype PhotoType = Raw | Booking

  datatype Visibility = Public | Private

  datatype Photo = Photo(
    photographer: nat, width: int, height: int, status: PhotoStatus, kind: PhotoType,
    visibility: Visibility, watermark: bool, deleted: bool)

  /** A package for photo shoots, bookable while enabled. */
  datatype ShootPackage = ShootPackage(user: nat, enabled: bool)

  datatype Tag = Tag(size: Ladder.Size, price: Money)

  datatype Selling = Selling(photo: nat, active: bool, tags: seq<Tag>)

  /** A purchase: its sale history (size and price as sold), its user-to-user transaction, and the
      two transactions that one joins. */
  datatype Purchase = Purchase(
    buyer: nat, selling: nat, size: Ladder.Size, price: Money,
    toUser: nat, buyTx: nat, sellTx: Option<nat>)

  datatype State = State(
    now: int, users: seq<User>, txs: seq<Tx>, orders: seq<Order>,
    photos: seq<Photo>, sellings: seq<Selling>, purchases: seq<Purchase>, packages: seq<ShootPackage>)

  const INITIAL: State := State(0, [], [], [], [], [], [], [])

  datatype Error =
    | BadRequest | NotFound
    | NotEnoughBalance | ExistPendingWithdrawal | NotAWithdrawal | TransactionNotInPending
    | AmountIsNotEqual | TransactionNotFound
    | UpgradeRefused(reason: Fee.UpgradeError) | NotValidExpireDate
    | NotBelongPhoto | DuplicatedPhoto | BookingPhoto | PhotoBanned | SellQualityNotExist
    | CannotUpdateWatermark | CannotUpdateVisibility
    | CannotBuyOwnedPhoto | ExistSuccessedPhotoBuy

  datatype Outcome = Done(state: State) | Refused(error: Error)

  // ---- money in and out ----

  const MIN_AMOUNT: real := 10000.0

  function Balance(s: State, user: nat): real {
    WalletOf(s.txs, user)
  }

  function CreateDeposit(s: State, user: nat, amount: real): Outcome {
    if amount < MIN_AMOUNT then Refused(BadRequest)
    else if user >= |s.users| then Refused(NotFound)
    else Done(s.(txs := s.txs + [Tx(user, Deposit, Pending, Sepay, amount, 0.0, s.now, NoLink)]))
  }

  predicate HasPendingWithdrawal(txs: seq<Tx>, user: nat) {
    exists i :: 0 <= i < |txs| && txs[i].user == user && txs[i].kind == Withdrawal && txs[i].status == Pending
  }

  function CreateWithdrawal(s: State, user: nat, amount: real): Outcome {
    if amount < MIN_AMOUNT then Refused(BadRequest)
    else if user >= |s.users| then Refused(NotFound)
    else if Balance(s, user) < amount then Refused(NotEnoughBalance)
    else if HasPendingWithdrawal(s.txs, user) then Refused(ExistPendingWithdrawal)
    else Done(s.(txs := s.txs + [Tx(user, Withdrawal, Pending, Wallet, amount, 0.0, s.now, NoLink)]))
  }

  function WithStatus(s: State, id: nat, status: Status): State
    requires id < |s.txs|
  {
    s.(txs := s.txs[id := s.txs[id].(status := status)])
  }

  function DecideWithdrawal(s: State, id: nat, status: Status): Outcome {
    if id >= |s.txs| then Refused(NotFound)
    else if s.txs[id].kind != Withdrawal then Refused(NotAWithdrawal)
    else if s.txs[id].status != Pending then Refused(TransactionNotInPending)
    else Done(WithStatus(s, id, status))
  }

  const FIVE_MINUTES: int := 1000 * 60 * 5
  const THREE_DAYS: int := 1000 * 60 * 60 * 24 * 3

  predicate Stale(t: Tx, now: int) {
    t.status == Pending
    && t.createdAt <= now - if t.kind == Withdrawal then THREE_DAYS else FIVE_MINUTES
  }

  function Swept(t: Tx, now: int): Tx {
    if Stale(t, now) then t.(status := Expired) else t
  }

  function CleanupPendingTransaction(s: State): Outcome {
    Done(s.(txs := seq(|s.txs|, i requires 0 <= i < |s.txs| => Swept(s.txs[i], s.now))))
  }

  /** The manager's generic status patch. */
  function PatchStatus(s: State, id: nat, status: Option<Status>): Outcome {
    if id >= |s.txs| then Refused(NotFound)
    else if s.txs[id].status != Pending then Refused(TransactionNotInPending)
    else if status == Some(Success) && s.txs[id].amount > Balance(s, s.txs[id].user) then
      Refused(NotEnoughBalance)
    else Done(match status case None => s case Some(st) => WithStatus(s, id, st))
  }

  // ---- the bank's webhook ----

  /** Sets the status of a user's active orders. */
  function CloseActive(orders: seq<Order>, user: nat, status: OrderStatus): seq<Order> {
    seq(|orders|, k requires 0 <= k < |orders| =>
      if orders[k].user == user && orders[k].status == OrderActive
      then orders[k].(status := status) else orders[k])
  }

  function WithLimits(users: seq<User>, user: nat, p: Fee.PackageRow): seq<User> {
    if user < |users| then users[user := User(p.maxPhotoQuota, p.maxPackageCount)] else users
  }

  function ActivateOrder(s: State, id: nat, order: nat): State
    requires id < |s.txs| && order < |s.orders|
  {
    var user := s.txs[id].user;
    var closed := CloseActive(s.orders, user, OrderCancel);
    s.(txs := s.txs[id := s.txs[id].(status := Success)],
       orders := closed[order := closed[order].(status := OrderActive)],
       users := WithLimits(s.users, user, s.orders[order].snapshot))
  }

  function SellRow(p: Purchase, purchase: nat, amount: Money, fee: Money, now: int): Tx {
    Tx(p.toUser, ImageSell, Success, Wallet, amount, fee, now, PurchaseLink(purchase))
  }

  function SettlePurchase(s: State, id: nat, purchase: nat): State
    requires id < |s.txs| && purchase < |s.purchases|
  {
    var t, p := s.txs[id], s.purchases[purchase];
    s.(txs := s.txs[id := t.(status := Success, pay := Sepay)]
              + [SellRow(p, purchase, t.amount, t.fee, s.now)],
       purchases := s.purchases[purchase := p.(sellTx := Some(|s.txs|))])
  }

  function ProcessTransaction(s: State, id: nat, transferAmount: real): Outcome {
    if id >= |s.txs| then Refused(NotFound)
    else
      var t := s.txs[id];
      if t.status != Pending then Done(s)
      else if t.amount != transferAmount then Refused(AmountIsNotEqual)
      else
        match t.kind
        case UpgradeToPhotographer =>
          if t.link.OrderLink? && t.link.order < |s.orders| then Done(ActivateOrder(s, id, t.link.order))
          else Refused(TransactionNotFound)
        case Deposit => Done(WithStatus(s, id, Success))
        case Withdrawal => Done(WithStatus(s, id, Success))
        case ImageBuy =>
          if t.link.PurchaseLink? && t.link.purchase < |s.purchases| then
            Done(SettlePurchase(s, id, t.link.purchase))
          else Refused(TransactionNotFound)
        case ImageSell => Done(s)
        case RefundFromBuyImage => Done(s)
  }

  // ---- upgrade orders ----

  function FirstActive(orders: seq<Order>, user: nat, from: nat): (r: Option<nat>)
    ensures r.None? ==> forall k :: from <= k < |orders| ==>
                          !(orders[k].user == user && orders[k].status == OrderActive)
    ensures r.Some? ==> from <= r.value < |orders|
                        && orders[r.value].user == user && orders[r.value].status == OrderActive
    decreases |orders| - from
  {
    if from >= |orders| then None
    else if orders[from].user == user && orders[from].status == OrderActive then Some(from)
    else FirstActive(orders, user, from + 1)
  }

  function CurrentOrder(s: State, user: nat): (r: Option<Fee.Current>)
    ensures r.Some? ==> r.value.createdAt < r.value.expiredAt
  {
    match FirstActive(s.orders, user, 0)
    case None => None
    case Some(k) =>
      var o := s.orders[k];
      Some(Fee.Current(if o.tx < |s.txs| then s.txs[o.tx].amount else 0.0,
                       o.createdAt, o.expiredAt, o.snapshot))
  }

  function CancelPendingOrders(orders: seq<Order>, user: nat): seq<Order> {
    seq(|orders|, k requires 0 <= k < |orders| =>
      if orders[k].user == user && orders[k].status == OrderPending
      then orders[k].(status := OrderCancel) else orders[k])
  }

  predicate OfPendingOrder(t: Tx, orders: seq<Order>, user: nat) {
    t.link.OrderLink? && t.link.order < |orders|
    && orders[t.link.order].user == user && orders[t.link.order].status == OrderPending
  }

  function CancelOrderTxs(txs: seq<Tx>, orders: seq<Order>, user: nat): seq<Tx> {
    seq(|txs|, i requires 0 <= i < |txs| =>
      if OfPendingOrder(txs[i], orders, user) then txs[i].(status := Cancel) else txs[i])
  }

  /** Cancels the user's pending orders and records the new one. */
  function PlaceOrder(
    s: State, user: nat, p: Fee.PackageRow, expiredAt: int, remain: Money, discount: Money,
    pay: PaymentMethod): State
    requires s.now < expiredAt
  {
    var txs := CancelOrderTxs(s.txs, s.orders, user);
    var orders := CancelPendingOrders(s.orders, user);
    var status := if pay == Wallet then Success else Pending;
    var t := Tx(user, UpgradeToPhotographer, status, pay, remain, discount, s.now, OrderLink(|orders|));
    if pay == Sepay then
      s.(txs := txs + [t],
         orders := orders + [Order(user, OrderPending, s.now, expiredAt, p, |txs|)])
    else
      s.(txs := txs + [t],
         orders := CloseActive(orders, user, OrderExpire)
                   + [Order(user, OrderActive, s.now, expiredAt, p, |txs|)],
         users := WithLimits(s.users, user, p))
  }

  /** `pkg` is what the package table holds under the requested id, if it is enabled. */
  function RequestUpgradePayment(
    s: State, user: nat, pkg: Option<Fee.PackageRow>, months: real, pay: PaymentMethod): Outcome
  {
    if !(1.0 <= months <= 12.0) then Refused(BadRequest)
    else if user >= |s.users| then Refused(NotFound)
    else if pkg.None? then Refused(UpgradeRefused(Fee.UpgradePackageNotFound))
    else
      match Fee.TransferFee(CurrentOrder(s, user), pkg, months, s.now)
      case Err(e) => Refused(UpgradeRefused(e))
      case Ok(q) =>
        var expiredAt := Calendar.AddMonthsAsCoded(s.now, months.Floor);
        if expiredAt < s.now then Refused(NotValidExpireDate)
        else if pay == Wallet && Balance(s, user) < q.remain then Refused(NotEnoughBalance)
        else
          Calendar.AddMonthsAsCodedLater(s.now, months.Floor);
          Done(PlaceOrder(s, user, pkg.value, expiredAt, q.remain, q.discount, pay))
  }

  predicate Overdue(o: Order, now: int) {
    o.status == OrderActive && o.expiredAt <= now
  }

  /** The user has an active order that is past its time. */
  predicate Lapsed(orders: seq<Order>, now: int, user: nat) {
    exists k :: 0 <= k < |orders| && orders[k].user == user && Overdue(orders[k], now)
  }

  function ExpiredOrders(orders: seq<Order>, now: int): seq<Order> {
    seq(|orders|, k requires 0 <= k < |orders| =>
      if Overdue(orders[k], now) then orders[k].(status := OrderExpire) else orders[k])
  }

  /** Photos of users whose order lapses are hidden. */
  function Hidden(photos: seq<Photo>, orders: seq<Order>, now: int): seq<Photo> {
    seq(|photos|, i requires 0 <= i < |photos| =>
      if !photos[i].deleted && Lapsed(orders, now, photos[i].photographer)
      then photos[i].(visibility := Private) else photos[i])
  }

  function Disabled(packages: seq<ShootPackage>, orders: seq<Order>, now: int): seq<ShootPackage> {
    seq(|packages|, i requires 0 <= i < |packages| =>
      if Lapsed(orders, now, packages[i].user) then packages[i].(enabled := false) else packages[i])
  }

  function DeactivateExpiredOrder(s: State): Outcome {
    Done(s.(photos := Hidden(s.photos, s.orders, s.now),
            packages := Disabled(s.packages, s.orders, s.now),
            orders := ExpiredOrders(s.orders, s.now)))
  }

  // ---- photos and sellings ----

  function UploadPhoto(
    s: State, user: nat, width: int, height: int, status: PhotoStatus, kind: PhotoType): Outcome
  {
    if user >= |s.users| then Refused(NotFound)
    else Done(s.(photos := s.photos + [Photo(user, width, height, status, kind, Private, false, false)]))
  }

  predicate Live(s: State, photo: nat) {
    photo < |s.photos| && !s.photos[photo].deleted
  }

  function WithPhoto(s: State, photo: nat, p: Photo): State
    requires photo < |s.photos|
  {
    s.(photos := s.photos[photo := p])
  }

  predicate OnSale(s: State, photo: nat) {
    exists i :: 0 <= i < |s.sellings| && s.sellings[i].active && s.sellings[i].photo == photo
  }

  /** Why the update form of the photographer (`editor`) or of the manager (None) is refused. */
  function UpdateRefusal(
    s: State, editor: Option<nat>, photo: nat, visibility: Option<Visibility>, watermark: Option<bool>): Option<Error>
  {
    if !Live(s, photo) then Some(NotFound)
    else if editor.Some? && s.photos[photo].photographer != editor.value then Some(NotBelongPhoto)
    else if editor.Some? && s.photos[photo].status == PhotoDuplicated then Some(DuplicatedPhoto)
    else if watermark == Some(true) && OnSale(s, photo) then Some(CannotUpdateWatermark)
    else if editor.Some? && visibility.Some? && OnSale(s, photo) then Some(CannotUpdateVisibility)
    else None
  }

  function Given<T>(value: Option<T>, otherwise: T): T {
    if value.Some? then value.value else otherwise
  }

  /** The manager's form leaves the visibility of a photo on sale as it is. */
  function UpdatePhoto(
    s: State, editor: Option<nat>, photo: nat, kind: Option<PhotoType>, visibility: Option<Visibility>,
    watermark: Option<bool>): Outcome
  {
    match UpdateRefusal(s, editor, photo, visibility, watermark)
    case Some(e) => Refused(e)
    case None =>
      var p := s.photos[photo];
      Done(WithPhoto(s, photo, p.(
        kind := Given(kind, p.kind),
        visibility := if OnSale(s, photo) then p.visibility else Given(visibility, p.visibility),
        watermark := Given(watermark, p.watermark))))
  }

  /** Processing and unbanning parse a photo, banning bans it. */
  function ModeratePhoto(s: State, photo: nat, banned: bool): Outcome {
    if !Live(s, photo) then Refused(NotFound)
    else Done(WithPhoto(s, photo, s.photos[photo].(status := if banned then PhotoBan else PhotoParsed)))
  }

  /** The search for copies hides what it finds; it passes over photos of bookings. */
  function MarkDuplicated(s: State, photo: nat): Outcome {
    if !Live(s, photo) then Refused(NotFound)
    else if s.photos[photo].kind == Booking then Done(s)
    else Done(WithPhoto(s, photo, s.photos[photo].(status := PhotoDuplicated, visibility := Private)))
  }

  /** A booking marks the photos uploaded to it and unmarks them once it is paid. */
  function MarkPhoto(s: State, photo: nat, marked: bool): Outcome {
    if !Live(s, photo) then Refused(NotFound)
    else Done(WithPhoto(s, photo, s.photos[photo].(watermark := marked)))
  }

  /** After an upgrade the photographer's photos on sale are public again. */
  function RestoreVisibility(s: State, photographer: nat): Outcome {
    Done(s.(photos := seq(|s.photos|, i requires 0 <= i < |s.photos| =>
      if !s.photos[i].deleted && s.photos[i].photographer == photographer && OnSale(s, i)
      then s.photos[i].(visibility := Public) else s.photos[i])))
  }

  function Deactivated(sellings: seq<Selling>, photo: nat): seq<Selling> {
    seq(|sellings|, i requires 0 <= i < |sellings| =>
      if sellings[i].photo == photo then sellings[i].(active := false) else sellings[i])
  }

  /** Deletes a photo for its photographer (`user`) or for the manager (None). */
  function DeletePhoto(s: State, user: Option<nat>, photo: nat): Outcome {
    if !Live(s, photo) then Refused(NotFound)
    else if user.Some? && s.photos[photo].photographer != user.value then Refused(NotBelongPhoto)
    else
      Done(WithPhoto(s, photo, s.photos[photo].(deleted := true))
           .(sellings := Deactivated(s.sellings, photo)))
  }

  function StopSellingPhoto(s: State, user: nat, photo: nat): Outcome {
    if !Live(s, photo) then Refused(NotFound)
    else if s.photos[photo].photographer != user then Refused(NotBelongPhoto)
    else if s.photos[photo].status == PhotoDuplicated then Refused(DuplicatedPhoto)
    else if s.photos[photo].kind == Booking then Refused(BookingPhoto)
    else
      Done(WithPhoto(s, photo, s.photos[photo].(visibility := Private, watermark := false))
           .(sellings := Deactivated(s.sellings, photo)))
  }

  const MIN_PRICE: real := 1000.0

  predicate TagsWellFormed(tags: seq<Tag>) {
    |tags| >= 1
    && forall i :: 0 <= i < |tags| ==> tags[i].price >= MIN_PRICE && tags[i].size.width >= Ladder.MIN_PHOTO_WIDTH
  }

  predicate TagsOnLadder(tags: seq<Tag>, p: Photo) {
    forall i :: 0 <= i < |tags| ==> tags[i].size in Ladder.Rungs(p.width, p.height)
  }

  function SellPhoto(s: State, user: nat, photo: nat, tags: seq<Tag>): Outcome {
    if !TagsWellFormed(tags) then Refused(BadRequest)
    else if !Live(s, photo) then Refused(NotFound)
    else
      var p := s.photos[photo];
      if p.photographer != user then Refused(NotBelongPhoto)
      else if p.status == PhotoDuplicated then Refused(DuplicatedPhoto)
      else if p.kind == Booking then Refused(BookingPhoto)
      else if p.status == PhotoBan then Refused(PhotoBanned)
      else if !TagsOnLadder(tags, p) then Refused(SellQualityNotExist)
      else
        Done(WithPhoto(s, photo, p.(visibility := Public, watermark := true))
             .(sellings := Deactivated(s.sellings, photo) + [Selling(photo, true, tags)]))
  }

  // ---- purchases ----

  /** The buyer already owns this size of the photo, under this or an earlier selling. */
  predicate AlreadyBought(s: State, buyer: nat, photo: nat, size: Ladder.Size) {
    exists k :: 0 <= k < |s.purchases|
      && s.purchases[k].buyer == buyer && s.purchases[k].size == size
      && s.purchases[k].selling < |s.sellings| && s.sellings[s.purchases[k].selling].photo == photo
      && s.purchases[k].buyTx < |s.txs| && s.txs[s.purchases[k].buyTx].status == Success
  }

  predicate SameOffer(p: Purchase, buyer: nat, selling: nat, tag: Tag) {
    p.buyer == buyer && p.selling == selling && p.size == tag.size && p.price == tag.price
  }

  predicate PendingOffer(t: Tx, purchases: seq<Purchase>, buyer: nat, selling: nat, tag: Tag) {
    t.status == Pending && t.kind == ImageBuy
    && t.link.PurchaseLink? && t.link.purchase < |purchases|
    && SameOffer(purchases[t.link.purchase], buyer, selling, tag)
  }

  function CancelOffers(txs: seq<Tx>, purchases: seq<Purchase>, buyer: nat, selling: nat, tag: Tag): seq<Tx> {
    seq(|txs|, i requires 0 <= i < |txs| =>
      if PendingOffer(txs[i], purchases, buyer, selling, tag) then txs[i].(status := Cancel) else txs[i])
  }

  function FeeOf(price: Money): Money {
    price * 10.0 / 100.0
  }

  function BuyRow(buyer: nat, purchase: nat, price: Money, status: Status, pay: PaymentMethod, now: int): Tx {
    Tx(buyer, ImageBuy, status, pay, price, FeeOf(price), now, PurchaseLink(purchase))
  }

  function RecordPurchase(s: State, buyer: nat, selling: nat, tag: Tag, toUser: nat, pay: PaymentMethod): State {
    var txs := CancelOffers(s.txs, s.purchases, buyer, selling, tag);
    var n, k := |txs|, |s.purchases|;
    if pay == Wallet then
      var p := Purchase(buyer, selling, tag.size, tag.price, toUser, n, Some(n + 1));
      s.(txs := txs + [BuyRow(buyer, k, tag.price, Success, Wallet, s.now),
                       SellRow(p, k, tag.price, FeeOf(tag.price), s.now)],
         purchases := s.purchases + [p])
    else
      s.(txs := txs + [BuyRow(buyer, k, tag.price, Pending, Sepay, s.now)],
         purchases := s.purchases + [Purchase(buyer, selling, tag.size, tag.price, toUser, n, None)])
  }

  function BuyPhotoRequest(
    s: State, buyer: nat, photo: nat, selling: nat, tag: nat, pay: PaymentMethod): Outcome
  {
    if !Live(s, photo) then Refused(NotFound)
    else if s.photos[photo].status == PhotoBan then Refused(PhotoBanned)
    else if !(selling < |s.sellings| && s.sellings[selling].photo == photo && s.sellings[selling].active) then
      Refused(NotFound)
    else if s.photos[photo].photographer == buyer then Refused(CannotBuyOwnedPhoto)
    else if buyer >= |s.users| then Refused(NotFound)
    else if tag >= |s.sellings[selling].tags| then Refused(NotFound)
    else
      var chosen := s.sellings[selling].tags[tag];
      if AlreadyBought(s, buyer, photo, chosen.size) then Refused(ExistSuccessedPhotoBuy)
      else if pay == Wallet && Balance(s, buyer) < chosen.price then Refused(NotEnoughBalance)
      else Done(RecordPurchase(s, buyer, selling, chosen, s.photos[photo].photographer, pay))
  }

  // ---- runs ----

  datatype Event =
    | Tick(ms: nat)
    | Register
    | EvDeposit(user: nat, sum: real)
    | EvWithdraw(user: nat, sum: real)
    | EvAccept(tx: nat)
    | EvDeny(tx: nat)
    | EvWebhook(tx: nat, transferAmount: real)
    | EvSweep
    | EvUpgrade(user: nat, pkg: Option<Fee.PackageRow>, months: real, pay: PaymentMethod)
    | EvExpireOrders
    | EvUpload(user: nat, width: int, height: int, status: PhotoStatus, kind: PhotoType)
    | EvUpdate(editor: Option<nat>, photo: nat, newKind: Option<PhotoType>, visibility: Option<Visibility>,
               watermark: Option<bool>)
    | EvModerate(photo: nat, banned: bool)
    | EvDuplicate(photo: nat)
    | EvMark(photo: nat, marked: bool)
    | EvRestore(photographer: nat)
    | EvDelete(owner: Option<nat>, photo: nat)
    | EvSell(user: nat, photo: nat, tags: seq<Tag>)
    | EvStop(user: nat, photo: nat)
    | EvBuy(user: nat, photo: nat, selling: nat, tag: nat, pay: PaymentMethod)
    | EvPackages(packages: seq<ShootPackage>)
    | EvPatch(tx: nat, patch: Option<Status>)

  function Step(s: State, e: Event): Outcome {
    match e
    case Tick(ms) => Done(s.(now := s.now + ms))
    case Register => Done(s.(users := s.users + [User(0, 0)]))
    case EvDeposit(user, sum) => CreateDeposit(s, user, sum)
    case EvWithdraw(user, sum) => CreateWithdrawal(s, user, sum)
    case EvAccept(tx) => DecideWithdrawal(s, tx, Success)
    case EvDeny(tx) => DecideWithdrawal(s, tx, Cancel)
    case EvWebhook(tx, transferAmount) => ProcessTransaction(s, tx, transferAmount)
    case EvSweep => CleanupPendingTransaction(s)
    case EvUpgrade(user, pkg, months, pay) => RequestUpgradePayment(s, user, pkg, months, pay)
    case EvExpireOrders => DeactivateExpiredOrder(s)
    case EvUpload(user, width, height, status, kind) => UploadPhoto(s, user, width, height, status, kind)
    case EvUpdate(editor, photo, kind, visibility, watermark) =>
      UpdatePhoto(s, editor, photo, kind, visibility, watermark)
    case EvModerate(photo, banned) => ModeratePhoto(s, photo, banned)
    case EvDuplicate(photo) => MarkDuplicated(s, photo)
    case EvMark(photo, marked) => MarkPhoto(s, photo, marked)
    case EvRestore(photographer) => RestoreVisibility(s, photographer)
    case EvDelete(owner, photo) => DeletePhoto(s, owner, photo)
    case EvSell(user, photo, tags) => SellPhoto(s, user, photo, tags)
    case EvStop(user, photo) => StopSellingPhoto(s, user, photo)
    case EvBuy(user, photo, selling, tag, pay) => BuyPhotoRequest(s, user, photo, selling, tag, pay)
    case EvPackages(packages) => Done(s.(packages := packages))
    case EvPatch(tx, patch) => PatchStatus(s, tx, patch)
  }

  /** A refused request changes nothing. */
  function Next(s: State, e: Event): State {
    match Step(s, e)
    case Done(t) => t
    case Refused(_) => s
  }

  function Run(s: State, events: seq<Event>): State
    decreases |events|
  {
    if events == [] then s else Run(Next(s, events[0]), events[1..])
  }

  /** Runs without the manager's generic status patch. */
  predicate Unpatched(events: seq<Event>) {
    forall e :: e in events ==> !e.EvPatch?
  }

  // ---- what groups of steps leave alone ----

  /** Steps of payments: requests, decisions, webhooks, sweeps and patches. */
  predicate OfPayments(e: Event) {
    e.EvDeposit? || e.EvWithdraw? || e.EvAccept? || e.EvDeny? || e.EvWebhook? || e.EvSweep? || e.EvPatch?
  }

  /** Steps that edit photos and nothing else. */
  predicate Edits(e: Event) {
    e.EvUpdate? || e.EvModerate? || e.EvDuplicate? || e.EvMark? || e.EvRestore?
  }

  /** Steps of photos, sellings and packages. */
  predicate OfGoods(e: Event) {
    e.EvUpload? || Edits(e) || e.EvDelete? || e.EvSell? || e.EvStop? || e.EvPackages?
  }

  /** Steps that change no transaction, order or purchase. */
  predicate Quiet(e: Event) {
    OfGoods(e) || e.Tick? || e.Register?
  }

  ghost predicate LeavesMoney(s: State, s': State) {
    s'.txs == s.txs && s'.orders == s.orders && s'.purchases == s.purchases && s.users <= s'.users && s.now <= s'.now
  }

  lemma QuietSteps(s: State, e: Event)
    requires Quiet(e)
    ensures LeavesMoney(s, Next(s, e))
  {
  }

  ghost predicate LeavesGoods(s: State, s': State) {
    s'.photos == s.photos && s'.sellings == s.sellings
  }

  lemma StepsBesidesGoods(s: State, e: Event)
    requires !OfGoods(e) && !e.EvExpireOrders?
    ensures LeavesGoods(s, Next(s, e))
  {
  }
}
