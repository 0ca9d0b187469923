/** Photo sales: the pairing of what buyers pay with what photographers earn, and the listings. */
module MarketSales {
  import opened Wrappers
  import opened Ledger
  import opened Market
  import opened MarketLinks
  import Ladder
  import MarketMoney

  // ---- purchases and sales come in pairs ----

  predicate PairedAt(s: State, k: nat)
    requires k < |s.purchases|
  {
    var p := s.purchases[k];
    p.buyTx < |s.txs| && (s.txs[p.buyTx].status == Success <==> p.sellTx.Some?)
  }

  ghost predicate Paired(s: State) {
    forall k: nat | k < |s.purchases| :: PairedAt(s, k)
  }

  lemma PaymentsPaired(s: State, e: Event)
    requires Linked(s) && Paired(s) && OfPayments(e) && !e.EvPatch?
    ensures Paired(Next(s, e))
  {
    var s' := Next(s, e);
    forall k: nat | k < |s'.purchases| ensures PairedAt(s', k) {
      assert PairedAt(s, k) && PurchaseLinked(s, k);
      if e.EvWebhook? && e.tx < |s.txs| {
        assert TxLinked(s, e.tx);
      }
    }
  }

  lemma PurchasesPaired(s: State, e: Event)
    requires Linked(s) && Paired(s) && e.EvBuy?
    ensures Paired(Next(s, e))
  {
    var s' := Next(s, e);
    forall k: nat | k < |s'.purchases| ensures PairedAt(s', k) {
      assert k < |s.purchases| ==> PairedAt(s, k) && PurchaseLinked(s, k);
    }
  }

  lemma OrdersPaired(s: State, e: Event)
    requires Linked(s) && Paired(s) && (e.EvUpgrade? || e.EvExpireOrders?)
    ensures Paired(Next(s, e))
  {
    var s' := Next(s, e);
    if e.EvUpgrade? && Step(s, e).Done? {
      var q, expiredAt := AcceptedQuote(s, e.user, e.pkg, e.months, e.pay);
    }
    forall k: nat | k < |s'.purchases| ensures PairedAt(s', k) {
      assert PairedAt(s, k) && PurchaseLinked(s, k);
    }
  }

  lemma StepPaired(s: State, e: Event)
    requires Linked(s) && Paired(s) && !e.EvPatch?
    ensures Paired(Next(s, e))
  {
    if Quiet(e) {
      QuietSteps(s, e);
      forall k: nat | k < |s.purchases| ensures PairedAt(Next(s, e), k) {
        assert PairedAt(s, k);
      }
    } else if e.EvBuy? {
      PurchasesPaired(s, e);
    } else if OfPayments(e) {
      PaymentsPaired(s, e);
    } else {
      OrdersPaired(s, e);
    }
  }

  /** The manager's patch leaves purchases and sales paired exactly when it does not declare a
      purchase paid, for then no sale is created. */
  lemma PatchPairsExactly(s: State, id: nat, patch: Option<Status>)
    requires Linked(s) && Paired(s) && PatchStatus(s, id, patch).Done?
    ensures Paired(PatchStatus(s, id, patch).state)
       <==> !(patch == Some(Success) && s.txs[id].kind == ImageBuy)
  {
    var s' := PatchStatus(s, id, patch).state;
    assert TxLinked(s, id);
    if patch == Some(Success) && s.txs[id].kind == ImageBuy {
      var k := s.txs[id].link.purchase;
      assert PurchaseLinked(s, k) && !PairedAt(s', k);
    } else {
      forall k: nat | k < |s'.purchases| ensures PairedAt(s', k) {
        assert PairedAt(s, k) && PurchaseLinked(s, k);
      }
    }
  }

  /** The manager declares a purchase paid whose transfer is still awaited. */
  predicate DeclaresPurchasePaid(s: State, e: Event) {
    e.EvPatch? && e.patch == Some(Success) && e.tx < |s.txs| && s.txs[e.tx].status == Pending
    && s.txs[e.tx].kind == ImageBuy && s.txs[e.tx].amount <= Balance(s, s.txs[e.tx].user)
  }

  lemma StepPairedExactly(s: State, e: Event)
    requires Linked(s) && Paired(s)
    ensures Paired(Next(s, e)) <==> !DeclaresPurchasePaid(s, e)
  {
    if !e.EvPatch? {
      StepPaired(s, e);
    } else if Step(s, e).Done? {
      PatchPairsExactly(s, e.tx, e.patch);
    }
  }

  /** A purchase is paid for and the photographer has no sale. */
  predicate SaleMissing(s: State, k: nat) {
    k < |s.purchases| && PaidFor(s, k) && s.purchases[k].sellTx.None?
  }

  lemma DeclaringMissesSale(s: State, e: Event) returns (k: nat)
    requires Linked(s) && DeclaresPurchasePaid(s, e)
    ensures SaleMissing(Next(s, e), k)
  {
    assert TxLinked(s, e.tx);
    k := s.txs[e.tx].link.purchase;
    assert PurchaseLinked(s, k);
  }

  /** Nothing makes up for it later. */
  lemma StepKeepsSaleMissing(s: State, e: Event, k: nat)
    requires Linked(s) && SaleMissing(s, k)
    ensures SaleMissing(Next(s, e), k)
  {
    StepKeepsPaid(s, e, k);
    StepKeepsPurchases(s, e);
    if e.EvWebhook? {
      assert e.tx < |s.txs| ==> TxLinked(s, e.tx);
    } else if !e.EvBuy? {
      OtherStepsLeavePurchases(s, e);
    }
  }

  lemma {:induction false} RunKeepsSaleMissing(s: State, events: seq<Event>, k: nat)
    requires Linked(s) && SaleMissing(s, k)
    ensures SaleMissing(Run(s, events), k)
    decreases |events|
  {
    if events == [] {
    } else {
      StepLinked(s, events[0]);
      StepKeepsSaleMissing(s, events[0], k);
      RunKeepsSaleMissing(Next(s, events[0]), events[1..], k);
    }
  }

  predicate NeverDeclaresPurchasePaid(s: State, events: seq<Event>)
    decreases |events|
  {
    events == [] || (!DeclaresPurchasePaid(s, events[0]) && NeverDeclaresPurchasePaid(Next(s, events[0]), events[1..]))
  }

  lemma {:induction false} RunPairedExactly(s: State, events: seq<Event>)
    requires Linked(s) && Paired(s)
    ensures Paired(Run(s, events)) <==> NeverDeclaresPurchasePaid(s, events)
    decreases |events|
  {
    if events == [] {
    } else {
      var e := events[0];
      StepLinked(s, e);
      StepPairedExactly(s, e);
      if DeclaresPurchasePaid(s, e) {
        var k := DeclaringMissesSale(s, e);
        RunKeepsSaleMissing(Next(s, e), events[1..], k);
        assert SaleMissing(Run(s, events), k) ==> !PairedAt(Run(s, events), k);
      } else {
        RunPairedExactly(Next(s, e), events[1..]);
      }
    }
  }

  /** In every run purchases and sales are paired at the end if and only if the manager never declared
      a purchase paid in it. */
  lemma PairedExactly(events: seq<Event>)
    ensures Paired(Run(INITIAL, events)) <==> NeverDeclaresPurchasePaid(INITIAL, events)
  {
    RunPairedExactly(INITIAL, events);
  }

  lemma {:induction false} UnpatchedNeverDeclares(s: State, events: seq<Event>)
    requires Unpatched(events)
    ensures NeverDeclaresPurchasePaid(s, events)
    decreases |events|
  {
    if events == [] {
    } else {
      assert events[0] in events;
      UnpatchedNeverDeclares(Next(s, events[0]), events[1..]);
    }
  }

  predicate SuccessfulBuy(s: State, i: nat) {
    i < |s.txs| && s.txs[i].kind == ImageBuy && s.txs[i].status == Success
  }

  predicate SuccessfulSell(s: State, j: nat) {
    j < |s.txs| && s.txs[j].kind == ImageSell && s.txs[j].status == Success
  }

  /** One purchase joins the two transactions. */
  predicate Joined(s: State, i: nat, j: nat) {
    exists k: nat :: k < |s.purchases| && s.purchases[k].buyTx == i && s.purchases[k].sellTx == Some(j)
  }

  lemma BuyHasItsSell(s: State, i: nat) returns (j: nat)
    requires Linked(s) && Paired(s) && SuccessfulBuy(s, i)
    ensures SuccessfulSell(s, j) && Joined(s, i, j)
    ensures s.txs[j].amount == s.txs[i].amount && s.txs[j].fee == s.txs[i].fee
    ensures forall j': nat :: Joined(s, i, j') ==> j' == j
  {
    assert TxLinked(s, i);
    var k := s.txs[i].link.purchase;
    assert PairedAt(s, k) && PurchaseLinked(s, k);
    j := s.purchases[k].sellTx.value;
    forall j': nat | Joined(s, i, j') ensures j' == j {
      var k': nat :| k' < |s.purchases| && s.purchases[k'].buyTx == i && s.purchases[k'].sellTx == Some(j');
      assert PurchaseLinked(s, k');
    }
  }

  lemma SellHasItsBuy(s: State, j: nat) returns (i: nat)
    requires Linked(s) && Paired(s) && SuccessfulSell(s, j)
    ensures SuccessfulBuy(s, i) && Joined(s, i, j)
    ensures forall i': nat :: Joined(s, i', j) ==> i' == i
  {
    assert TxLinked(s, j);
    var k := s.txs[j].link.purchase;
    assert PairedAt(s, k) && PurchaseLinked(s, k);
    i := s.purchases[k].buyTx;
    forall i': nat | Joined(s, i', j) ensures i' == i {
      var k': nat :| k' < |s.purchases| && s.purchases[k'].buyTx == i' && s.purchases[k'].sellTx == Some(j);
      assert PurchaseLinked(s, k');
    }
  }

  ghost predicate Bijective(s: State) {
    && (forall i: nat | SuccessfulBuy(s, i) :: exists j: nat ::
          SuccessfulSell(s, j) && Joined(s, i, j)
          && s.txs[j].amount == s.txs[i].amount && s.txs[j].fee == s.txs[i].fee
          && forall j': nat :: Joined(s, i, j') ==> j' == j)
    && (forall j: nat | SuccessfulSell(s, j) :: exists i: nat ::
          SuccessfulBuy(s, i) && Joined(s, i, j) && forall i': nat :: Joined(s, i', j) ==> i' == i)
  }

  /** Each successful purchase payment has exactly one sale of the same amount and fee, and each sale
      exactly one successful purchase payment: in every run in which the manager never declares a
      purchase paid, and so in every unpatched one. */
  lemma PurchasesAndSalesPair(events: seq<Event>)
    ensures NeverDeclaresPurchasePaid(INITIAL, events) || Unpatched(events) ==> Bijective(Run(INITIAL, events))
  {
    if Unpatched(events) {
      UnpatchedNeverDeclares(INITIAL, events);
    }
    if NeverDeclaresPurchasePaid(INITIAL, events) {
      PairedExactly(events);
      RunLinked(INITIAL, events);
      PairedIsBijective(Run(INITIAL, events));
    }
  }

  lemma PairedIsBijective(s: State)
    requires Linked(s) && Paired(s)
    ensures Bijective(s)
  {
    forall i: nat | SuccessfulBuy(s, i)
      ensures exists j: nat ::
        SuccessfulSell(s, j) && Joined(s, i, j)
        && s.txs[j].amount == s.txs[i].amount && s.txs[j].fee == s.txs[i].fee
        && forall j': nat :: Joined(s, i, j') ==> j' == j
    {
      var j := BuyHasItsSell(s, i);
    }
    forall j: nat | SuccessfulSell(s, j)
      ensures exists i: nat ::
        SuccessfulBuy(s, i) && Joined(s, i, j) && forall i': nat :: Joined(s, i', j) ==> i' == i
    {
      var i := SellHasItsBuy(s, j);
    }
  }

  // ---- listings ----

  /** An offer is for a photo that exists, at sizes from its ladder; an active one for a live photo. */
  predicate SellingListed(s: State, i: nat)
    requires i < |s.sellings|
  {
    var x := s.sellings[i];
    x.photo < |s.photos| && TagsOnLadder(x.tags, s.photos[x.photo])
    && (x.active ==> !s.photos[x.photo].deleted)
  }

  /** A purchase is of a rung of its photo's ladder and pays the photographer. */
  predicate PurchaseListed(s: State, k: nat)
    requires k < |s.purchases|
  {
    var p := s.purchases[k];
    p.buyTx < |s.txs|
    && p.selling < |s.sellings| && s.sellings[p.selling].photo < |s.photos|
    && var photo := s.photos[s.sellings[p.selling].photo];
       p.size in Ladder.Rungs(photo.width, photo.height) && p.toUser == photo.photographer
  }

  predicate OneActive(s: State, i: nat, j: nat)
    requires i < |s.sellings| && j < |s.sellings|
  {
    i != j && s.sellings[i].active && s.sellings[j].active ==> s.sellings[i].photo != s.sellings[j].photo
  }

  predicate Open(t: Tx) {
    t.status == Pending || t.status == Success
  }

  predicate OneOpenOffer(s: State, j: nat, k: nat)
    requires j < |s.purchases| && k < |s.purchases|
  {
    var p, q := s.purchases[j], s.purchases[k];
    j != k && p.buyTx < |s.txs| && q.buyTx < |s.txs|
    && p.buyer == q.buyer && p.selling == q.selling && p.size == q.size && p.price == q.price
    ==> !(Open(s.txs[p.buyTx]) && Open(s.txs[q.buyTx]))
  }

  ghost predicate Listed(s: State) {
    && SellingsListed(s)
    && (forall k: nat | k < |s.purchases| :: PurchaseListed(s, k))
    && (forall j: nat, k: nat | j < |s.purchases| && k < |s.purchases| :: OneOpenOffer(s, j, k))
  }

  /** Photos keep their size and photographer; sellings keep their photo and tags. */
  ghost predicate KeepsGoods(s: State, s': State) {
    && |s.photos| <= |s'.photos| && |s.sellings| <= |s'.sellings|
    && (forall i: nat | i < |s.photos| ::
          s'.photos[i].width == s.photos[i].width && s'.photos[i].height == s.photos[i].height
          && s'.photos[i].photographer == s.photos[i].photographer)
    && (forall i: nat | i < |s.sellings| ::
          s'.sellings[i].photo == s.sellings[i].photo && s'.sellings[i].tags == s.sellings[i].tags
          && (s'.sellings[i].active ==> s.sellings[i].active))
  }

  /** Purchases stay as sold, and no settled payment reopens. */
  ghost predicate KeepsSales(s: State, s': State) {
    && KeepsPurchases(s, s') && |s.txs| <= |s'.txs|
    && (forall i: nat | i < |s.txs| :: Open(s'.txs[i]) ==> Open(s.txs[i]))
  }

  lemma GoodsStepsKeepGoods(s: State, e: Event)
    requires OfGoods(e) || e.EvExpireOrders?
    ensures KeepsGoods(s, Next(s, e))
  {
  }

  lemma StepKeepsGoods(s: State, e: Event)
    ensures KeepsGoods(s, Next(s, e))
  {
    if OfGoods(e) || e.EvExpireOrders? {
      GoodsStepsKeepGoods(s, e);
    } else {
      StepsBesidesGoods(s, e);
    }
  }

  ghost predicate KeepsPurchases(s: State, s': State) {
    |s.purchases| <= |s'.purchases|
    && forall k: nat | k < |s.purchases| :: s'.purchases[k] == s.purchases[k].(sellTx := s'.purchases[k].sellTx)
  }

  lemma OtherStepsLeavePurchases(s: State, e: Event)
    requires !e.EvBuy? && !e.EvWebhook?
    ensures Next(s, e).purchases == s.purchases
  {
  }

  lemma StepKeepsPurchases(s: State, e: Event)
    ensures KeepsPurchases(s, Next(s, e))
    ensures !(e.EvBuy? && Step(s, e).Done?) ==> |Next(s, e).purchases| == |s.purchases|
  {
    if !e.EvBuy? && !e.EvWebhook? {
      OtherStepsLeavePurchases(s, e);
    }
  }

  lemma StepKeepsSales(s: State, e: Event)
    ensures KeepsSales(s, Next(s, e))
  {
    StepKeepsTxs(s, e);
    StepKeepsPurchases(s, e);
    forall i: nat | i < |s.txs| ensures Open(Next(s, e).txs[i]) ==> Open(s.txs[i]) {
      assert TxKept(s.txs[i], Next(s, e).txs[i]);
    }
  }

  ghost predicate SellingsListed(s: State) {
    && (forall i: nat | i < |s.sellings| :: SellingListed(s, i))
    && (forall i: nat, j: nat | i < |s.sellings| && j < |s.sellings| :: OneActive(s, i, j))
  }

  lemma SellSellings(s: State, e: Event)
    requires SellingsListed(s) && e.EvSell?
    ensures SellingsListed(Next(s, e))
  {
    var s' := Next(s, e);
    forall i: nat | i < |s'.sellings| ensures SellingListed(s', i) {
      assert i < |s.sellings| ==> SellingListed(s, i);
    }
    forall i: nat, j: nat | i < |s'.sellings| && j < |s'.sellings| ensures OneActive(s', i, j) {
      assert i < |s.sellings| && j < |s.sellings| ==> OneActive(s, i, j);
    }
  }

  lemma GoodsStepsSellings(s: State, e: Event)
    requires SellingsListed(s) && !e.EvSell? && (OfGoods(e) || e.EvExpireOrders?)
    ensures SellingsListed(Next(s, e))
  {
    var s' := Next(s, e);
    forall i: nat | i < |s'.sellings| ensures SellingListed(s', i) {
      assert SellingListed(s, i);
    }
    forall i: nat, j: nat | i < |s'.sellings| && j < |s'.sellings| ensures OneActive(s', i, j) {
      assert OneActive(s, i, j);
    }
  }

  lemma StepSellings(s: State, e: Event)
    requires SellingsListed(s)
    ensures SellingsListed(Next(s, e))
  {
    if e.EvSell? {
      SellSellings(s, e);
    } else if OfGoods(e) || e.EvExpireOrders? {
      GoodsStepsSellings(s, e);
    } else {
      StepsBesidesGoods(s, e);
      forall i: nat | i < |s.sellings| ensures SellingListed(Next(s, e), i) {
        assert SellingListed(s, i);
      }
      forall i: nat, j: nat | i < |s.sellings| && j < |s.sellings| ensures OneActive(Next(s, e), i, j) {
        assert OneActive(s, i, j);
      }
    }
  }

  lemma BuyKeepsOffers(s: State, e: Event)
    requires Linked(s) && Listed(s) && e.EvBuy? && Step(s, e).Done?
    ensures var s' := Next(s, e);
      forall j: nat, k: nat | j < |s'.purchases| && k < |s'.purchases| :: OneOpenOffer(s', j, k)
  {
    var s' := Next(s, e);
    StepKeepsSales(s, e);
    forall j: nat, k: nat | j < |s'.purchases| && k < |s'.purchases| ensures OneOpenOffer(s', j, k) {
      if j < |s.purchases| && k < |s.purchases| {
        assert OneOpenOffer(s, j, k) && PurchaseListed(s, j) && PurchaseListed(s, k);
      } else if j < |s.purchases| {
        NoRivalOffer(s, e, j);
      } else if k < |s.purchases| {
        NoRivalOffer(s, e, k);
      }
    }
  }

  /** After a purchase request no earlier purchase of the same offer is still open. */
  lemma NoRivalOffer(s: State, e: Event, j: nat)
    requires Linked(s) && Listed(s) && e.EvBuy? && Step(s, e).Done? && j < |s.purchases|
    ensures SameOffer(s.purchases[j], e.user, e.selling, s.sellings[e.selling].tags[e.tag]) ==>
              s.purchases[j].buyTx < |s.txs| && !Open(Next(s, e).txs[s.purchases[j].buyTx])
  {
    assert PurchaseLinked(s, j) && PurchaseListed(s, j);
  }

  lemma NewPurchaseListed(s: State, e: Event)
    requires Linked(s) && Listed(s) && e.EvBuy? && Step(s, e).Done?
    ensures |Next(s, e).purchases| == |s.purchases| + 1 && PurchaseListed(Next(s, e), |s.purchases|)
  {
    assert SellingListed(s, e.selling);
  }

  lemma StepPurchases(s: State, e: Event)
    requires Linked(s) && Listed(s)
    ensures forall k: nat | k < |Next(s, e).purchases| :: PurchaseListed(Next(s, e), k)
  {
    var s' := Next(s, e);
    StepKeepsGoods(s, e);
    StepKeepsSales(s, e);
    StepKeepsPurchases(s, e);
    if e.EvBuy? && Step(s, e).Done? {
      NewPurchaseListed(s, e);
    }
    forall k: nat | k < |s.purchases| ensures PurchaseListed(s', k) {
      assert PurchaseListed(s, k);
    }
  }

  lemma StepListed(s: State, e: Event)
    requires Linked(s) && Listed(s)
    ensures Listed(Next(s, e))
  {
    var s' := Next(s, e);
    StepSellings(s, e);
    StepPurchases(s, e);
    if e.EvBuy? && Step(s, e).Done? {
      BuyKeepsOffers(s, e);
    } else {
      StepKeepsSales(s, e);
      StepKeepsPurchases(s, e);
      forall j: nat, k: nat | j < |s'.purchases| && k < |s'.purchases| ensures OneOpenOffer(s', j, k) {
        assert OneOpenOffer(s, j, k) && PurchaseListed(s, j) && PurchaseListed(s, k);
      }
    }
  }

  lemma {:induction false} RunListed(s: State, events: seq<Event>)
    requires Linked(s) && Listed(s)
    ensures Linked(Run(s, events)) && Listed(Run(s, events))
    decreases |events|
  {
    if events == [] {
    } else {
      StepLinked(s, events[0]);
      StepListed(s, events[0]);
      RunListed(Next(s, events[0]), events[1..]);
    }
  }

  /** The marketplace in every run, patched or not. */
  lemma MarketplaceIsListed(events: seq<Event>)
    ensures Listed(Run(INITIAL, events))
  {
    RunListed(INITIAL, events);
  }

  // ---- when a photo is on sale ----

  predicate PutsUp(s: State, e: Event, photo: nat) {
    e.EvSell? && e.photo == photo && Step(s, e).Done?
  }

  predicate TakesOff(s: State, e: Event, photo: nat) {
    (e.EvStop? || e.EvDelete?) && e.photo == photo && Step(s, e).Done?
  }

  lemma GoodsStepsOnSale(s: State, e: Event, photo: nat)
    requires OfGoods(e)
    ensures OnSale(Next(s, e), photo) <==> PutsUp(s, e, photo) || (OnSale(s, photo) && !TakesOff(s, e, photo))
  {
    var s' := Next(s, e);
    if PutsUp(s, e, photo) {
      assert s'.sellings[|s.sellings|].active;
    } else if OnSale(s, photo) && !TakesOff(s, e, photo) {
      var i: nat :| i < |s.sellings| && s.sellings[i].active && s.sellings[i].photo == photo;
      assert s'.sellings[i].active;
    }
  }

  /** A photo is on sale after a step exactly when it was put up by it, under the tags asked for, or
      was on sale before and is neither taken off nor deleted. */
  lemma OnSaleExactly(s: State, e: Event, photo: nat)
    ensures OnSale(Next(s, e), photo) <==> PutsUp(s, e, photo) || (OnSale(s, photo) && !TakesOff(s, e, photo))
    ensures PutsUp(s, e, photo) ==>
              Next(s, e).sellings == Deactivated(s.sellings, photo) + [Selling(photo, true, e.tags)]
  {
    if OfGoods(e) {
      GoodsStepsOnSale(s, e, photo);
    } else if !e.EvExpireOrders? {
      StepsBesidesGoods(s, e);
    }
  }

  // ---- what is on sale is on show ----

  predicate ShownAt(s: State, i: nat)
    requires i < |s.sellings|
  {
    var x := s.sellings[i];
    x.active && x.photo < |s.photos| ==> s.photos[x.photo].visibility == Public && s.photos[x.photo].watermark
  }

  ghost predicate OnShow(s: State) {
    forall i: nat | i < |s.sellings| :: ShownAt(s, i)
  }

  /** What takes a photo on sale off show: a form removes its watermark, or a booking it was taken for
      does, or it is found to be a copy. */
  predicate EditsOffShow(s: State, e: Event) {
    || (e.EvUpdate? && e.watermark == Some(false)
        && UpdateRefusal(s, e.editor, e.photo, e.visibility, e.watermark).None?)
    || (e.EvMark? && !e.marked)
    || (e.EvDuplicate? && e.photo < |s.photos| && s.photos[e.photo].kind != Booking)
  }

  /** Such an edit, or the expiry of the photographer's order. */
  predicate TakesOffShow(s: State, e: Event) {
    || (EditsOffShow(s, e) && OnSale(s, e.photo))
    || (e.EvExpireOrders?
        && exists p :: 0 <= p < |s.photos| && OnSale(s, p) && Lapsed(s.orders, s.now, s.photos[p].photographer))
  }

  lemma EditsOnShow(s: State, e: Event)
    requires Listed(s) && OnShow(s) && !TakesOffShow(s, e) && Edits(e)
    ensures OnShow(Next(s, e))
  {
    var s' := Next(s, e);
    forall i: nat | i < |s'.sellings| ensures ShownAt(s', i) {
      assert ShownAt(s, i) && SellingListed(s, i);
    }
  }

  lemma OtherGoodsStepsOnShow(s: State, e: Event)
    requires Listed(s) && OnShow(s) && !TakesOffShow(s, e) && !Edits(e) && (OfGoods(e) || e.EvExpireOrders?)
    ensures OnShow(Next(s, e))
  {
    var s' := Next(s, e);
    forall i: nat | i < |s'.sellings| ensures ShownAt(s', i) {
      assert i < |s.sellings| ==> ShownAt(s, i) && SellingListed(s, i);
    }
  }

  lemma TakenOffShow(s: State, e: Event, p: nat)
    requires Listed(s) && OnSale(s, p)
    requires if e.EvExpireOrders? then p < |s.photos| && Lapsed(s.orders, s.now, s.photos[p].photographer)
             else EditsOffShow(s, e) && p == e.photo
    ensures !OnShow(Next(s, e))
  {
    var i: nat :| i < |s.sellings| && s.sellings[i].active && s.sellings[i].photo == p;
    assert SellingListed(s, i) && !ShownAt(Next(s, e), i);
  }

  /** A step keeps every photo on sale public and watermarked exactly when it is not such an edit or
      expiry: putting a photo up for sale shows it, no form changes its visibility, and nothing else
      hides it without ending the sale. */
  lemma StepOnShowExactly(s: State, e: Event)
    requires Listed(s) && OnShow(s)
    ensures OnShow(Next(s, e)) <==> !TakesOffShow(s, e)
  {
    if TakesOffShow(s, e) {
      if e.EvExpireOrders? {
        var p: nat :| p < |s.photos| && OnSale(s, p) && Lapsed(s.orders, s.now, s.photos[p].photographer);
        TakenOffShow(s, e, p);
      } else {
        TakenOffShow(s, e, e.photo);
      }
    } else if Edits(e) {
      EditsOnShow(s, e);
    } else if OfGoods(e) || e.EvExpireOrders? {
      OtherGoodsStepsOnShow(s, e);
    } else {
      StepsBesidesGoods(s, e);
      forall i: nat | i < |s.sellings| ensures ShownAt(Next(s, e), i) {
        assert ShownAt(s, i);
      }
    }
  }

  /** Every sale pays the photographer of the photo nine tenths of the price it was bought at. */
  lemma SalesPayThePhotographer(events: seq<Event>, k: nat)
    requires k < |Run(INITIAL, events).purchases| && Run(INITIAL, events).purchases[k].sellTx.Some?
    ensures var s := Run(INITIAL, events);
      var p := s.purchases[k];
      && PurchaseListed(s, k) && p.sellTx.value < |s.txs|
      && var t := s.txs[p.sellTx.value];
         t.user == s.photos[s.sellings[p.selling].photo].photographer
         && t.kind == ImageSell && 10.0 * Delta(t) == 9.0 * p.price
  {
    RunLinked(INITIAL, events);
    MarketplaceIsListed(events);
    var s := Run(INITIAL, events);
    assert PurchaseLinked(s, k) && PurchaseListed(s, k);
  }

  /** The width a paid purchase is delivered at, or None while it is not paid; a purchase of the
      photo's own size is delivered without resizing. */
  function DownloadWidth(s: State, k: nat): Option<int>
    requires k < |s.purchases| && PurchaseListed(s, k)
  {
    var p := s.purchases[k];
    var photo := s.photos[s.sellings[p.selling].photo];
    if s.txs[p.buyTx].status != Success then None
    else if p.size == Ladder.Size(photo.width, photo.height) then Some(photo.width)
    else Some(p.size.width)
  }

  /** Downloads never upscale: what is delivered is a size of the ladder, not wider than the photo. */
  lemma DownloadsNeverUpscale(events: seq<Event>, k: nat)
    requires k < |Run(INITIAL, events).purchases|
    ensures var s := Run(INITIAL, events);
      && PurchaseListed(s, k)
      && (DownloadWidth(s, k).Some? ==>
            Ladder.MIN_PHOTO_WIDTH <= DownloadWidth(s, k).value
              <= s.photos[s.sellings[s.purchases[k].selling].photo].width)
  {
    MarketplaceIsListed(events);
    var s := Run(INITIAL, events);
    assert PurchaseListed(s, k);
    var photo := s.photos[s.sellings[s.purchases[k].selling].photo];
    var rungs := Ladder.Rungs(photo.width, photo.height);
    var n :| 0 <= n < |rungs| && rungs[n] == s.purchases[k].size;
    Ladder.RungBounds(photo.width, photo.height, n);
  }

  // ---- selling one size of a photo to a customer only once ----

  /** Purchases of one size of one photo by one customer, under whatever listing or price. */
  predicate SameGoods(s: State, j: nat, k: nat)
    requires j < |s.purchases| && k < |s.purchases|
  {
    var p, q := s.purchases[j], s.purchases[k];
    p.buyer == q.buyer && p.size == q.size && p.selling < |s.sellings| && q.selling < |s.sellings|
    && s.sellings[p.selling].photo == s.sellings[q.selling].photo
  }

  predicate PaidFor(s: State, k: nat)
    requires k < |s.purchases|
  {
    s.purchases[k].buyTx < |s.txs| && s.txs[s.purchases[k].buyTx].status == Success
  }

  predicate SoldTwice(s: State, j: nat, k: nat) {
    j < |s.purchases| && k < |s.purchases| && j != k && SameGoods(s, j, k) && PaidFor(s, j) && PaidFor(s, k)
  }

  ghost predicate SoldOnce(s: State) {
    forall j: nat, k: nat :: !SoldTwice(s, j, k)
  }

  /** The bank's transfer, or the manager in its place, pays a pending transaction. */
  predicate Pays(s: State, e: Event) {
    || (e.EvWebhook? && e.tx < |s.txs| && s.txs[e.tx].status == Pending && s.txs[e.tx].amount == e.transferAmount)
    || (e.EvPatch? && e.patch == Some(Success) && e.tx < |s.txs| && s.txs[e.tx].status == Pending
        && s.txs[e.tx].amount <= Balance(s, s.txs[e.tx].user))
  }

  /** A request is paid whose buyer has come to own that size of the photo while it was pending. */
  predicate SettlesOwned(s: State, e: Event) {
    Pays(s, e) && s.txs[e.tx].kind == ImageBuy && s.txs[e.tx].link.PurchaseLink?
    && s.txs[e.tx].link.purchase < |s.purchases|
    && var p := s.purchases[s.txs[e.tx].link.purchase];
       p.selling < |s.sellings| && AlreadyBought(s, p.buyer, s.sellings[p.selling].photo, p.size)
  }

  /** What is paid for stays paid for, patched or not. */
  lemma StepKeepsPaid(s: State, e: Event, k: nat)
    requires Linked(s) && k < |s.purchases| && PaidFor(s, k)
    ensures k < |Next(s, e).purchases| && PaidFor(Next(s, e), k)
  {
    StepKeepsSales(s, e);
    assert PurchaseLinked(s, k);
    MarketMoney.SuccessChangesExactly(s, e, s.purchases[k].buyTx);
  }

  lemma StepKeepsSoldTwice(s: State, e: Event, j: nat, k: nat)
    requires Linked(s) && SoldTwice(s, j, k)
    ensures SoldTwice(Next(s, e), j, k)
  {
    StepKeepsGoods(s, e);
    StepKeepsSales(s, e);
    StepKeepsPaid(s, e, j);
    StepKeepsPaid(s, e, k);
  }

  /** A request becomes paid for by its payment. */
  lemma RequestBecomesPaid(s: State, e: Event, k: nat)
    requires Linked(s) && k < |s.purchases| && !PaidFor(s, k)
    requires k < |Next(s, e).purchases| && PaidFor(Next(s, e), k)
    ensures Pays(s, e) && s.purchases[k].buyTx == e.tx && s.txs[e.tx].kind == ImageBuy
  {
    assert PurchaseLinked(s, k);
    if Quiet(e) {
      QuietSteps(s, e);
    } else {
      StepKeepsSales(s, e);
    }
  }

  /** A new purchase is paid for at once only from the wallet of a buyer who does not own its size. */
  lemma NewPurchaseUnowned(s: State, e: Event, k: nat)
    requires |s.purchases| <= k < |Next(s, e).purchases|
    ensures k == |s.purchases| && e.EvBuy? && !AlreadyBought(s, e.user, e.photo, Next(s, e).purchases[k].size)
  {
    StepKeepsPurchases(s, e);
  }

  lemma PayingPays(s: State, e: Event, k: nat)
    requires Linked(s) && Pays(s, e) && s.txs[e.tx].kind == ImageBuy && s.txs[e.tx].link == PurchaseLink(k)
    ensures k < |s.purchases| && k < |Next(s, e).purchases| && PaidFor(Next(s, e), k)
  {
    assert TxLinked(s, e.tx) && PurchaseLinked(s, k);
  }

  lemma SettlingOwnedSellsTwice(s: State, e: Event) returns (j: nat, k: nat)
    requires Linked(s) && SettlesOwned(s, e)
    ensures SoldTwice(Next(s, e), j, k)
  {
    k := s.txs[e.tx].link.purchase;
    var p := s.purchases[k];
    assert TxLinked(s, e.tx) && PurchaseLinked(s, k);
    j :| j < |s.purchases| && s.purchases[j].buyer == p.buyer && s.purchases[j].size == p.size
         && s.purchases[j].selling < |s.sellings|
         && s.sellings[s.purchases[j].selling].photo == s.sellings[p.selling].photo && PaidFor(s, j);
    PayingPays(s, e, k);
    StepKeepsPaid(s, e, j);
    StepKeepsGoods(s, e);
    StepKeepsPurchases(s, e);
  }

  lemma NewlySoldTwice(s: State, e: Event, j: nat, k: nat)
    requires Linked(s) && Listed(s) && SoldTwice(Next(s, e), j, k)
    requires k < |s.purchases| ==> !PaidFor(s, k)
    ensures SettlesOwned(s, e)
  {
    StepKeepsGoods(s, e);
    StepKeepsPurchases(s, e);
    assert j < |s.purchases| ==> PurchaseListed(s, j) && PurchaseLinked(s, j);
    assert k < |s.purchases| ==> PurchaseListed(s, k) && PurchaseLinked(s, k);
    if k < |s.purchases| {
      RequestBecomesPaid(s, e, k);
      if j >= |s.purchases| {
        NewPurchaseUnowned(s, e, j);
      } else if !PaidFor(s, j) {
        RequestBecomesPaid(s, e, j);
      }
    } else {
      NewPurchaseUnowned(s, e, k);
      if j < |s.purchases| && !PaidFor(s, j) {
        RequestBecomesPaid(s, e, j);
      } else if j >= |s.purchases| {
        NewPurchaseUnowned(s, e, j);
      }
    }
  }

  /** A step leaves every size of a photo sold to a customer at most once exactly when it does not
      pay for a request whose buyer has come to own that size in the meantime. */
  lemma StepSoldOnceExactly(s: State, e: Event)
    requires Linked(s) && Listed(s) && SoldOnce(s)
    ensures SoldOnce(Next(s, e)) <==> !SettlesOwned(s, e)
  {
    if SettlesOwned(s, e) {
      var j, k := SettlingOwnedSellsTwice(s, e);
    } else {
      forall j: nat, k: nat ensures !SoldTwice(Next(s, e), j, k) {
        if SoldTwice(Next(s, e), j, k) {
          StepKeepsGoods(s, e);
          StepKeepsSales(s, e);
          assert j < |s.purchases| ==> PurchaseListed(s, j);
          assert k < |s.purchases| ==> PurchaseListed(s, k);
          assert !SoldTwice(s, j, k);
          if k >= |s.purchases| || !PaidFor(s, k) {
            NewlySoldTwice(s, e, j, k);
          } else {
            NewlySoldTwice(s, e, k, j);
          }
        }
      }
    }
  }

  predicate NeverSettlesOwned(s: State, events: seq<Event>)
    decreases |events|
  {
    events == [] || (!SettlesOwned(s, events[0]) && NeverSettlesOwned(Next(s, events[0]), events[1..]))
  }

  lemma {:induction false} RunKeepsSoldTwice(s: State, events: seq<Event>, j: nat, k: nat)
    requires Linked(s) && SoldTwice(s, j, k)
    ensures SoldTwice(Run(s, events), j, k)
    decreases |events|
  {
    if events == [] {
    } else {
      StepLinked(s, events[0]);
      StepKeepsSoldTwice(s, events[0], j, k);
      RunKeepsSoldTwice(Next(s, events[0]), events[1..], j, k);
    }
  }

  lemma {:induction false} RunSoldOnceExactly(s: State, events: seq<Event>)
    requires Linked(s) && Listed(s) && SoldOnce(s)
    ensures SoldOnce(Run(s, events)) <==> NeverSettlesOwned(s, events)
    decreases |events|
  {
    if events == [] {
    } else {
      var e := events[0];
      StepSoldOnceExactly(s, e);
      StepLinked(s, e);
      StepListed(s, e);
      if SettlesOwned(s, e) {
        var j, k := SettlingOwnedSellsTwice(s, e);
        RunKeepsSoldTwice(Next(s, e), events[1..], j, k);
      } else {
        RunSoldOnceExactly(Next(s, e), events[1..]);
      }
    }
  }

  /** In every run, patched or not, no customer pays twice for a size of a photo if and only if no
      request is ever paid after its buyer has come to own that size. */
  lemma SizesAreSoldOnceExactly(events: seq<Event>)
    ensures SoldOnce(Run(INITIAL, events)) <==> NeverSettlesOwned(INITIAL, events)
  {
    RunSoldOnceExactly(INITIAL, events);
  }

  // ---- a run in which a size is sold twice ----

  const CHEAP_TAG: Tag := Tag(Ladder.Size(480, 480), 1000.0)

  /** Two customers' accounts, one photo listed and requested by bank transfer, listed again and
      requested again, and then both transfers arriving. */
  const RELISTING: seq<Event> := [
    Register, Register,
    EvUpload(0, 480, 480, PhotoParsed, Raw),
    EvSell(0, 0, [CHEAP_TAG]), EvBuy(1, 0, 0, 0, Sepay),
    EvSell(0, 0, [CHEAP_TAG]), EvBuy(1, 0, 1, 0, Sepay),
    EvWebhook(0, 1000.0), EvWebhook(1, 1000.0)]

  lemma RunStep(s: State, events: seq<Event>, t: State)
    requires events != [] && Next(s, events[0]) == t
    ensures Run(s, events) == Run(t, events[1..])
  {
  }

  lemma CheapTagListed()
    ensures CHEAP_TAG.size in Ladder.Rungs(480, 480)
  {
    assert Ladder.Rungs(480, 480)[0] == CHEAP_TAG.size;
  }

  const UPLOADED: Photo := Photo(0, 480, 480, PhotoParsed, Raw, Private, false, false)
  const SHOWN: Photo := UPLOADED.(visibility := Public, watermark := true)
  const OFFERED_0: Purchase := Purchase(1, 0, CHEAP_TAG.size, 1000.0, 0, 0, None)
  const OFFERED_1: Purchase := Purchase(1, 1, CHEAP_TAG.size, 1000.0, 0, 1, None)
  const DUE_0: Tx := BuyRow(1, 0, 1000.0, Pending, Sepay, 0)
  const DUE_1: Tx := BuyRow(1, 1, 1000.0, Pending, Sepay, 0)

  /** The photo is for sale and the first request is waiting for its transfer. */
  const ONE_REQUESTED: State := State(
    0, [User(0, 0), User(0, 0)], [DUE_0], [], [SHOWN],
    [Selling(0, true, [CHEAP_TAG])], [OFFERED_0], [])

  /** The photo has been listed again and both requests are waiting. */
  const TWO_REQUESTED: State := ONE_REQUESTED.(
    txs := [DUE_0, DUE_1],
    sellings := [Selling(0, false, [CHEAP_TAG]), Selling(0, true, [CHEAP_TAG])],
    purchases := [OFFERED_0, OFFERED_1])

  /** Two accounts and an uploaded photo. */
  const ONE_PHOTO: State := INITIAL.(users := [User(0, 0), User(0, 0)], photos := [UPLOADED])

  lemma ReachOnePhoto()
    ensures Run(INITIAL, RELISTING) == Run(ONE_PHOTO, RELISTING[3..])
  {
    var e := RELISTING;
    var s1 := INITIAL.(users := [User(0, 0)]);
    RunStep(INITIAL, e, s1);
    var s2 := s1.(users := [User(0, 0), User(0, 0)]);
    RunStep(s1, e[1..], s2);
    RunStep(s2, e[2..], ONE_PHOTO);
  }

  lemma ReachOneRequested()
    ensures Run(ONE_PHOTO, RELISTING[3..]) == Run(ONE_REQUESTED, RELISTING[5..])
  {
    CheapTagListed();
    var e := RELISTING;
    var s4 := ONE_PHOTO.(photos := [SHOWN], sellings := [Selling(0, true, [CHEAP_TAG])]);
    RunStep(ONE_PHOTO, e[3..], s4);
    RunStep(s4, e[4..], ONE_REQUESTED);
  }

  lemma ReachTwoRequested()
    ensures Run(ONE_REQUESTED, RELISTING[5..]) == Run(TWO_REQUESTED, RELISTING[7..])
  {
    CheapTagListed();
    var e := RELISTING;
    var s6 := ONE_REQUESTED.(sellings := TWO_REQUESTED.sellings);
    assert Next(ONE_REQUESTED, e[5]) == s6;
    RunStep(ONE_REQUESTED, e[5..], s6);
    assert !AlreadyBought(s6, 1, 0, CHEAP_TAG.size);
    assert Next(s6, e[6]) == TWO_REQUESTED;
    RunStep(s6, e[6..], TWO_REQUESTED);
  }

  /** The same customer ends up having paid twice for the same size of the same photo: the second
      transfer settles a request whose buyer owns that size since the first. */
  lemma RelistingSellsTwice()
    ensures var s := Run(INITIAL, RELISTING);
      && |s.purchases| == 2 && s.purchases[0].buyer == s.purchases[1].buyer
      && s.purchases[0].size == s.purchases[1].size
      && |s.sellings| == 2 && s.sellings[0].photo == s.sellings[1].photo
      && s.purchases[0].selling == 0 && s.purchases[1].selling == 1
      && SoldTwice(s, 0, 1)
  {
    ReachOnePhoto();
    ReachOneRequested();
    ReachTwoRequested();
    var e := RELISTING;
    var s8 := Next(TWO_REQUESTED, e[7]);
    RunStep(TWO_REQUESTED, e[7..], s8);
    var s9 := Next(s8, e[8]);
    RunStep(s8, e[8..], s9);
    assert e[9..] == [] && Run(s9, []) == s9;
  }
}
