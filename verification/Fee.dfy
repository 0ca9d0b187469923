/** Price of moving from the active upgrade package to another one. */
module Fee {
  import opened Wrappers
  import opened Ledger

  datatype PackageRow = Package(
    id: nat, price: Money, minOrderMonth: int, maxPhotoQuota: nat, maxPackageCount: nat)

  datatype UpgradeError =
    | UpgradePackageNotFound
    | CannotDowngradeOrder
    | TotalMonthLesserThanMinMonth
    | CannotTransferToTheSameUpgradePackage

  /** What the fee reads of the user's active order: the amount its transaction paid, its
      lifetime in milliseconds, and the package snapshot taken when it was ordered. */
  datatype Current = Current(paid: Money, createdAt: int, expiredAt: int, snapshot: PackageRow)

  datatype Quote = Quote(remain: Money, refund: Money, discount: Money)

  /** Value of the unused part of the active order. */
  function Credit(paid: real, elapsed: int, total: int): real
    requires total > 0
  {
    paid * (1.0 - elapsed as real / total as real)
  }

  /** Before its expiry an order is worth something, and no more than was paid once it has begun. */
  lemma CreditBounds(paid: Money, elapsed: int, total: int)
    requires total > 0 && elapsed <= total
    ensures 0.0 <= Credit(paid, elapsed, total)
    ensures 0 <= elapsed ==> Credit(paid, elapsed, total) <= paid
  {
    var x := elapsed as real / total as real;
    assert x <= 1.0;
    assert paid * (1.0 - x) >= 0.0;
    if 0 <= elapsed {
      assert paid * x >= 0.0;
      assert paid * (1.0 - x) == paid - paid * x;
    }
  }

  /** Quote for a new total price, given what was paid for the active order, how much of its
      lifetime has passed, and how long that lifetime is. */
  function Prorate(price: Money, paid: Money, elapsed: int, total: int): Quote
    requires total > 0
  {
    if elapsed == 0 then
      var r := price - paid;
      Quote(if r >= 0.0 then r else 0.0, if r >= 0.0 then 0.0 else -r, paid)
    else if elapsed >= total then
      Quote(price, 0.0, 0.0)
    else
      CreditBounds(paid, elapsed, total);
      var credit := Credit(paid, elapsed, total);
      var r := price - credit;
      Quote(if r >= 0.0 then r.Floor as real else 0.0,
            if r >= 0.0 then 0.0 else (-r).Floor as real,
            credit.Floor as real)
  }

  function Price(pkg: PackageRow, months: real): Money
    requires months >= 0.0
  {
    assert pkg.price * months >= 0.0;
    pkg.price * months
  }

  function TransferFee(current: Option<Current>, pkg: Option<PackageRow>, months: real, now: int)
    : Result<Quote, UpgradeError>
    requires months >= 0.0
    requires current.Some? ==> current.value.createdAt < current.value.expiredAt
  {
    if pkg.None? then Err(UpgradePackageNotFound)
    else if current.Some? && current.value.snapshot.maxPhotoQuota > pkg.value.maxPhotoQuota then
      Err(CannotDowngradeOrder)
    else if months < pkg.value.minOrderMonth as real then Err(TotalMonthLesserThanMinMonth)
    else if current.Some? && pkg.value.id == current.value.snapshot.id then
      Err(CannotTransferToTheSameUpgradePackage)
    else if current.None? then Ok(Quote(Price(pkg.value, months), 0.0, 0.0))
    else
      var c := current.value;
      Ok(Prorate(Price(pkg.value, months), c.paid, now - c.createdAt, c.expiredAt - c.createdAt))
  }

  /** The credit is to the payment as the unused time is to the order's lifetime. */
  lemma CreditIsProportional(paid: real, elapsed: int, total: int)
    requires total > 0
    ensures Credit(paid, elapsed, total) * total as real == paid * (total - elapsed) as real
  {
    var x, t := elapsed as real / total as real, total as real;
    assert x * t == elapsed as real;
    assert paid * (1.0 - x) * t == paid * (t - x * t);
  }

  predicate Whole(x: real) {
    x == x.Floor as real
  }

  lemma FloorMonotone(x: real, y: real)
    requires x <= y
    ensures x.Floor <= y.Floor
  {
  }

  lemma CreditFalls(paid: Money, s: int, t: int, total: int)
    requires s <= t && 0 < total
    ensures Credit(paid, t, total) <= Credit(paid, s, total)
  {
    var x, y := s as real / total as real, t as real / total as real;
    assert x <= y;
    assert paid * (y - x) >= 0.0;
    assert paid * (1.0 - x) - paid * (1.0 - y) == paid * (y - x);
  }

  /** No quote asks for more than the price, credits more than was paid, or both asks and refunds. */
  lemma QuoteBounds(price: Money, paid: Money, elapsed: int, total: int)
    requires elapsed >= 0 && total > 0
    ensures var q := Prorate(price, paid, elapsed, total);
      && 0.0 <= q.remain <= price
      && 0.0 <= q.discount <= paid
      && 0.0 <= q.refund <= paid
      && (q.remain == 0.0 || q.refund == 0.0)
  {
    if 0 < elapsed < total {
      CreditBounds(paid, elapsed, total);
    }
  }

  lemma FloorIs(x: real, n: int)
    requires n as real <= x < n as real + 1.0
    ensures x.Floor == n
  {
  }

  lemma FloorBelowWhole(p: real, c: real)
    requires Whole(p)
    ensures (c - p).Floor as real == c.Floor as real - p
    ensures (p - c).Floor as real == p - c.Floor as real - if Whole(c) then 0.0 else 1.0
  {
    var n, m := p.Floor, c.Floor;
    FloorIs(c - p, m - n);
    if Whole(c) {
      FloorIs(p - c, n - m);
    } else {
      FloorIs(p - c, n - m - 1);
    }
  }

  /** For whole prices the three figures account for the price exactly, except that one unit is
      lost in rounding when the user still owes money and the unused credit is fractional. */
  lemma QuoteAccountsForPrice(price: Money, paid: Money, elapsed: int, total: int)
    requires elapsed >= 0 && total > 0 && Whole(price) && Whole(paid)
    ensures var q := Prorate(price, paid, elapsed, total);
      q.remain + q.discount - q.refund ==
        if 0 < elapsed < total && Credit(paid, elapsed, total) <= price
                               && !Whole(Credit(paid, elapsed, total))
        then price - 1.0 else price
  {
    if 0 < elapsed < total {
      var credit := Credit(paid, elapsed, total);
      FloorBelowWhole(price, credit);
      assert -(price - credit) == credit - price;
    }
  }

  /** The proration without special cases: the credit for the unused time, taken off the price, all
      rounded down. */
  function OneFormula(price: Money, paid: Money, elapsed: int, total: int): Quote
    requires 0 <= elapsed && 0 < total
  {
    var t := if elapsed < total then elapsed else total;
    CreditBounds(paid, t, total);
    var credit := Credit(paid, t, total);
    var r := price - credit;
    Quote(if r >= 0.0 then r.Floor as real else 0.0,
          if r >= 0.0 then 0.0 else (0.0 - r).Floor as real,
          credit.Floor as real)
  }

  /** The branches for no time passed and for an order past its time are instances of the general
      formula if and only if they meet no fraction, for they do not round: inside the order's
      lifetime always, at its end for whole prices, and at its start for whole payments as well. */
  lemma OneFormulaExactly(price: Money, paid: Money, elapsed: int, total: int)
    requires 0 <= elapsed && 0 < total
    ensures Prorate(price, paid, elapsed, total) == OneFormula(price, paid, elapsed, total)
       <==> 0 < elapsed < total || (Whole(price) && (elapsed == 0 ==> Whole(paid)))
  {
    if elapsed == 0 {
      assert Credit(paid, 0, total) == paid;
      var r := price - paid;
      assert Whole(paid) && r >= 0.0 ==> (Whole(r) <==> Whole(price)) by { WholeSum(paid, r); }
      assert Whole(paid) && r < 0.0 ==> (Whole(0.0 - r) <==> Whole(price)) by { WholeSum(price, 0.0 - r); }
    } else if elapsed >= total {
      assert total as real / total as real == 1.0;
      assert Credit(paid, total, total) == paid * 0.0 == 0.0;
    }
  }

  lemma WholeSum(x: real, y: real)
    ensures Whole(x) && Whole(y) ==> Whole(x + y)
    ensures Whole(x) && Whole(x + y) ==> Whole(y)
    ensures Whole(y) && Whole(x + y) ==> Whole(x)
  {
    if Whole(x) && Whole(y) { FloorIs(x + y, x.Floor + y.Floor); }
    if Whole(x) && Whole(x + y) { FloorIs(y, (x + y).Floor - x.Floor); }
    if Whole(y) && Whole(x + y) { FloorIs(x, (x + y).Floor - y.Floor); }
  }

  /** A whole number: `amount` shared among `parts`, rounded down. */
  predicate RoundedDown(x: real, amount: real, parts: real) {
    Whole(x) && x * parts <= amount < (x + 1.0) * parts
  }

  lemma Times(x: real, y: real, parts: real)
    requires parts > 0.0
    ensures x <= y ==> x * parts <= y * parts
    ensures x < y ==> x * parts < y * parts
  {
    assert x < y ==> (y - x) * parts > 0.0;
    assert (y - x) * parts == y * parts - x * parts;
  }

  lemma FloorRoundsDown(x: real, amount: real, parts: real)
    requires parts > 0.0 && x * parts == amount
    ensures RoundedDown(x.Floor as real, amount, parts)
  {
    var n := x.Floor as real;
    FloorIs(n, x.Floor);
    Times(n, x, parts);
    Times(x, n + 1.0, parts);
  }

  lemma ShareOrder(price: real, credit: real, unused: real, lifetime: real)
    requires lifetime > 0.0 && credit * lifetime == unused
    ensures (price - credit) * lifetime == price * lifetime - unused
    ensures -(price - credit) * lifetime == unused - price * lifetime
    ensures price - credit >= 0.0 <==> price * lifetime >= unused
  {
    var r := price - credit;
    assert r * lifetime == price * lifetime - credit * lifetime;
    assert r < 0.0 ==> r * lifetime < 0.0;
    assert r >= 0.0 ==> r * lifetime >= 0.0;
  }

  /** What the order's lifetime buys less what is unused of it, in whole units. */
  predicate Prorated(q: Quote, price: real, unused: real, lifetime: real) {
    && RoundedDown(q.discount, unused, lifetime)
    && if price * lifetime >= unused
       then q.refund == 0.0 && RoundedDown(q.remain, price * lifetime - unused, lifetime)
       else q.remain == 0.0 && RoundedDown(q.refund, unused - price * lifetime, lifetime)
  }

  /** The figures that a credit gives inside the order's lifetime. */
  predicate Figures(q: Quote, price: real, credit: real) {
    && q.discount == credit.Floor as real
    && q.remain == (if price - credit >= 0.0 then (price - credit).Floor as real else 0.0)
    && q.refund == (if price - credit >= 0.0 then 0.0 else (-(price - credit)).Floor as real)
  }

  lemma ProrateFigures(price: Money, paid: Money, elapsed: int, total: int)
    requires elapsed != 0 && elapsed < total && 0 < total
    ensures Figures(Prorate(price, paid, elapsed, total), price, Credit(paid, elapsed, total))
  {
  }

  lemma FiguresAreProrated(q: Quote, price: real, credit: real, unused: real, lifetime: real)
    requires Figures(q, price, credit) && lifetime > 0.0 && credit * lifetime == unused
    ensures Prorated(q, price, unused, lifetime)
  {
    ShareOrder(price, credit, unused, lifetime);
    FloorRoundsDown(credit, unused, lifetime);
    if price - credit >= 0.0 {
      FloorRoundsDown(price - credit, price * lifetime - unused, lifetime);
    } else {
      FloorRoundsDown(-(price - credit), unused - price * lifetime, lifetime);
    }
  }

  function Lifetime(c: Current): real {
    (c.expiredAt - c.createdAt) as real
  }

  function UnusedTimesPaid(c: Current, now: int): real {
    c.paid * (c.expiredAt - now) as real
  }

  /** What a quote says of the price of the months asked for and the payment for the active order,
      given how much of that order's time is left. */
  predicate QuoteOf(q: Quote, current: Option<Current>, price: real, now: int) {
    match current
    case None => q.remain == price && q.refund == 0.0 && q.discount == 0.0
    case Some(c) =>
      if now == c.createdAt then
        q.discount == c.paid && q.remain - q.refund == price - c.paid && (q.remain == 0.0 || q.refund == 0.0)
      else if now >= c.expiredAt then
        q.remain == price && q.refund == 0.0 && q.discount == 0.0
      else
        Prorated(q, price, UnusedTimesPaid(c, now), Lifetime(c))
  }

  lemma CreditOfLeft(c: Current, now: int)
    requires c.createdAt < c.expiredAt
    ensures Credit(c.paid, now - c.createdAt, c.expiredAt - c.createdAt) * Lifetime(c) == UnusedTimesPaid(c, now)
  {
    CreditIsProportional(c.paid, now - c.createdAt, c.expiredAt - c.createdAt);
  }

  lemma ProratedInside(c: Current, price: Money, now: int)
    requires c.createdAt < c.expiredAt && now != c.createdAt && now < c.expiredAt
    ensures QuoteOf(Prorate(price, c.paid, now - c.createdAt, c.expiredAt - c.createdAt), Some(c), price, now)
  {
    var elapsed, total := now - c.createdAt, c.expiredAt - c.createdAt;
    var q, credit := Prorate(price, c.paid, elapsed, total), Credit(c.paid, elapsed, total);
    ProrateFigures(price, c.paid, elapsed, total);
    CreditOfLeft(c, now);
    FiguresAreProrated(q, price, credit, UnusedTimesPaid(c, now), Lifetime(c));
  }

  lemma ProratedOutside(c: Current, price: Money, now: int)
    requires c.createdAt < c.expiredAt && (now == c.createdAt || now >= c.expiredAt)
    ensures QuoteOf(Prorate(price, c.paid, now - c.createdAt, c.expiredAt - c.createdAt), Some(c), price, now)
  {
  }

  lemma ProrateIsQuote(c: Current, price: Money, now: int)
    requires c.createdAt < c.expiredAt
    ensures QuoteOf(Prorate(price, c.paid, now - c.createdAt, c.expiredAt - c.createdAt), Some(c), price, now)
  {
    if now != c.createdAt && now < c.expiredAt {
      ProratedInside(c, price, now);
    } else {
      ProratedOutside(c, price, now);
    }
  }

  lemma QuoteMeans(current: Option<Current>, pkg: Option<PackageRow>, months: real, now: int, q: Quote)
    requires months >= 0.0
    requires current.Some? ==> current.value.createdAt < current.value.expiredAt
    requires TransferFee(current, pkg, months, now) == Ok(q)
    ensures pkg.Some? && QuoteOf(q, current, pkg.value.price * months, now)
  {
    var price := Price(pkg.value, months);
    assert price == pkg.value.price * months;
    if current.Some? {
      ProrateIsQuote(current.value, price, now);
    }
  }

  /** As time passes the discount and the refund never rise, whatever the prices. */
  lemma DiscountAndRefundNeverRise(price: Money, paid: Money, total: int, s: int, t: int)
    requires 0 <= s <= t && total > 0
    ensures Prorate(price, paid, t, total).discount <= Prorate(price, paid, s, total).discount
    ensures Prorate(price, paid, t, total).refund <= Prorate(price, paid, s, total).refund
  {
    if 0 < t < total {
      CreditFalls(paid, s, t, total);
      CreditBounds(paid, t, total);
      var c, d := Credit(paid, t, total), Credit(paid, s, total);
      FloorMonotone(c, d);
      if c > price {
        FloorMonotone(-(price - c), -(price - d));
      }
    }
    QuoteBounds(price, paid, s, total);
  }

  lemma RemainNeverFallsAfterStart(price: Money, paid: Money, total: int, s: int, t: int)
    requires 0 < s <= t && total > 0
    ensures Prorate(price, paid, s, total).remain <= Prorate(price, paid, t, total).remain
  {
    QuoteBounds(price, paid, s, total);
    if t < total {
      CreditFalls(paid, s, t, total);
      var c, d := Credit(paid, t, total), Credit(paid, s, total);
      if d <= price {
        FloorMonotone(price - d, price - c);
      }
    }
  }

  /** The difference left to pay at the start, when nothing is rounded, has a fraction that the credit
      used up in the first millisecond does not fill to the next unit. */
  predicate RoundsDownAtStart(price: Money, paid: Money, total: int) {
    total > 1 && paid <= price
    && var due := price - paid;
       !Whole(due) && paid / total as real < due.Floor as real + 1.0 - due
  }

  /** Only then is less due after one millisecond than at the start. */
  lemma RoundsDownExactly(price: Money, paid: Money, total: int)
    requires total > 0
    ensures RoundsDownAtStart(price, paid, total)
       <==> Prorate(price, paid, 1, total).remain < Prorate(price, paid, 0, total).remain
  {
    QuoteBounds(price, paid, 1, total);
    if total > 1 && paid <= price {
      var due, used := price - paid, paid / total as real;
      CreditBounds(paid, 1, total);
      assert Credit(paid, 1, total) == paid - used;
      assert price - Credit(paid, 1, total) == due + used;
      FloorMonotone(due, due + used);
      if due + used < due.Floor as real + 1.0 {
        FloorIs(due + used, due.Floor);
      } else {
        FloorMonotone((due.Floor + 1) as real, due + used);
      }
    }
  }

  /** The amount due never falls as time passes if and only if the first millisecond does not
      round it down. */
  lemma RemainNeverFallsExactly(price: Money, paid: Money, total: int)
    requires total > 0
    ensures (forall s: nat, t: nat | s <= t ::
               Prorate(price, paid, s, total).remain <= Prorate(price, paid, t, total).remain)
       <==> !RoundsDownAtStart(price, paid, total)
  {
    RoundsDownExactly(price, paid, total);
    if !RoundsDownAtStart(price, paid, total) {
      forall s: nat, t: nat | s <= t
        ensures Prorate(price, paid, s, total).remain <= Prorate(price, paid, t, total).remain
      {
        if 0 < s {
          RemainNeverFallsAfterStart(price, paid, total, s, t);
        } else if 0 < t {
          RemainNeverFallsAfterStart(price, paid, total, 1, t);
        }
      }
    }
  }

  /** Whole prices never round down at the start, so the amount due never falls. */
  lemma RemainNeverFalls(price: Money, paid: Money, total: int, s: nat, t: nat)
    requires total > 0 && Whole(price) && Whole(paid) && s <= t
    ensures Prorate(price, paid, s, total).remain <= Prorate(price, paid, t, total).remain
  {
    FloorBelowWhole(price, paid);
    RemainNeverFallsExactly(price, paid, total);
  }

  /** A fractional price for which the amount due does fall: 10.5 at the start, 10 a moment later. */
  lemma FractionalPriceFalls()
    ensures Prorate(20.5, 10.0, 0, 1000).remain == 10.5
    ensures Prorate(20.5, 10.0, 1, 1000).remain == 10.0
  {
    assert Credit(10.0, 1, 1000) == 9.99;
    assert 10.51.Floor == 10;
  }
}
