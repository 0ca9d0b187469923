/** Transaction rows and the wallet, which is never stored but folded from the rows. */
module Ledger {
  import opened Sums

  type Money = r: real | r >= 0.0 witness 0.0

  datatype Status = Success | Failed | Pending | Cancel | Expired

  datatype Kind =
    | UpgradeToPhotographer
    | ImageSell
    | ImageBuy
    | RefundFromBuyImage
    | Deposit
    | Withdrawal

  datatype PaymentMethod = Wallet | Sepay

  /** The row a transaction belongs to: an upgrade order, a photo purchase, or none. */
  datatype Link = NoLink | OrderLink(order: nat) | PurchaseLink(purchase: nat)

  datatype Tx = Tx(
    user: nat, kind: Kind, status: Status, pay: PaymentMethod,
    amount: Money, fee: Money, createdAt: int, link: Link)

  /** One step of the reduce; the switch falls through from a purchase paid by bank to the
      sale case (which returns the accumulator for it) and from an upgrade paid by bank to the
      default case. */
  function Apply(acc: real, t: Tx): real {
    if t.status != Success then
      if t.status == Pending && t.kind == Withdrawal then acc - t.amount else acc
    else
      match t.kind
      case Deposit => acc + t.amount
      case ImageBuy => if t.pay == Wallet then acc - t.amount else acc
      case ImageSell => acc + t.amount - t.fee
      case Withdrawal => acc - t.amount
      case RefundFromBuyImage => acc + t.amount
      case UpgradeToPhotographer => if t.pay == Wallet then acc - t.amount else acc
  }

  function Reduce(rows: seq<Tx>, acc: real): real {
    if rows == [] then acc else Reduce(rows[1..], Apply(acc, rows[0]))
  }

  function CalculateWallet(rows: seq<Tx>): real {
    Reduce(rows, 0.0)
  }

  /** What one row adds to its user's wallet. */
  function Delta(t: Tx): real {
    Apply(0.0, t)
  }

  function Owner(t: Tx): nat {
    t.user
  }

  function WalletOf(rows: seq<Tx>, user: nat): real {
    CalculateWallet(Select(Owner, user, rows))
  }

  lemma {:induction false} ReduceIsSum(rows: seq<Tx>, acc: real)
    ensures Reduce(rows, acc) == acc + Sum(Delta, rows)
  {
    if rows == [] {
    } else {
      ReduceIsSum(rows[1..], Apply(acc, rows[0]));
      assert Apply(acc, rows[0]) == acc + Delta(rows[0]);
    }
  }

  /** Wallet weight of a row as seen from one user. */
  function Mine(user: nat): Tx -> real {
    (t: Tx) => if t.user == user then Delta(t) else 0.0
  }

  lemma {:induction false} WalletIsSum(rows: seq<Tx>, user: nat)
    ensures WalletOf(rows, user) == Sum(Mine(user), rows)
  {
    ReduceIsSum(Select(Owner, user, rows), 0.0);
    SelectedSum(rows, user);
  }

  lemma {:induction false} SelectedSum(rows: seq<Tx>, user: nat)
    ensures Sum(Delta, Select(Owner, user, rows)) == Sum(Mine(user), rows)
  {
    if rows == [] {
    } else {
      SelectedSum(rows[1..], user);
      if rows[0].user == user {
        assert Select(Owner, user, rows)[1..] == Select(Owner, user, rows[1..]);
      }
    }
  }

  /** What a row brings its user: paid-in deposits and refunds, and sales less their fee. */
  function Earned(t: Tx): real {
    if t.status != Success then 0.0
    else if t.kind == Deposit || t.kind == RefundFromBuyImage then t.amount
    else if t.kind == ImageSell then t.amount - t.fee
    else 0.0
  }

  /** What a row costs its user: withdrawals from the moment they are requested, and whatever was
      bought with the wallet. Purchases and upgrades paid by bank cost the wallet nothing. */
  function Spent(t: Tx): real {
    if t.kind == Withdrawal && t.status in {Pending, Success} then t.amount
    else if t.kind in {ImageBuy, UpgradeToPhotographer} && t.pay == Wallet && t.status == Success then t.amount
    else 0.0
  }

  /** The wallet is what was earned less what was spent. */
  lemma {:induction false} WalletIsEarnedLessSpent(rows: seq<Tx>)
    ensures CalculateWallet(rows) == Sum(Earned, rows) - Sum(Spent, rows)
  {
    ReduceIsSum(rows, 0.0);
    if rows == [] {
    } else {
      WalletIsEarnedLessSpent(rows[1..]);
      ReduceIsSum(rows[1..], 0.0);
      assert Delta(rows[0]) == Earned(rows[0]) - Spent(rows[0]);
    }
  }

  /** The wallet does not depend on the order in which the database returns the rows. */
  lemma WalletIgnoresRowOrder(a: seq<Tx>, b: seq<Tx>)
    requires multiset(a) == multiset(b)
    ensures CalculateWallet(a) == CalculateWallet(b)
  {
    ReduceIsSum(a, 0.0);
    ReduceIsSum(b, 0.0);
    SumOrderIndependent(Delta, a, b);
  }

  /** Sum of the wallets of the users 0..n. */
  function WalletTotal(rows: seq<Tx>, n: nat): real {
    if n == 0 then 0.0 else WalletTotal(rows, n - 1) + WalletOf(rows, n - 1)
  }

  lemma {:induction false} WalletTotalIsParts(rows: seq<Tx>, n: nat)
    ensures WalletTotal(rows, n) == SumOfParts(Delta, Owner, n, rows)
  {
    if n == 0 {
    } else {
      WalletTotalIsParts(rows, n - 1);
      ReduceIsSum(Select(Owner, n - 1, rows), 0.0);
    }
  }

  /** Folding everyone's rows at once gives the sum of everyone's wallets. */
  lemma WalletsAddUp(rows: seq<Tx>, n: nat)
    requires forall t :: t in rows ==> t.user < n
    ensures WalletTotal(rows, n) == CalculateWallet(rows) == Sum(Delta, rows)
  {
    forall t | t in rows ensures Owner(t) < n { }
    WalletTotalIsParts(rows, n);
    SumPartition(Delta, Owner, n, rows);
    ReduceIsSum(rows, 0.0);
  }

  function SuccessRows(rows: seq<Tx>): seq<Tx> {
    if rows == [] then []
    else if rows[0].status == Success then [rows[0]] + SuccessRows(rows[1..])
    else SuccessRows(rows[1..])
  }

  function PendingWithdrawal(t: Tx): real {
    if t.kind == Withdrawal && t.status == Pending then t.amount else 0.0
  }

  lemma {:induction false} SuccessRowsSum(rows: seq<Tx>)
    ensures Sum(Delta, SuccessRows(rows)) == Sum(Delta, rows) + Sum(PendingWithdrawal, rows)
  {
    if rows == [] {
    } else {
      SuccessRowsSum(rows[1..]);
      if rows[0].status == Success {
        assert SuccessRows(rows)[1..] == SuccessRows(rows[1..]);
      }
    }
  }

  /** The dashboard folds only the successful rows of all users: its balance is the sum of the
      wallets plus the withdrawals still waiting for a decision. */
  lemma DashboardBalance(rows: seq<Tx>, n: nat)
    requires forall t :: t in rows ==> t.user < n
    ensures CalculateWallet(SuccessRows(rows)) == WalletTotal(rows, n) + Sum(PendingWithdrawal, rows)
  {
    WalletsAddUp(rows, n);
    ReduceIsSum(SuccessRows(rows), 0.0);
    SuccessRowsSum(rows);
  }
}
