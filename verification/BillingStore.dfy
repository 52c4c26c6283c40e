/** The billing functions, step by step over the tables they write. */
module BillingStore {
  import opened Billing
  import opened DailyBilling

  class Store {
    var wallets: map<Account, int>
    var ledger: seq<Row>
    var debits: map<(Account, Date), int>
    var payments: map<Invoice, Payment>
    // What the daily run and the provider did so far.
    ghost var jobs: map<(Account, Date), Job>
    ghost var extensions: seq<(Account, Date)>

    constructor ()
      ensures System() == START
    {
      wallets, ledger, debits, payments := map[], [], map[], map[];
      jobs, extensions := map[], [];
    }

    ghost function Contents(): Books
      reads this
    {
      Books(wallets, ledger, debits, payments)
    }

    ghost function System(): Sys
      reads this
    {
      Sys(Contents(), jobs, extensions)
    }

    method CreditWallet(a: Account, amount: int, key: Key) returns (r: CreditResult)
      modifies this`wallets, this`ledger
      ensures r == CreditOutcome(old(Contents()), a, amount, key)
      ensures Contents() == Credit(old(Contents()), a, amount, key)
    {
      if amount <= 0 {
        return BadAmount;
      }
      if key in Keys(ledger) {
        return Repeated;
      }
      if a !in wallets {
        return NoWallet;
      }
      wallets := wallets[a := wallets[a] + amount];
      ledger := ledger + [Row(a, amount, wallets[a], key)];
      return Credited;
    }

    method DebitOneDay(a: Account, d: Date, price: int) returns (r: DebitResult)
      modifies this`wallets, this`ledger, this`debits
      ensures r == DebitOutcome(old(Contents()), a, d, price)
      ensures Contents() == Debit(old(Contents()), a, d, price)
    {
      if (a, d) in debits {
        return AlreadyDone;
      }
      if a !in wallets || wallets[a] < price {
        return Insufficient;
      }
      var savedWallets := wallets;
      var balance := wallets[a] - price;
      wallets := wallets[a := balance];
      if DailyDebit(a, d) in Keys(ledger) {
        wallets := savedWallets;  // the unique key rejects the row and the transaction is rolled back
        return Clash;
      }
      ledger := ledger + [Row(a, -price, balance, DailyDebit(a, d))];
      debits := debits[(a, d) := price];
      return Debited;
    }

    method RefundDebit(a: Account, d: Date, price: int) returns (r: CreditResult)
      modifies this`wallets, this`ledger
      ensures r == CreditOutcome(old(Contents()), a, RefundAmount(old(Contents()), a, d, price), DebitRefund(a, d))
      ensures Contents() == Refund(old(Contents()), a, d, price)
    {
      var amount := price;
      if (a, d) in debits {
        amount := debits[(a, d)];
      }
      r := CreditWallet(a, amount, DebitRefund(a, d));
    }

    method RecordPayment(i: Invoice, a: Account, amount: int)
      modifies this`payments
      ensures Contents() == CreatePayment(old(Contents()), i, a, amount)
    {
      if i !in payments {
        payments := payments[i := Payment(a, amount, Pending)];
      }
    }

    method CompleteInvoice(i: Invoice) returns (r: PayResult)
      modifies this`wallets, this`ledger, this`payments
      ensures r == PayOutcome(old(Contents()), i)
      ensures Contents() == CompletePayment(old(Contents()), i)
    {
      if i !in payments {
        return UnknownInvoice;
      }
      var p := payments[i];
      if p.status.Paid? {
        return AlreadyPaid;
      }
      if !p.status.Pending? {
        return NotPayable;
      }
      if p.account !in wallets {
        return PayerHasNoWallet;
      }
      var balance := wallets[p.account] + p.amount;
      wallets := wallets[p.account := balance];
      if CryptoPay(i) !in Keys(ledger) {
        ledger := ledger + [Row(p.account, p.amount, balance, CryptoPay(i))];
      }
      payments := payments[i := p.(status := Paid)];
      return InvoicePaid;
    }

    /** Grant `days` days at the current price to every account that has a wallet. */
    method BulkGrantDays(days: int, operation: string, price: int, accounts: seq<Account>) returns (credited: nat)
      modifies this`wallets, this`ledger
      ensures Contents() == if 1 <= days <= 365 && 1 <= |operation| <= 160
                            then Grant(old(Contents()), operation, price * days, accounts) else old(Contents())
      ensures |ledger| == old(|ledger|) + credited
    {
      credited := 0;
      if days < 1 || days > 365 || operation == "" || |operation| > 160 {
        return;
      }
      var amount := price * days;
      for k := 0 to |accounts|
        invariant Contents() == Grant(old(Contents()), operation, amount, accounts[..k])
        invariant |ledger| == old(|ledger|) + credited
      {
        var a := accounts[k];
        assert accounts[..k + 1][..k] == accounts[..k] && accounts[..k + 1][k] == a;
        if AdminGrant(operation, a) !in Keys(ledger) && a in wallets {
          wallets := wallets[a := wallets[a] + amount];
          ledger := ledger + [Row(a, amount, wallets[a], AdminGrant(operation, a))];
          credited := credited + 1;
        }
      }
      assert accounts[..|accounts|] == accounts;
    }

    /** The daily run over the accounts due, with the price each debit reads and the provider's answers. */
    method RunDailyDebits(accounts: seq<(Account, bool)>, today: Date, prices: seq<int>, answers: seq<Answer>)
      requires |accounts| == |prices| == |answers| && forall p :: p in prices ==> PriceOk(p)
      modifies this
      ensures System() == DailyRun(old(System()), accounts, today, prices, answers, |accounts|)
    {
      hide ChargeAccount;
      for k := 0 to |accounts|
        invariant System() == DailyRun(old(System()), accounts, today, prices, answers, k)
      {
        assert prices[k] in prices;
        ChargeOne(accounts[k].0, accounts[k].1, today, prices[k], answers[k]);
      }
    }

    /** The body of the daily run. */
    method ChargeOne(a: Account, named: bool, today: Date, price: int, answer: Answer)
      requires PriceOk(price)
      modifies this
      ensures System() == ChargeAccount(old(System()), a, named, today, price, answer)
    {
      hide ChargeAccount, Debit, DebitOutcome, Refund;
      ChargeStages(System(), a, named, today, price, answer);
      var result := DebitOneDay(a, today, price);
      if !result.Debited? {
        return;
      }
      jobs := jobs[(a, today) := AwaitingProvider];
      if named && answer.Accepted? {
        jobs, extensions := jobs[(a, today) := Extended], extensions + [(a, today)];
      } else {
        jobs := jobs[(a, today) := AwaitingRefund];
        var refunded := RefundDebit(a, today, price);
        jobs := jobs[(a, today) := Refunded];
      }
    }
  }

  /** What charging one account comes to, stage by stage. */
  lemma ChargeStages(s: Sys, a: Account, named: bool, d: Date, price: int, answer: Answer)
    requires PriceOk(price)
    ensures !DebitOutcome(s.books, a, d, price).Debited? ==> Debit(s.books, a, d, price) == s.books
    ensures var debited := Debit(s.books, a, d, price);
      ChargeAccount(s, a, named, d, price, answer) ==
        if !DebitOutcome(s.books, a, d, price).Debited? then s
        else if named && answer.Accepted?
        then Sys(debited, s.jobs[(a, d) := AwaitingProvider][(a, d) := Extended], s.extensions + [(a, d)])
        else Sys(Refund(debited, a, d, price),
                 s.jobs[(a, d) := AwaitingProvider][(a, d) := AwaitingRefund][(a, d) := Refunded], s.extensions)
  {
    hide Refund, DebitOutcome;
  }
}
