/** Where the money in the books comes from and goes to: every row's amount is the one some transaction asked for. */
module BillingSources {
  import opened Billing
  import opened BillingRuns

  /** The row's account and amount are those of a transaction that was performed. */
  ghost predicate Explained(r: Row, ts: seq<Transaction>, b: Books) {
    match r.key
    case Caller(text) => r.amount > 0 && TxCredit(r.account, r.amount, text) in ts
    case DailyDebit(a, d) =>
      r.account == a && TxDebit(a, d, -r.amount) in ts && (a, d) in b.debits && b.debits[(a, d)] == -r.amount
    case DebitRefund(a, d) =>
      r.account == a && r.amount > 0
      && (((a, d) in b.debits && r.amount == b.debits[(a, d)]) || TxRefund(a, d, r.amount) in ts)
    case CryptoPay(i) =>
      TxInvoice(i, r.account, r.amount) in ts && TxComplete(i) in ts
      && i in b.payments && b.payments[i] == Payment(r.account, r.amount, Paid)
    case AdminGrant(operation, a) => r.account == a && GrantedBy(ts, operation, a, r.amount)
  }

  ghost predicate GrantedBy(ts: seq<Transaction>, operation: string, a: Account, amount: int) {
    exists k :: 0 <= k < |ts| && Grants(ts[k], operation, a, amount)
  }

  predicate Grants(t: Transaction, operation: string, a: Account, amount: int) {
    t.TxGrant? && t.operation == operation && a in t.accounts && amount == t.price * t.days
    && 10 <= t.price <= 100000 && 1 <= t.days <= 365
  }

  ghost predicate AllExplained(ts: seq<Transaction>, b: Books) {
    && (forall r :: r in b.ledger ==> Explained(r, ts, b))
    && (forall a, d :: (a, d) in b.debits ==> TxDebit(a, d, b.debits[(a, d)]) in ts)
    && (forall i :: i in b.payments ==> TxInvoice(i, b.payments[i].account, b.payments[i].amount) in ts)
  }

  lemma MoreTransactions(ts: seq<Transaction>, t: Transaction, b: Books)
    requires AllExplained(ts, b)
    ensures AllExplained(ts + [t], b)
  {
    assert forall u :: u in ts ==> u in ts + [t];
    forall r | r in b.ledger ensures Explained(r, ts + [t], b) {
      assert Explained(r, ts, b);
      if r.key.AdminGrant? {
        StillGranted(ts, t, r.key.operation, r.key.account, r.amount);
      }
    }
  }

  lemma StillGranted(ts: seq<Transaction>, t: Transaction, operation: string, a: Account, amount: int)
    requires GrantedBy(ts, operation, a, amount)
    ensures GrantedBy(ts + [t], operation, a, amount)
  {
    var k :| 0 <= k < |ts| && Grants(ts[k], operation, a, amount);
    assert (ts + [t])[k] == ts[k];
  }

  /** Records that only grow keep what was explained, and one more explained row may be added. */
  lemma RowAdded(ts: seq<Transaction>, b: Books, b': Books, r: Row)
    requires AllExplained(ts, b) && Explained(r, ts, b')
    requires b'.ledger == b.ledger + [r]
    requires forall a, d :: (a, d) in b.debits ==> (a, d) in b'.debits && b'.debits[(a, d)] == b.debits[(a, d)]
    requires forall a, d :: (a, d) in b'.debits ==> TxDebit(a, d, b'.debits[(a, d)]) in ts
    requires forall i :: i in b.payments ==>
      i in b'.payments && b'.payments[i].(status := b.payments[i].status) == b.payments[i]
      && (b.payments[i].status == Paid ==> b'.payments[i].status == Paid)
    requires forall i :: i in b'.payments ==> i in b.payments
    ensures AllExplained(ts, b')
  {
    forall q | q in b'.ledger ensures Explained(q, ts, b') {
      if q in b.ledger {
        assert Explained(q, ts, b);
      } else {
        assert q == r;
      }
    }
  }

  lemma CreditExplained(ts: seq<Transaction>, b: Books, a: Account, amount: int, key: Key)
    requires AllExplained(ts, b)
    requires amount > 0 ==> forall balance :: Explained(Row(a, amount, balance, key), ts, b)
    ensures AllExplained(ts, Credit(b, a, amount, key))
  {
    hide AllExplained, Explained, Keys;
    if CreditOutcome(b, a, amount, key).Credited? {
      var r := Row(a, amount, b.wallets[a] + amount, key);
      WalletsOnly(ts, b, Credit(b, a, amount, key), r);
    }
  }

  lemma WalletsOnly(ts: seq<Transaction>, b: Books, b': Books, r: Row)
    requires AllExplained(ts, b) && Explained(r, ts, b) && b'.ledger == b.ledger + [r]
    requires b'.debits == b.debits && b'.payments == b.payments
    ensures AllExplained(ts, b')
  {
    RowAdded(ts, b, b', r);
  }

  lemma DebitExplained(ts: seq<Transaction>, b: Books, a: Account, d: Date, price: int)
    requires AllExplained(ts, b) && TxDebit(a, d, price) in ts
    ensures AllExplained(ts, Debit(b, a, d, price))
  {
    hide Keys;
    if DebitOutcome(b, a, d, price).Debited? {
      var r := Row(a, -price, b.wallets[a] - price, DailyDebit(a, d));
      hide AllExplained;
      RecordAdded(ts, b, Debit(b, a, d, price), a, d, price, r);
    }
  }

  lemma RecordAdded(ts: seq<Transaction>, b: Books, b': Books, a: Account, d: Date, price: int, r: Row)
    requires AllExplained(ts, b) && TxDebit(a, d, price) in ts && (a, d) !in b.debits
    requires r.account == a && r.amount == -price && r.key == DailyDebit(a, d)
    requires b'.ledger == b.ledger + [r] && b'.debits == b.debits[(a, d) := price] && b'.payments == b.payments
    ensures AllExplained(ts, b')
  {
    RowAdded(ts, b, b', r);
  }

  lemma CompleteExplained(ts: seq<Transaction>, b: Books, i: Invoice)
    requires AllExplained(ts, b) && KeysMatch(b) && TxComplete(i) in ts
    ensures AllExplained(ts, CompletePayment(b, i))
  {
    if Payable(b, i) {
      var p, b' := b.payments[i], CompletePayment(b, i);
      assert CryptoPay(i) !in Keys(b.ledger);
      hide Keys, KeysMatch;
      RowAdded(ts, b, b', Row(p.account, p.amount, b.wallets[p.account] + p.amount, CryptoPay(i)));
    }
  }

  lemma {:induction false} GrantExplained(ts: seq<Transaction>, b: Books, operation: string, amount: int,
                                          accounts: seq<Account>)
    requires AllExplained(ts, b) && forall a :: a in accounts ==> GrantedBy(ts, operation, a, amount)
    ensures AllExplained(ts, Grant(b, operation, amount, accounts))
  {
    hide AllExplained, GrantedBy, Keys;
    if accounts != [] {
      var init, a := accounts[..|accounts| - 1], accounts[|accounts| - 1];
      assert a in accounts && forall c :: c in init ==> c in accounts;
      GrantExplained(ts, b, operation, amount, init);
      var rest := Grant(b, operation, amount, init);
      if !(AdminGrant(operation, a) in Keys(rest.ledger) || a !in rest.wallets) {
        WalletsOnly(ts, rest, Grant(b, operation, amount, accounts),
                    Row(a, amount, rest.wallets[a] + amount, AdminGrant(operation, a)));
      }
    }
  }

  lemma InvoiceExplained(ts: seq<Transaction>, b: Books, i: Invoice, a: Account, amount: int)
    requires AllExplained(ts, b) && TxInvoice(i, a, amount) in ts
    ensures AllExplained(ts, CreatePayment(b, i, a, amount))
  {
    var b' := CreatePayment(b, i, a, amount);
    forall r | r in b'.ledger ensures Explained(r, ts, b') {
      assert Explained(r, ts, b);
    }
  }

  lemma OpenExplained(ts: seq<Transaction>, b: Books, a: Account)
    requires AllExplained(ts, b)
    ensures AllExplained(ts, OpenWallet(b, a))
  {
    forall r | r in b.ledger ensures Explained(r, ts, OpenWallet(b, a)) {
      assert Explained(r, ts, b);
    }
  }

  lemma TransactExplained(ts: seq<Transaction>, b: Books, t: Transaction)
    requires AllExplained(ts, b) && KeysMatch(b) && t in ts
    ensures AllExplained(ts, Transact(b, t))
  {
    hide AllExplained, KeysMatch, Credit, Debit, Grant, CompletePayment, CreatePayment, OpenWallet;
    match t
    case TxOpen(a) => OpenExplained(ts, b, a);
    case TxCredit(a, amount, text) => CreditExplained(ts, b, a, amount, Caller(text));
    case TxInvoice(i, a, amount) => InvoiceExplained(ts, b, i, a, amount);
    case TxComplete(i) => CompleteExplained(ts, b, i);
    case TxGrant(operation, days, price, accounts) =>
      if PriceOk(price) && 1 <= days <= 365 {
        forall a | a in accounts ensures GrantedBy(ts, operation, a, price * days) {
          var k :| 0 <= k < |ts| && ts[k] == t;
          assert Grants(ts[k], operation, a, price * days);
        }
        GrantExplained(ts, b, operation, price * days, accounts);
      }
    case TxDebit(a, d, price) => DebitExplained(ts, b, a, d, price);
    case TxRefund(a, d, price) => CreditExplained(ts, b, a, RefundAmount(b, a, d, price), DebitRefund(a, d));
  }

  /** However transactions interleave, every ledger row moves exactly the amount that a transaction of its kind asked
      for, to or from that account: a credit its amount, a debit the daily price it was made at, a refund what the debit
      recorded or its own price, a payment the invoiced amount, a grant its days at its price. */
  lemma {:induction false} RowsAreExplained(ts: seq<Transaction>)
    ensures AllExplained(ts, Performed(ts))
  {
    if ts != [] {
      var init, t := ts[..|ts| - 1], ts[|ts| - 1];
      assert ts == init + [t];
      RowsAreExplained(init);
      BooksAreConserved(init);
      hide AllExplained, KeysMatch, Transact, Conserved;
      MoreTransactions(init, t, Performed(init));
      TransactExplained(ts, Performed(init), t);
    }
  }

  // ---- The effect of one transaction ----

  /** A debit at `price` takes effect exactly when the day is not charged and the wallet holds the price, and then the
      wallet falls by exactly that price, which is recorded. */
  lemma DebitInNumbers(b: Books, a: Account, d: Date, price: int)
    requires KeysMatch(b) && 10 <= price <= 100000
    ensures Transact(b, TxDebit(a, d, price)) ==
      if (a, d) !in b.debits && a in b.wallets && b.wallets[a] >= price then
        Books(b.wallets[a := b.wallets[a] - price],
              b.ledger + [Row(a, -price, b.wallets[a] - price, DailyDebit(a, d))],
              b.debits[(a, d) := price], b.payments)
      else b
  {
    hide Keys;
  }

  /** Completing an invoice takes effect exactly once, while it is pending, by the invoiced amount. */
  lemma CompletionInNumbers(b: Books, i: Invoice)
    requires KeysMatch(b)
    ensures Transact(b, TxComplete(i)) ==
      if i in b.payments && b.payments[i].status == Pending && b.payments[i].account in b.wallets then
        var p := b.payments[i];
        var balance := b.wallets[p.account] + p.amount;
        Books(b.wallets[p.account := balance], b.ledger + [Row(p.account, p.amount, balance, CryptoPay(i))],
              b.debits, b.payments[i := p.(status := Paid)])
      else b
  {
    hide Keys;
  }

  /** A refund gives back exactly what was taken, or the price it is made at if nothing was, once. */
  lemma RefundInNumbers(b: Books, a: Account, d: Date, price: int)
    requires a in b.wallets && DebitRefund(a, d) !in Keys(b.ledger)
    ensures (a, d) in b.debits && b.debits[(a, d)] > 0 ==>
      Transact(b, TxRefund(a, d, price)).wallets == b.wallets[a := b.wallets[a] + b.debits[(a, d)]]
    ensures (a, d) !in b.debits && price > 0 ==>
      Transact(b, TxRefund(a, d, price)).wallets == b.wallets[a := b.wallets[a] + price]
  {
  }

  /** A grant raises each wallet it names by exactly its days at its price, unless the operation reached it before. */
  lemma {:induction false} GrantInNumbers(b: Books, operation: string, amount: int, accounts: seq<Account>, a: Account)
    requires a in b.wallets
    ensures var b' := Grant(b, operation, amount, accounts); var reached := AdminGrant(operation, a) in Keys(b.ledger);
      && a in b'.wallets
      && b'.wallets[a] == b.wallets[a] + (if a in accounts && !reached then amount else 0)
      && (AdminGrant(operation, a) in Keys(b'.ledger) <==> reached || a in accounts)
  {
    if accounts != [] {
      var init, last := accounts[..|accounts| - 1], accounts[|accounts| - 1];
      assert accounts == init + [last];
      GrantInNumbers(b, operation, amount, init, a);
      var rest := Grant(b, operation, amount, init);
      hide Keys;
      if last in rest.wallets {
        KeysAppend(rest.ledger, Row(last, amount, rest.wallets[last] + amount, AdminGrant(operation, last)));
      }
    }
  }
}
