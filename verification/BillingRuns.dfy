/** All sequences of billing transactions, refunds of any account and day included. */
module BillingRuns {
  import opened Billing

  datatype Transaction =
    | TxOpen(a: Account)
    | TxCredit(a: Account, amount: int, text: string)
    | TxInvoice(i: Invoice, a: Account, amount: int)
    | TxComplete(i: Invoice)
    | TxGrant(operation: string, days: int, price: int, accounts: seq<Account>)
    | TxDebit(a: Account, d: Date, price: int)
    | TxRefund(a: Account, d: Date, price: int)

  function Transact(b: Books, t: Transaction): Books {
    match t
    case TxOpen(a) => OpenWallet(b, a)
    case TxCredit(a, amount, text) => Credit(b, a, amount, Caller(text))
    case TxInvoice(i, a, amount) => CreatePayment(b, i, a, amount)
    case TxComplete(i) => CompletePayment(b, i)
    case TxGrant(operation, days, price, accounts) =>
      if PriceOk(price) && 1 <= days <= 365 then Grant(b, operation, price * days, accounts) else b
    case TxDebit(a, d, price) => if PriceOk(price) then Debit(b, a, d, price) else b
    case TxRefund(a, d, price) => Refund(b, a, d, price)
  }

  const NO_BOOKS := Books(map[], [], map[], map[])

  function Performed(ts: seq<Transaction>): Books {
    if ts == [] then NO_BOOKS else Transact(Performed(ts[..|ts| - 1]), ts[|ts| - 1])
  }

  // ---- Conservation ----

  lemma CreditKeeps(b: Books, a: Account, amount: int, key: Key)
    requires Conserved(b) && KeysMatch(b) && (key.Caller? || key.DebitRefund?)
    ensures Conserved(Credit(b, a, amount, key)) && KeysMatch(Credit(b, a, amount, key))
  {
    hide Conserved, Keys;
    CreditConserves(b, a, amount, key);
  }

  lemma TransactKeeps(b: Books, t: Transaction)
    requires Conserved(b) && KeysMatch(b)
    ensures Conserved(Transact(b, t)) && KeysMatch(Transact(b, t))
  {
    hide Conserved, Keys, Credit, Debit, Grant, CompletePayment;
    match t
    case TxOpen(a) => OpenConserves(b, a);
    case TxCredit(a, amount, text) => CreditKeeps(b, a, amount, Caller(text));
    case TxInvoice(i, a, amount) => SameBooks(b, Transact(b, t));
    case TxComplete(i) => CompleteKeepsKeys(b, i);
    case TxGrant(operation, days, price, accounts) => GrantConserves(b, operation, price * days, accounts);
    case TxDebit(a, d, price) => DebitConserves(b, a, d, price);
    case TxRefund(a, d, price) => CreditKeeps(b, a, RefundAmount(b, a, d, price), DebitRefund(a, d));
  }

  /** However the transactions interleave, each wallet is the sum of its ledger rows, every row's balance follows
      from the one before, keys are unique, and the keys of debits and payments match their records. */
  lemma {:induction false} BooksAreConserved(ts: seq<Transaction>)
    ensures Conserved(Performed(ts)) && KeysMatch(Performed(ts))
  {
    if ts != [] {
      BooksAreConserved(ts[..|ts| - 1]);
      hide Conserved, KeysMatch, Transact;
      TransactKeeps(Performed(ts[..|ts| - 1]), ts[|ts| - 1]);
    }
  }

  // ---- Overdrafts ----

  lemma {:induction false} GrantSolvent(b: Books, operation: string, amount: int, accounts: seq<Account>)
    requires Solvent(b) && amount >= 0
    ensures Solvent(Grant(b, operation, amount, accounts))
  {
    if accounts != [] {
      GrantSolvent(b, operation, amount, accounts[..|accounts| - 1]);
    }
  }

  lemma TransactSolvent(b: Books, t: Transaction)
    requires Solvent(b) && (t.TxInvoice? ==> t.amount >= 0)
    ensures Solvent(Transact(b, t))
  {
    hide Keys, Grant;
    match t
    case TxGrant(operation, days, price, accounts) =>
      if PriceOk(price) && 1 <= days <= 365 {
        assert price * days >= 0;
        GrantSolvent(b, operation, price * days, accounts);
      }
    case _ =>
  }

  predicate InvoicesAtLeast(ts: seq<Transaction>, least: int) {
    forall t :: t in ts && t.TxInvoice? ==> t.amount >= least
  }

  lemma {:induction false} SolventIfNoNegativeInvoice(ts: seq<Transaction>)
    requires InvoicesAtLeast(ts, 0)
    ensures Solvent(Performed(ts))
  {
    if ts != [] {
      var init := ts[..|ts| - 1];
      assert forall t :: t in init ==> t in ts;
      SolventIfNoNegativeInvoice(init);
      hide Solvent, Transact;
      assert ts[|ts| - 1] in ts;
      TransactSolvent(Performed(init), ts[|ts| - 1]);
    }
  }

  /** An invoice's amount becomes the balance of an empty wallet unchecked, so any negative one overdraws it. */
  lemma NegativeInvoiceOverdraws(i: Invoice, a: Account, amount: int)
    ensures Performed([TxOpen(a), TxInvoice(i, a, amount), TxComplete(i)]).wallets == map[a := amount]
  {
    var ts := [TxOpen(a), TxInvoice(i, a, amount), TxComplete(i)];
    assert ts[..2] == [TxOpen(a), TxInvoice(i, a, amount)] && ts[..2][..1] == [TxOpen(a)] && ts[..2][..1][..0] == [];
    var b1 := Performed(ts[..2][..1]);
    assert b1 == Transact(Performed([]), TxOpen(a));
    assert Performed(ts[..2]) == Transact(b1, TxInvoice(i, a, amount));
  }

  ghost predicate Overdraws(ts: seq<Transaction>) {
    exists a :: a in Performed(ts).wallets && Performed(ts).wallets[a] < 0
  }

  /** Recording a payment does not check its amount. No run overdraws a wallet exactly when the amounts that
      callers may invoice are bounded below by zero. */
  lemma NeverOverdrawnIff(least: int)
    ensures (forall ts: seq<Transaction> :: InvoicesAtLeast(ts, least) ==> !Overdraws(ts)) <==> least >= 0
  {
    if least >= 0 {
      forall ts: seq<Transaction> | InvoicesAtLeast(ts, least) ensures !Overdraws(ts) {
        SolventIfNoNegativeInvoice(ts);
      }
    } else {
      var ts := [TxOpen("a"), TxInvoice(1, "a", least), TxComplete(1)];
      NegativeInvoiceOverdraws(1, "a", least);
      assert "a" in Performed(ts).wallets;
      assert InvoicesAtLeast(ts, least) && Overdraws(ts);
    }
  }
}
