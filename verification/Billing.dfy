/** Wallets, the append-only ledger and the transactions on them. */
module Billing {
  type Account = string
  type Date = int
  type Invoice = int

  /** Idempotency keys. The prefix of each kind of key keeps the kinds apart. */
  datatype Key =
    | Caller(text: string)
    | DailyDebit(account: Account, date: Date)
    | DebitRefund(account: Account, date: Date)
    | CryptoPay(invoice: Invoice)
    | AdminGrant(operation: string, account: Account)

  datatype Row = Row(account: Account, amount: int, balanceAfter: int, key: Key)

  datatype PaymentStatus = Pending | Paid | OtherStatus

  datatype Payment = Payment(account: Account, amount: int, status: PaymentStatus)

  datatype Books = Books(
    wallets: map<Account, int>,
    ledger: seq<Row>,
    debits: map<(Account, Date), int>,
    payments: map<Invoice, Payment>)

  function Keys(ledger: seq<Row>): set<Key> { set r | r in ledger :: r.key }

  /** The sum of an account's ledger amounts. */
  function Sum(ledger: seq<Row>, a: Account): int {
    if ledger == [] then 0
    else
      var r := ledger[|ledger| - 1];
      Sum(ledger[..|ledger| - 1], a) + if r.account == a then r.amount else 0
  }

  // ---- Transactions ----

  /** Move `amount` into the wallet and append its row. */
  function Post(b: Books, a: Account, amount: int, key: Key): Books
    requires a in b.wallets
  {
    var balance := b.wallets[a] + amount;
    b.(wallets := b.wallets[a := balance], ledger := b.ledger + [Row(a, amount, balance, key)])
  }

  datatype CreditResult = BadAmount | Repeated | NoWallet | Credited

  function CreditOutcome(b: Books, a: Account, amount: int, key: Key): CreditResult {
    if amount <= 0 then BadAmount
    else if key in Keys(b.ledger) then Repeated
    else if a !in b.wallets then NoWallet
    else Credited
  }

  function Credit(b: Books, a: Account, amount: int, key: Key): Books {
    if CreditOutcome(b, a, amount, key).Credited? then Post(b, a, amount, key) else b
  }

  /** `Clash`: the ledger row's key exists already, so the whole transaction is rolled back. */
  datatype DebitResult = AlreadyDone | Insufficient | Clash | Debited

  function DebitOutcome(b: Books, a: Account, d: Date, price: int): DebitResult {
    if (a, d) in b.debits then AlreadyDone
    else if a !in b.wallets || b.wallets[a] < price then Insufficient
    else if DailyDebit(a, d) in Keys(b.ledger) then Clash
    else Debited
  }

  /** `price` is the daily price as read before the transaction. */
  function Debit(b: Books, a: Account, d: Date, price: int): Books {
    if DebitOutcome(b, a, d, price).Debited?
    then Post(b, a, -price, DailyDebit(a, d)).(debits := b.debits[(a, d) := price])
    else b
  }

  /** What the debit row recorded, or the current price when there is none. */
  function RefundAmount(b: Books, a: Account, d: Date, price: int): int {
    if (a, d) in b.debits then b.debits[(a, d)] else price
  }

  function Refund(b: Books, a: Account, d: Date, price: int): Books {
    Credit(b, a, RefundAmount(b, a, d, price), DebitRefund(a, d))
  }

  function CreatePayment(b: Books, i: Invoice, a: Account, amount: int): Books {
    if i in b.payments then b else b.(payments := b.payments[i := Payment(a, amount, Pending)])
  }

  datatype PayResult = UnknownInvoice | AlreadyPaid | NotPayable | PayerHasNoWallet | InvoicePaid

  function PayOutcome(b: Books, i: Invoice): PayResult {
    if i !in b.payments then UnknownInvoice
    else if b.payments[i].status.Paid? then AlreadyPaid
    else if !b.payments[i].status.Pending? then NotPayable
    else if b.payments[i].account !in b.wallets then PayerHasNoWallet
    else InvoicePaid
  }

  predicate Payable(b: Books, i: Invoice) { PayOutcome(b, i).InvoicePaid? }

  /** The wallet is credited in any case; the row is dropped when its key exists. */
  function CompletePayment(b: Books, i: Invoice): Books {
    if !Payable(b, i) then b
    else
      var p := b.payments[i];
      var balance := b.wallets[p.account] + p.amount;
      var row := Row(p.account, p.amount, balance, CryptoPay(i));
      Books(b.wallets[p.account := balance],
            if row.key in Keys(b.ledger) then b.ledger else b.ledger + [row],
            b.debits,
            b.payments[i := p.(status := Paid)])
  }

  /** Grant `amount` to each of `accounts` that this operation did not reach before. */
  function Grant(b: Books, operation: string, amount: int, accounts: seq<Account>): Books {
    if accounts == [] then b
    else
      var rest := Grant(b, operation, amount, accounts[..|accounts| - 1]);
      var a := accounts[|accounts| - 1];
      if AdminGrant(operation, a) in Keys(rest.ledger) || a !in rest.wallets then rest
      else Post(rest, a, amount, AdminGrant(operation, a))
  }

  function OpenWallet(b: Books, a: Account): Books {
    if a in b.wallets then b else b.(wallets := b.wallets[a := 0])
  }

  /** The daily prices the settings accept, in kopecks. */
  const MIN_PRICE := 10
  const MAX_PRICE := 100000

  predicate PriceOk(price: int) { MIN_PRICE <= price <= MAX_PRICE }

  // ---- Conservation ----

  ghost predicate UniqueKeys(ledger: seq<Row>) {
    forall i, j :: 0 <= i < j < |ledger| ==> ledger[i].key != ledger[j].key
  }

  /** Every row's balance is the previous one of its account plus its amount. */
  ghost predicate Chained(ledger: seq<Row>) {
    forall i :: 0 <= i < |ledger| ==> ledger[i].balanceAfter == Sum(ledger[..i], ledger[i].account) + ledger[i].amount
  }

  ghost predicate Conserved(b: Books) {
    && UniqueKeys(b.ledger)
    && Chained(b.ledger)
    && (forall r :: r in b.ledger ==> r.account in b.wallets)
    && (forall a :: a in b.wallets ==> b.wallets[a] == Sum(b.ledger, a))
  }

  /** The keys the system hands out itself appear exactly with the records they belong to. */
  ghost predicate KeysMatch(b: Books) {
    && (forall i :: CryptoPay(i) in Keys(b.ledger) <==> i in b.payments && b.payments[i].status.Paid?)
    && (forall a, d :: DailyDebit(a, d) in Keys(b.ledger) <==> (a, d) in b.debits)
  }

  ghost predicate Solvent(b: Books) {
    && (forall a :: a in b.wallets ==> b.wallets[a] >= 0)
    && (forall i :: i in b.payments ==> b.payments[i].amount >= 0)
  }

  lemma {:induction false} SumOfStranger(ledger: seq<Row>, a: Account)
    requires forall r :: r in ledger ==> r.account != a
    ensures Sum(ledger, a) == 0
  {
    if ledger != [] {
      var init := ledger[..|ledger| - 1];
      assert ledger == init + [ledger[|ledger| - 1]];
      SumOfStranger(init, a);
    }
  }

  lemma SumAppend(ledger: seq<Row>, r: Row, a: Account)
    ensures Sum(ledger + [r], a) == Sum(ledger, a) + if r.account == a then r.amount else 0
  {
    assert (ledger + [r])[..|ledger|] == ledger;
  }

  lemma KeysAppend(ledger: seq<Row>, r: Row)
    ensures Keys(ledger + [r]) == Keys(ledger) + {r.key}
  {
  }

  lemma UniqueAppend(ledger: seq<Row>, r: Row)
    requires UniqueKeys(ledger) && r.key !in Keys(ledger)
    ensures UniqueKeys(ledger + [r])
  {
    assert forall i :: 0 <= i < |ledger| ==> ledger[i] in ledger;
  }

  lemma ChainedAppend(ledger: seq<Row>, r: Row)
    requires Chained(ledger) && r.balanceAfter == Sum(ledger, r.account) + r.amount
    ensures Chained(ledger + [r])
  {
    var all := ledger + [r];
    forall i | 0 <= i < |all| ensures all[i].balanceAfter == Sum(all[..i], all[i].account) + all[i].amount {
      if i < |ledger| {
        assert all[..i] == ledger[..i];
      } else {
        assert all[..i] == ledger;
      }
    }
  }

  lemma PostConserves(b: Books, a: Account, amount: int, key: Key)
    requires Conserved(b) && a in b.wallets && key !in Keys(b.ledger)
    ensures Conserved(Post(b, a, amount, key))
    ensures Keys(Post(b, a, amount, key).ledger) == Keys(b.ledger) + {key}
  {
    hide UniqueKeys, Chained, Sum, Keys;
    var r := Row(a, amount, b.wallets[a] + amount, key);
    KeysAppend(b.ledger, r);
    UniqueAppend(b.ledger, r);
    ChainedAppend(b.ledger, r);
    forall c | c in b.wallets ensures Post(b, a, amount, key).wallets[c] == Sum(b.ledger + [r], c) {
      SumAppend(b.ledger, r, c);
    }
  }

  lemma OpenConserves(b: Books, a: Account)
    requires Conserved(b)
    ensures Conserved(OpenWallet(b, a))
  {
    if a !in b.wallets {
      SumOfStranger(b.ledger, a);
    }
  }

  lemma SameBooks(b: Books, b': Books)
    requires Conserved(b) && b'.wallets == b.wallets && b'.ledger == b.ledger
    ensures Conserved(b')
  {
  }

  lemma CreditConserves(b: Books, a: Account, amount: int, key: Key)
    requires Conserved(b)
    ensures Conserved(Credit(b, a, amount, key))
    ensures key in Keys(Credit(b, a, amount, key).ledger) <==>
      key in Keys(b.ledger) || CreditOutcome(b, a, amount, key).Credited?
    ensures forall k :: k != key ==> (k in Keys(Credit(b, a, amount, key).ledger) <==> k in Keys(b.ledger))
  {
    hide Conserved, Keys;
    if CreditOutcome(b, a, amount, key).Credited? {
      PostConserves(b, a, amount, key);
    }
  }

  lemma DebitConserves(b: Books, a: Account, d: Date, price: int)
    requires Conserved(b) && KeysMatch(b)
    ensures Conserved(Debit(b, a, d, price)) && KeysMatch(Debit(b, a, d, price))
  {
    hide Conserved, Keys;
    if DebitOutcome(b, a, d, price).Debited? {
      PostConserves(b, a, -price, DailyDebit(a, d));
      SameBooks(Post(b, a, -price, DailyDebit(a, d)), Debit(b, a, d, price));
    }
  }

  /** Completing a payment keeps the books balanced exactly when it moves nothing or its key is still free. */
  lemma CompleteConservesIff(b: Books, i: Invoice)
    requires Conserved(b) && Payable(b, i)
    ensures Conserved(CompletePayment(b, i)) <==> b.payments[i].amount == 0 || CryptoPay(i) !in Keys(b.ledger)
  {
    hide Conserved, Keys;
    var p := b.payments[i];
    if CryptoPay(i) in Keys(b.ledger) {
      CreditWithoutRow(b, CompletePayment(b, i), p.account, p.amount);
    } else {
      PostConserves(b, p.account, p.amount, CryptoPay(i));
      SameBooks(Post(b, p.account, p.amount, CryptoPay(i)), CompletePayment(b, i));
    }
  }

  /** Moving money without a row unbalances the books. */
  lemma CreditWithoutRow(b: Books, b': Books, a: Account, amount: int)
    requires Conserved(b) && a in b.wallets
    requires b'.ledger == b.ledger && b'.wallets == b.wallets[a := b.wallets[a] + amount]
    ensures Conserved(b') <==> amount == 0
  {
    if amount == 0 {
      assert b'.wallets == b.wallets;
    } else {
      assert b'.wallets[a] != Sum(b'.ledger, a);
    }
  }

  lemma CompleteKeepsKeys(b: Books, i: Invoice)
    requires Conserved(b) && KeysMatch(b)
    ensures Conserved(CompletePayment(b, i)) && KeysMatch(CompletePayment(b, i))
  {
    hide Conserved, Keys;
    if Payable(b, i) {
      var p := b.payments[i];
      CompleteConservesIff(b, i);
      KeysAppend(b.ledger, Row(p.account, p.amount, b.wallets[p.account] + p.amount, CryptoPay(i)));
    }
  }

  lemma {:induction false} GrantConserves(b: Books, operation: string, amount: int, accounts: seq<Account>)
    requires Conserved(b)
    ensures Conserved(Grant(b, operation, amount, accounts))
    ensures Grant(b, operation, amount, accounts).(ledger := [], wallets := map[]) == b.(ledger := [], wallets := map[])
    ensures Grant(b, operation, amount, accounts).wallets.Keys == b.wallets.Keys
    ensures forall k: Key :: !k.AdminGrant? ==>
      (k in Keys(Grant(b, operation, amount, accounts).ledger) <==> k in Keys(b.ledger))
  {
    if accounts != [] {
      GrantConserves(b, operation, amount, accounts[..|accounts| - 1]);
      var rest := Grant(b, operation, amount, accounts[..|accounts| - 1]);
      var a := accounts[|accounts| - 1];
      if !(AdminGrant(operation, a) in Keys(rest.ledger) || a !in rest.wallets) {
        PostConserves(rest, a, amount, AdminGrant(operation, a));
      }
    }
  }

  /** Every account is granted once per operation key, however often the operation is repeated. */
  lemma GrantIsIdempotent(b: Books, operation: string, amount: int, amount': int, accounts: seq<Account>)
    requires Conserved(b) && forall a :: a in accounts ==> a in b.wallets
    ensures forall a :: a in accounts ==> AdminGrant(operation, a) in Keys(Grant(b, operation, amount, accounts).ledger)
    ensures Grant(Grant(b, operation, amount, accounts), operation, amount', accounts)
         == Grant(b, operation, amount, accounts)
  {
    GrantMarks(b, operation, amount, accounts);
    GrantSkips(Grant(b, operation, amount, accounts), operation, amount', accounts);
  }

  lemma {:induction false} GrantMarks(b: Books, operation: string, amount: int, accounts: seq<Account>)
    requires Conserved(b) && forall a :: a in accounts ==> a in b.wallets
    ensures forall a :: a in accounts ==> AdminGrant(operation, a) in Keys(Grant(b, operation, amount, accounts).ledger)
  {
    if accounts != [] {
      var init, a := accounts[..|accounts| - 1], accounts[|accounts| - 1];
      assert accounts == init + [a];
      GrantMarks(b, operation, amount, init);
      GrantConserves(b, operation, amount, init);
      var rest := Grant(b, operation, amount, init);
      if !(AdminGrant(operation, a) in Keys(rest.ledger) || a !in rest.wallets) {
        PostConserves(rest, a, amount, AdminGrant(operation, a));
      }
    }
  }

  lemma {:induction false} GrantSkips(b: Books, operation: string, amount: int, accounts: seq<Account>)
    requires forall a :: a in accounts ==> AdminGrant(operation, a) in Keys(b.ledger)
    ensures Grant(b, operation, amount, accounts) == b
  {
    if accounts != [] {
      var init := accounts[..|accounts| - 1];
      assert accounts == init + [accounts[|accounts| - 1]];
      GrantSkips(b, operation, amount, init);
    }
  }
}
