/** All interleavings of the billing transactions with the provider calls of the daily run. */
module DailyBilling {
  import opened Collections
  import opened Billing
  import opened BillingRuns

  /** How far the charge of one account for one day has come. */
  datatype Job = AwaitingProvider | Extended | AwaitingRefund | Refunded

  /** The books, the charges begun, and the provider extensions that succeeded, in order. */
  datatype Sys = Sys(books: Books, jobs: map<(Account, Date), Job>, extensions: seq<(Account, Date)>)

  datatype Event =
    | Open(a: Account)
    | Pay(a: Account, amount: int, text: string)
    | Invoiced(i: Invoice, a: Account, amount: int)
    | Completed(i: Invoice)
    | GrantDays(operation: string, days: int, price: int, accounts: seq<Account>)
    | Charge(a: Account, d: Date, price: int)
    | Answered(a: Account, d: Date, ok: bool)
    | GiveBack(a: Account, d: Date, price: int)

  function JobOf(s: Sys, a: Account, d: Date): Option<Job> { if (a, d) in s.jobs then Some(s.jobs[(a, d)]) else None }

  /** One event. Each is a transaction of its own, or one answer of the provider; an event that cannot happen
      changes nothing. */
  function Apply(s: Sys, e: Event): Sys {
    match e
    case Open(a) => s.(books := OpenWallet(s.books, a))
    case Pay(a, amount, text) => s.(books := Credit(s.books, a, amount, Caller(text)))
    case Invoiced(i, a, amount) => s.(books := CreatePayment(s.books, i, a, amount))
    case Completed(i) => s.(books := CompletePayment(s.books, i))
    case GrantDays(operation, days, price, accounts) =>
      if PriceOk(price) && 1 <= days <= 365 then s.(books := Grant(s.books, operation, price * days, accounts)) else s
    case Charge(a, d, price) =>
      if PriceOk(price) && DebitOutcome(s.books, a, d, price).Debited?
      then s.(books := Debit(s.books, a, d, price), jobs := s.jobs[(a, d) := AwaitingProvider])
      else s
    case Answered(a, d, ok) =>
      if JobOf(s, a, d) != Some(AwaitingProvider) then s
      else if ok then s.(jobs := s.jobs[(a, d) := Extended], extensions := s.extensions + [(a, d)])
      else s.(jobs := s.jobs[(a, d) := AwaitingRefund])
    case GiveBack(a, d, price) =>
      if JobOf(s, a, d) != Some(AwaitingRefund) then s
      else s.(books := Refund(s.books, a, d, price), jobs := s.jobs[(a, d) := Refunded])
  }

  const START := Sys(NO_BOOKS, map[], [])

  function After(events: seq<Event>): Sys {
    if events == [] then START else Apply(After(events[..|events| - 1]), events[|events| - 1])
  }

  // ---- The invariant ----

  predicate Concerns(k: Key, a: Account, d: Date) { k == DailyDebit(a, d) || k == DebitRefund(a, d) }

  /** The net ledger effect of charging account `a` for day `d`. */
  function Net(ledger: seq<Row>, a: Account, d: Date): int {
    if ledger == [] then 0
    else
      var r := ledger[|ledger| - 1];
      Net(ledger[..|ledger| - 1], a, d) + if Concerns(r.key, a, d) then r.amount else 0
  }

  lemma NetAppend(ledger: seq<Row>, r: Row, a: Account, d: Date)
    ensures Net(ledger + [r], a, d) == Net(ledger, a, d) + if Concerns(r.key, a, d) then r.amount else 0
  {
    assert (ledger + [r])[..|ledger|] == ledger;
  }

  /** What the books and the provider log must say about one account and day. */
  ghost predicate ChargeOk(s: Sys, a: Account, d: Date) {
    var job := JobOf(s, a, d);
    && (job.Some? <==> (a, d) in s.books.debits)
    && (job.Some? ==> s.books.debits[(a, d)] >= MIN_PRICE && a in s.books.wallets)
    && (DebitRefund(a, d) in Keys(s.books.ledger) <==> job == Some(Refunded))
    && Net(s.books.ledger, a, d) == (if job.None? || job == Some(Refunded) then 0 else -s.books.debits[(a, d)])
    && multiset(s.extensions)[(a, d)] == (if job == Some(Extended) then 1 else 0)
  }

  ghost predicate ChargesOk(s: Sys) { forall a, d :: ChargeOk(s, a, d) }

  ghost predicate Ok(s: Sys) { Conserved(s.books) && KeysMatch(s.books) && ChargesOk(s) }

  /** Books whose ledger and debits stay as they are leave every charge as it was. */
  lemma LedgerUntouched(s: Sys, s': Sys)
    requires ChargesOk(s) && s'.jobs == s.jobs && s'.extensions == s.extensions
    requires s'.books.debits == s.books.debits && s'.books.ledger == s.books.ledger
    requires s.books.wallets.Keys <= s'.books.wallets.Keys
    ensures ChargesOk(s')
  {
    forall c, d ensures ChargeOk(s', c, d) {
      assert ChargeOk(s, c, d);
    }
  }

  /** A row under a key of another kind touches no charge. */
  lemma OtherRow(s: Sys, s': Sys, r: Row)
    requires ChargesOk(s) && (r.key.Caller? || r.key.CryptoPay? || r.key.AdminGrant?)
    requires s'.jobs == s.jobs && s'.extensions == s.extensions && s'.books.debits == s.books.debits
    requires s'.books.ledger == s.books.ledger + [r] && s.books.wallets.Keys <= s'.books.wallets.Keys
    ensures ChargesOk(s')
  {
    hide Net, Keys;
    KeysAppend(s.books.ledger, r);
    forall c, d ensures ChargeOk(s', c, d) {
      assert ChargeOk(s, c, d);
      NetAppend(s.books.ledger, r, c, d);
    }
  }

  lemma PayKeeps(s: Sys, a: Account, amount: int, text: string)
    requires ChargesOk(s)
    ensures ChargesOk(Apply(s, Pay(a, amount, text)))
  {
    hide ChargesOk, Keys;
    if CreditOutcome(s.books, a, amount, Caller(text)).Credited? {
      OtherRow(s, Apply(s, Pay(a, amount, text)), Row(a, amount, s.books.wallets[a] + amount, Caller(text)));
    }
  }

  lemma CompletedKeeps(s: Sys, i: Invoice)
    requires ChargesOk(s)
    ensures ChargesOk(Apply(s, Completed(i)))
  {
    hide ChargesOk, Keys;
    if Payable(s.books, i) {
      var p := s.books.payments[i];
      if CryptoPay(i) in Keys(s.books.ledger) {
        LedgerUntouched(s, Apply(s, Completed(i)));
      } else {
        OtherRow(s, Apply(s, Completed(i)),
                 Row(p.account, p.amount, s.books.wallets[p.account] + p.amount, CryptoPay(i)));
      }
    }
  }

  lemma {:induction false} GrantKeeps(s: Sys, operation: string, amount: int, accounts: seq<Account>)
    requires ChargesOk(s)
    ensures ChargesOk(s.(books := Grant(s.books, operation, amount, accounts)))
  {
    hide ChargesOk, Keys;
    if accounts != [] {
      var init, a := accounts[..|accounts| - 1], accounts[|accounts| - 1];
      GrantKeeps(s, operation, amount, init);
      var rest := Grant(s.books, operation, amount, init);
      if !(AdminGrant(operation, a) in Keys(rest.ledger) || a !in rest.wallets) {
        OtherRow(s.(books := rest), s.(books := Grant(s.books, operation, amount, accounts)),
                 Row(a, amount, rest.wallets[a] + amount, AdminGrant(operation, a)));
      }
    }
  }

  lemma ChargeKeeps(s: Sys, a: Account, d: Date, price: int)
    requires ChargesOk(s)
    ensures ChargesOk(Apply(s, Charge(a, d, price)))
  {
    hide ChargeOk, Debit;
    if PriceOk(price) && DebitOutcome(s.books, a, d, price).Debited? {
      forall c, e ensures ChargeOk(Apply(s, Charge(a, d, price)), c, e) {
        assert ChargeOk(s, c, e);
        ChargedCharge(s, a, d, price, c, e);
      }
    }
  }

  lemma ChargedCharge(s: Sys, a: Account, d: Date, price: int, c: Account, e: Date)
    requires ChargeOk(s, c, e) && PriceOk(price) && DebitOutcome(s.books, a, d, price).Debited?
    ensures ChargeOk(Apply(s, Charge(a, d, price)), c, e)
  {
    hide Net, Keys;
    var r := Row(a, -price, s.books.wallets[a] - price, DailyDebit(a, d));
    NetAppend(s.books.ledger, r, c, e);
    KeysAppend(s.books.ledger, r);
    assert Apply(s, Charge(a, d, price)).books.ledger == s.books.ledger + [r];
  }

  lemma AnsweredKeeps(s: Sys, a: Account, d: Date, ok: bool)
    requires ChargesOk(s)
    ensures ChargesOk(Apply(s, Answered(a, d, ok)))
  {
    hide Net, Keys;
    forall c, e ensures ChargeOk(Apply(s, Answered(a, d, ok)), c, e) {
      assert ChargeOk(s, c, e);
    }
  }

  lemma GiveBackKeeps(s: Sys, a: Account, d: Date, price: int)
    requires ChargesOk(s)
    ensures ChargesOk(Apply(s, GiveBack(a, d, price)))
  {
    hide ChargeOk, Refund;
    if JobOf(s, a, d) == Some(AwaitingRefund) {
      assert ChargeOk(s, a, d);
      RefundPosts(s, a, d, price);
      forall c, e ensures ChargeOk(Apply(s, GiveBack(a, d, price)), c, e) {
        assert ChargeOk(s, c, e);
        RefundedCharge(s, a, d, price, c, e);
      }
    }
  }

  lemma RefundPosts(s: Sys, a: Account, d: Date, price: int)
    requires ChargeOk(s, a, d) && JobOf(s, a, d) == Some(AwaitingRefund)
    ensures (a, d) in s.books.debits && a in s.books.wallets
    ensures Refund(s.books, a, d, price) == Post(s.books, a, s.books.debits[(a, d)], DebitRefund(a, d))
  {
    hide Net, Keys;
  }

  lemma RefundedCharge(s: Sys, a: Account, d: Date, price: int, c: Account, e: Date)
    requires ChargeOk(s, a, d) && ChargeOk(s, c, e) && JobOf(s, a, d) == Some(AwaitingRefund)
    requires (a, d) in s.books.debits && a in s.books.wallets
    requires Refund(s.books, a, d, price) == Post(s.books, a, s.books.debits[(a, d)], DebitRefund(a, d))
    ensures ChargeOk(Apply(s, GiveBack(a, d, price)), c, e)
  {
    hide Net, Keys, Refund;
    var amount := s.books.debits[(a, d)];
    var r := Row(a, amount, s.books.wallets[a] + amount, DebitRefund(a, d));
    NetAppend(s.books.ledger, r, c, e);
    KeysAppend(s.books.ledger, r);
  }

  lemma EventCharges(s: Sys, e: Event)
    requires ChargesOk(s)
    ensures ChargesOk(Apply(s, e))
  {
    hide ChargesOk;
    match e
    case Open(a) => LedgerUntouched(s, Apply(s, e));
    case Pay(a, amount, text) => PayKeeps(s, a, amount, text);
    case Invoiced(i, a, amount) => LedgerUntouched(s, Apply(s, e));
    case Completed(i) => CompletedKeeps(s, i);
    case GrantDays(operation, days, price, accounts) => GrantKeeps(s, operation, price * days, accounts);
    case Charge(a, d, price) => ChargeKeeps(s, a, d, price);
    case Answered(a, d, ok) => AnsweredKeeps(s, a, d, ok);
    case GiveBack(a, d, price) => GiveBackKeeps(s, a, d, price);
  }

  lemma EventKeeps(s: Sys, e: Event)
    requires Ok(s)
    ensures Ok(Apply(s, e))
  {
    hide ChargesOk, Conserved, KeysMatch, Apply, Transact;
    EventCharges(s, e);
    EventTransacts(s, e);
    if TransactionFor(s, e).Some? {
      TransactKeeps(s.books, TransactionFor(s, e).value);
    }
  }

  // ---- The books of a run ----

  /** What the event does to the books, as a plain transaction. */
  function TransactionFor(s: Sys, e: Event): Option<Transaction> {
    match e
    case Open(a) => Some(TxOpen(a))
    case Pay(a, amount, text) => Some(TxCredit(a, amount, text))
    case Invoiced(i, a, amount) => Some(TxInvoice(i, a, amount))
    case Completed(i) => Some(TxComplete(i))
    case GrantDays(operation, days, price, accounts) => Some(TxGrant(operation, days, price, accounts))
    case Charge(a, d, price) => Some(TxDebit(a, d, price))
    case Answered(a, d, ok) => None
    case GiveBack(a, d, price) => if JobOf(s, a, d) == Some(AwaitingRefund) then Some(TxRefund(a, d, price)) else None
  }

  function TransactionsOf(events: seq<Event>): seq<Transaction> {
    if events == [] then []
    else
      var init := events[..|events| - 1];
      var t := TransactionFor(After(init), events[|events| - 1]);
      TransactionsOf(init) + if t.Some? then [t.value] else []
  }

  lemma EventTransacts(s: Sys, e: Event)
    ensures var t := TransactionFor(s, e);
      Apply(s, e).books == if t.Some? then Transact(s.books, t.value) else s.books
  {
    hide Credit, CreatePayment, CompletePayment, Grant, Refund, DebitOutcome;
  }

  lemma OneMore(ts: seq<Transaction>, t: Transaction)
    ensures Performed(ts + [t]) == Transact(Performed(ts), t)
  {
    assert (ts + [t])[..|ts|] == ts;
  }

  lemma NoTransactions()
    ensures Performed([]) == NO_BOOKS
  {
  }

  /** The books of every run are those of its transactions, so all that holds over arbitrary transactions
      holds of the daily billing. */
  lemma {:induction false} BooksOfRun(events: seq<Event>)
    ensures After(events).books == Performed(TransactionsOf(events))
  {
    hide Transact, Performed, Apply, TransactionFor;
    if events == [] {
      NoTransactions();
    } else {
      var init, e := events[..|events| - 1], events[|events| - 1];
      BooksOfRun(init);
      EventTransacts(After(init), e);
      var t := TransactionFor(After(init), e);
      if t.Some? {
        OneMore(TransactionsOf(init), t.value);
      } else {
        assert TransactionsOf(events) == TransactionsOf(init);
      }
    }
  }

  // ---- Main results over every run ----

  lemma {:induction false} ChargesHold(events: seq<Event>)
    ensures ChargesOk(After(events))
  {
    if events != [] {
      ChargesHold(events[..|events| - 1]);
      EventCharges(After(events[..|events| - 1]), events[|events| - 1]);
    }
  }

  /** In every reachable state the books are conserved, and the books and the provider log agree on every
      account and day. */
  lemma LedgerIsConserved(events: seq<Event>)
    ensures Ok(After(events))
  {
    hide ChargesOk, Conserved, KeysMatch;
    ChargesHold(events);
    BooksOfRun(events);
    BooksAreConserved(TransactionsOf(events));
  }

  predicate Settled(s: Sys, a: Account, d: Date) {
    JobOf(s, a, d) != Some(AwaitingProvider) && JobOf(s, a, d) != Some(AwaitingRefund)
  }

  /** The event at `k` charges account `a` for day `d`: nothing was charged before, the wallet holds the price, and
      falls by exactly that price. */
  ghost predicate Charges(events: seq<Event>, k: nat, a: Account, d: Date, price: int) {
    && k < |events| && events[k] == Charge(a, d, price) && 10 <= price <= 100000
    && (var before, after := After(events[..k]).books, After(events[..k + 1]).books;
        && (a, d) !in before.debits && a in before.wallets && before.wallets[a] >= price
        && a in after.wallets && after.wallets[a] == before.wallets[a] - price)
  }

  /** The provider's successful answer for `a` and `d` came at `m`. */
  predicate Extends(events: seq<Event>, m: nat, a: Account, d: Date) {
    m < |events| && events[m] == Answered(a, d, true)
  }

  lemma ChargesInPrefix(events: seq<Event>, n: nat, k: nat, a: Account, d: Date, price: int)
    requires n <= |events| && Charges(events[..n], k, a, d, price)
    ensures Charges(events, k, a, d, price)
  {
    hide After;
    assert events[..n][..k] == events[..k] && events[..n][..k + 1] == events[..k + 1];
  }

  lemma ApplyRecord(s: Sys, e: Event, a: Account, d: Date)
    ensures (a, d) in s.books.debits ==>
      (a, d) in Apply(s, e).books.debits && Apply(s, e).books.debits[(a, d)] == s.books.debits[(a, d)]
    ensures (a, d) !in s.books.debits && (a, d) in Apply(s, e).books.debits ==>
      && e == Charge(a, d, Apply(s, e).books.debits[(a, d)])
      && a in s.books.wallets && s.books.wallets[a] >= Apply(s, e).books.debits[(a, d)]
      && 10 <= Apply(s, e).books.debits[(a, d)] <= 100000
      && a in Apply(s, e).books.wallets
      && Apply(s, e).books.wallets[a] == s.books.wallets[a] - Apply(s, e).books.debits[(a, d)]
  {
    if e.GrantDays? {
      GrantKeepsDebits(s.books, e.operation, e.price * e.days, e.accounts);
    }
    hide Grant, Keys;
  }

  lemma {:induction false} GrantKeepsDebits(b: Books, operation: string, amount: int, accounts: seq<Account>)
    ensures Grant(b, operation, amount, accounts).debits == b.debits
  {
    if accounts != [] {
      GrantKeepsDebits(b, operation, amount, accounts[..|accounts| - 1]);
    }
  }

  /** Every recorded charge was made by one event, at the price in force then. */
  lemma {:induction false} ChargedBy(events: seq<Event>, a: Account, d: Date) returns (k: nat)
    requires (a, d) in After(events).books.debits
    ensures Charges(events, k, a, d, After(events).books.debits[(a, d)])
  {
    var init, e := events[..|events| - 1], events[|events| - 1];
    hide Apply;
    ApplyRecord(After(init), e, a, d);
    if (a, d) in After(init).books.debits {
      k := ChargedBy(init, a, d);
      ChargesInPrefix(events, |init|, k, a, d, After(init).books.debits[(a, d)]);
    } else {
      k := |init|;
      assert events[..k] == init && events[..k + 1] == events;
    }
  }

  lemma {:induction false} ExtendedBy(events: seq<Event>, a: Account, d: Date) returns (m: nat)
    requires multiset(After(events).extensions)[(a, d)] > 0
    ensures Extends(events, m, a, d)
  {
    var init, e := events[..|events| - 1], events[|events| - 1];
    if multiset(After(init).extensions)[(a, d)] > 0 {
      m := ExtendedBy(init, a, d);
    } else {
      m := |init|;
    }
  }

  /** For each account and day at most one extension ever succeeds, and only after a charge. Once the charge is settled
      its net effect is minus the price of the event that made it exactly when the provider extended, and nothing
      otherwise, whatever the price was later. */
  lemma ChargedOnceAndExactly(events: seq<Event>, a: Account, d: Date) returns (k: nat, m: nat)
    ensures var s := After(events); var extended := multiset(s.extensions)[(a, d)];
      && extended <= 1
      && (extended == 1 ==> Extends(events, m, a, d))
      && ((a, d) in s.books.debits ==> Charges(events, k, a, d, s.books.debits[(a, d)]) && events[k].Charge?)
      && (extended == 1 ==> (a, d) in s.books.debits)
      && (Settled(s, a, d) ==> Net(s.books.ledger, a, d) == if extended == 1 then -events[k].price else 0)
  {
    hide Ok, After, Settled, Net, Charges;
    k, m := 0, 0;
    LedgerIsConserved(events);
    EachChargeOk(After(events), a, d);
    ChargedOnce(After(events), a, d);
    if (a, d) in After(events).books.debits {
      k := ChargedBy(events, a, d);
      ChargeAt(events, k, a, d, After(events).books.debits[(a, d)]);
    }
    if multiset(After(events).extensions)[(a, d)] > 0 {
      m := ExtendedBy(events, a, d);
    }
  }

  lemma ChargeAt(events: seq<Event>, k: nat, a: Account, d: Date, price: int)
    requires Charges(events, k, a, d, price)
    ensures k < |events| && events[k] == Charge(a, d, price)
  {
  }

  lemma ChargedOnce(s: Sys, a: Account, d: Date)
    requires ChargeOk(s, a, d)
    ensures var extended := multiset(s.extensions)[(a, d)];
      && extended <= 1
      && (extended == 1 ==> (a, d) in s.books.debits)
      && (Settled(s, a, d) ==>
            Net(s.books.ledger, a, d) == if extended == 1 then -s.books.debits[(a, d)] else 0)
  {
    hide Net, Keys;
    match JobOf(s, a, d)
    case None =>
    case Some(AwaitingProvider) =>
    case Some(Extended) =>
    case Some(AwaitingRefund) =>
    case Some(Refunded) =>
  }

  lemma EachChargeOk(s: Sys, a: Account, d: Date)
    requires Ok(s)
    ensures ChargeOk(s, a, d)
  {
    hide ChargeOk;
  }

  // ---- The daily run ----

  datatype Answer = Accepted | Refused | Raised

  /** One account of a run: charge, ask the provider, refund unless it extended. `named` tells whether the
      account has a provider user at all. */
  function ChargeAccount(s: Sys, a: Account, named: bool, d: Date, price: int, answer: Answer): Sys {
    if !DebitOutcome(s.books, a, d, price).Debited? then s
    else
      var ok := named && answer.Accepted?;
      var asked := Apply(Apply(s, Charge(a, d, price)), Answered(a, d, ok));
      if ok then asked else Apply(asked, GiveBack(a, d, price))
  }

  /** The first `k` accounts of a run. */
  function DailyRun(s: Sys, accounts: seq<(Account, bool)>, d: Date, prices: seq<int>, answers: seq<Answer>,
                    k: nat): Sys
    requires k <= |accounts| == |prices| == |answers|
  {
    if k == 0 then s
    else
      ChargeAccount(DailyRun(s, accounts, d, prices, answers, k - 1),
                    accounts[k - 1].0, accounts[k - 1].1, d, prices[k - 1], answers[k - 1])
  }

  lemma ChargeAccountKeeps(s: Sys, a: Account, named: bool, d: Date, price: int, answer: Answer)
    requires Ok(s)
    ensures Ok(ChargeAccount(s, a, named, d, price, answer))
  {
    hide Ok, Apply;
    var charged := Apply(s, Charge(a, d, price));
    var ok := named && answer.Accepted?;
    EventKeeps(s, Charge(a, d, price));
    EventKeeps(charged, Answered(a, d, ok));
    EventKeeps(Apply(charged, Answered(a, d, ok)), GiveBack(a, d, price));
  }

  /** One account of a run: the provider extends it exactly when the day was not charged, the wallet holds the price,
      the account has a user and the provider agrees, and the wallet falls by the price exactly then. */
  lemma AccountInNumbers(s: Sys, a: Account, named: bool, d: Date, price: int, answer: Answer)
    requires Ok(s) && 10 <= price <= 100000
    ensures var s' := ChargeAccount(s, a, named, d, price, answer);
      var extended := (a, d) !in s.books.debits && a in s.books.wallets && s.books.wallets[a] >= price
                      && named && answer == Accepted;
      && s'.extensions == (if extended then s.extensions + [(a, d)] else s.extensions)
      && (a in s.books.wallets ==>
            a in s'.books.wallets && s'.books.wallets[a] == s.books.wallets[a] - if extended then price else 0)
  {
    hide Net, Conserved;
    assert ChargeOk(s, a, d);
    if (a, d) !in s.books.debits && a in s.books.wallets && s.books.wallets[a] >= price {
      KeysAppend(s.books.ledger, Row(a, -price, s.books.wallets[a] - price, DailyDebit(a, d)));
    }
  }

  lemma ChargeAccountSettles(s: Sys, c: Account, named: bool, today: Date, price: int, answer: Answer,
                             a: Account, d: Date)
    requires PriceOk(price) && Settled(s, a, d)
    ensures Settled(ChargeAccount(s, c, named, today, price, answer), a, d)
  {
    hide DebitOutcome, Debit, Refund;
  }

  /** A completed run is a run like any other, and leaves every charge settled that was settled before it,
      its own included. */
  lemma {:induction false} DailyRunSettles(s: Sys, accounts: seq<(Account, bool)>, today: Date, prices: seq<int>,
                                           answers: seq<Answer>, k: nat, a: Account, d: Date)
    requires k <= |accounts| == |prices| == |answers| && forall p :: p in prices ==> PriceOk(p)
    requires Ok(s) && Settled(s, a, d)
    ensures Ok(DailyRun(s, accounts, today, prices, answers, k))
    ensures Settled(DailyRun(s, accounts, today, prices, answers, k), a, d)
  {
    hide Ok, Settled, ChargeAccount;
    if k > 0 {
      DailyRunSettles(s, accounts, today, prices, answers, k - 1, a, d);
      var before := DailyRun(s, accounts, today, prices, answers, k - 1);
      assert prices[k - 1] in prices;
      ChargeAccountKeeps(before, accounts[k - 1].0, accounts[k - 1].1, today, prices[k - 1], answers[k - 1]);
      ChargeAccountSettles(before, accounts[k - 1].0, accounts[k - 1].1, today, prices[k - 1], answers[k - 1], a, d);
    }
  }

  /** Running the same day again leaves every charge begun before it exactly as it stands: a finished one is
      not repeated, and one that a killed run left half done is neither extended nor refunded. */
  lemma {:induction false} RerunLeavesCharged(s: Sys, accounts: seq<(Account, bool)>, today: Date, prices: seq<int>,
                                              answers: seq<Answer>, k: nat, a: Account)
    requires k <= |accounts| == |prices| == |answers|
    requires Ok(s) && (a, today) in s.books.debits
    ensures var s' := DailyRun(s, accounts, today, prices, answers, k);
      && Ok(s') && (a, today) in s'.books.debits
      && Net(s'.books.ledger, a, today) == Net(s.books.ledger, a, today)
      && multiset(s'.extensions)[(a, today)] == multiset(s.extensions)[(a, today)]
      && JobOf(s', a, today) == JobOf(s, a, today)
      && s'.books.debits[(a, today)] == s.books.debits[(a, today)]
  {
    hide Ok, Net, DebitOutcome;
    if k > 0 {
      RerunLeavesCharged(s, accounts, today, prices, answers, k - 1, a);
      var before := DailyRun(s, accounts, today, prices, answers, k - 1);
      ChargeAccountKeeps(before, accounts[k - 1].0, accounts[k - 1].1, today, prices[k - 1], answers[k - 1]);
      ChargeLeavesOthers(before, accounts[k - 1].0, accounts[k - 1].1, today, prices[k - 1], answers[k - 1], a);
    }
  }

  lemma ChargeLeavesOthers(s: Sys, a: Account, named: bool, d: Date, price: int, answer: Answer, c: Account)
    requires Ok(s) && Ok(ChargeAccount(s, a, named, d, price, answer)) && (c, d) in s.books.debits
    ensures var s' := ChargeAccount(s, a, named, d, price, answer);
      && (c, d) in s'.books.debits && s'.books.debits[(c, d)] == s.books.debits[(c, d)]
      && JobOf(s', c, d) == JobOf(s, c, d)
      && Net(s'.books.ledger, c, d) == Net(s.books.ledger, c, d)
      && multiset(s'.extensions)[(c, d)] == multiset(s.extensions)[(c, d)]
  {
    hide Ok, ChargeOk, ChargeAccount, Net;
    var s' := ChargeAccount(s, a, named, d, price, answer);
    EachChargeOk(s, c, d);
    EachChargeOk(s', c, d);
    ChargeKeepsRecord(s, a, named, d, price, answer, c);
    SameCharge(s, s', c, d);
  }

  predicate SameRecord(s: Sys, s': Sys, a: Account, d: Date) {
    && JobOf(s', a, d) == JobOf(s, a, d)
    && ((a, d) in s.books.debits ==> (a, d) in s'.books.debits && s'.books.debits[(a, d)] == s.books.debits[(a, d)])
  }

  lemma OthersKeepRecord(s: Sys, e: Event, a: Account, d: Date)
    requires (e.Charge? || e.Answered? || e.GiveBack?) && e.a != a
    ensures SameRecord(s, Apply(s, e), a, d)
  {
    hide Keys;
  }

  lemma ChargeKeepsRecord(s: Sys, a: Account, named: bool, d: Date, price: int, answer: Answer, c: Account)
    requires (c, d) in s.books.debits
    ensures SameRecord(s, ChargeAccount(s, a, named, d, price, answer), c, d)
  {
    hide Apply;
    if a != c {
      var ok := named && answer.Accepted?;
      var charged := Apply(s, Charge(a, d, price));
      OthersKeepRecord(s, Charge(a, d, price), c, d);
      OthersKeepRecord(charged, Answered(a, d, ok), c, d);
      OthersKeepRecord(Apply(charged, Answered(a, d, ok)), GiveBack(a, d, price), c, d);
    }
  }

  /** The record and stage of a charge decide its effect. */
  lemma SameCharge(s: Sys, s': Sys, a: Account, d: Date)
    requires ChargeOk(s, a, d) && ChargeOk(s', a, d) && JobOf(s', a, d) == JobOf(s, a, d)
    requires (a, d) in s.books.debits && (a, d) in s'.books.debits && s'.books.debits[(a, d)] == s.books.debits[(a, d)]
    ensures Net(s'.books.ledger, a, d) == Net(s.books.ledger, a, d)
    ensures multiset(s'.extensions)[(a, d)] == multiset(s.extensions)[(a, d)]
  {
    hide Net, Keys;
  }
}
