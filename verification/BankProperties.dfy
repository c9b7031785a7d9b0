/** What every run of the bank's operations keeps true. */
module BankProperties {
  import opened BankLedger

  // ---- the invariant ----

  /** The account agrees with the numbered transactions: its keys are their numbers, its balance is their sum. */
  ghost predicate AccountOk(a: Account, name: string, txs: seq<Tx>, nextId: nat) {
    && a.name == name
    && a.id < nextId
    && a.balance >= 0
    && a.keys == KeysOf(txs, a.id)
    && a.balance == SumOf(txs, a.id)
  }

  ghost predicate AccountsOk(accounts: map<string, Account>, txs: seq<Tx>, nextId: nat) {
    && (forall n :: n in accounts ==> AccountOk(accounts[n], n, txs, nextId))
    && (forall m, n :: m in accounts && n in accounts && m != n ==> accounts[m].id != accounts[n].id)
  }

  /** Every transaction recorded the balance that its account had right after it, removed accounts included. */
  ghost predicate TxsOk(txs: seq<Tx>, nextId: nat) {
    forall i :: 0 <= i < |txs| ==>
      txs[i].parent < nextId && txs[i].resulting == SumOf(txs[..i + 1], txs[i].parent)
  }

  ghost predicate NoDuplicates(list: seq<string>) {
    forall i, j :: 0 <= i < j < |list| ==> list[i] != list[j]
  }

  ghost predicate ListOk(list: seq<string>, accounts: map<string, Account>, kind: AccountType) {
    && NoDuplicates(list)
    && forall n :: n in list <==> n in accounts && accounts[n].kind == kind
  }

  ghost predicate ListsOk(l: Ledger) {
    && ListOk(l.checking, l.accounts, CHECKING)
    && ListOk(l.savings, l.accounts, SAVINGS)
    && ListOk(l.brokerage, l.accounts, BROKERAGE)
  }

  ghost predicate SumsOk(l: Ledger) {
    l.total == SumBalances(l.accounts) && l.total == SumAll(l.txs)
  }

  ghost predicate Ok(l: Ledger) {
    && AccountsOk(l.accounts, l.txs, l.nextId)
    && TxsOk(l.txs, l.nextId)
    && ListsOk(l)
    && SumsOk(l)
  }

  const NewUser := Ledger(0, [], [], [], map[], [], 0)

  // ---- one more transaction ----

  lemma KeysOfAppend(txs: seq<Tx>, t: Tx, id: nat)
    ensures KeysOf(txs + [t], id) == KeysOf(txs, id) + if t.parent == id then [|txs|] else []
    ensures SumOf(txs + [t], id) == SumOf(txs, id) + if t.parent == id then Signed(t) else 0
    ensures SumAll(txs + [t]) == SumAll(txs) + Signed(t)
  {
    assert (txs + [t])[..|txs|] == txs;
  }

  lemma AppendKeepsTxs(txs: seq<Tx>, nextId: nat, t: Tx)
    requires TxsOk(txs, nextId) && t.parent < nextId && t.resulting == SumOf(txs, t.parent) + Signed(t)
    ensures TxsOk(txs + [t], nextId)
  {
    KeysOfAppend(txs, t, t.parent);
    var more := txs + [t];
    forall i | 0 <= i < |more|
      ensures more[i].parent < nextId && more[i].resulting == SumOf(more[..i + 1], more[i].parent)
    {
      if i < |txs| {
        assert more[..i + 1] == txs[..i + 1];
      } else {
        assert more[..i + 1] == more;
      }
    }
  }

  lemma {:induction false} NothingOf(txs: seq<Tx>, id: nat)
    requires forall i :: 0 <= i < |txs| ==> txs[i].parent != id
    ensures KeysOf(txs, id) == [] && SumOf(txs, id) == 0
  {
    if txs != [] {
      NothingOf(txs[..|txs| - 1], id);
    }
  }

  lemma BookKeepsAccounts(l: Ledger, name: string, amount: int, kind: TransactionType)
    requires AccountsOk(l.accounts, l.txs, l.nextId) && name in l.accounts
    requires l.accounts[name].balance + Change(amount, kind) >= 0
    ensures AccountsOk(Book(l, name, amount, kind).accounts, Book(l, name, amount, kind).txs, l.nextId)
  {
    var m := Book(l, name, amount, kind);
    var t := m.txs[|l.txs|];
    forall n | n in m.accounts ensures AccountOk(m.accounts[n], n, m.txs, l.nextId) {
      KeysOfAppend(l.txs, t, l.accounts[n].id);
      assert AccountOk(l.accounts[n], n, l.txs, l.nextId);
    }
  }

  lemma BookKeepsOk(l: Ledger, name: string, amount: int, kind: TransactionType)
    requires Ok(l) && name in l.accounts && l.accounts[name].balance + Change(amount, kind) >= 0
    ensures Ok(Book(l, name, amount, kind))
    ensures Book(l, name, amount, kind).total == l.total + Change(amount, kind)
  {
    var m := Book(l, name, amount, kind);
    var t := m.txs[|l.txs|];
    assert AccountOk(l.accounts[name], name, l.txs, l.nextId);
    BookKeepsAccounts(l, name, amount, kind);
    AppendKeepsTxs(l.txs, l.nextId, t);
    KeysOfAppend(l.txs, t, t.parent);
    SumWith(l.accounts, name, m.accounts[name]);
  }

  lemma TransactKeepsOk(l: Ledger, name: string, amount: int, kind: TransactionType)
    requires Ok(l) && name in l.accounts && (kind != TRANSFER ==> amount >= 0)
    ensures Ok(MakeTransaction(l, name, amount, kind).0)
  {
    assert AccountOk(l.accounts[name], name, l.txs, l.nextId);
    if Accepts(l.accounts[name].balance, amount, kind) {
      BookKeepsOk(l, name, amount, kind);
    }
  }

  // ---- opening and closing ----

  /** A new account's first deposit, if it has one, is the only transaction under its number. */
  lemma NewAccountOk(txs: seq<Tx>, id: nat, name: string, kind: AccountType, balance: int)
    requires balance >= 0 && forall i :: 0 <= i < |txs| ==> txs[i].parent != id
    ensures var first := Tx(DEPOSIT, balance, balance, id);
            && AccountOk(Account(id, name, kind, balance, []), name, txs, id + 1) == (balance == 0)
            && AccountOk(Account(id, name, kind, balance, [|txs|]), name, txs + [first], id + 1)
  {
    NothingOf(txs, id);
    KeysOfAppend(txs, Tx(DEPOSIT, balance, balance, id), id);
  }

  lemma OldAccountOk(a: Account, name: string, txs: seq<Tx>, id: nat, t: Tx)
    requires AccountOk(a, name, txs, id) && t.parent == id
    ensures AccountOk(a, name, txs, id + 1) && AccountOk(a, name, txs + [t], id + 1)
  {
    KeysOfAppend(txs, t, a.id);
  }

  lemma OpenKeepsAccounts(l: Ledger, kind: AccountType, name: string, balance: int)
    requires AccountsOk(l.accounts, l.txs, l.nextId) && TxsOk(l.txs, l.nextId) && name !in l.accounts && balance >= 0
    ensures var m := AddAccount(l, kind, name, balance);
            AccountsOk(m.accounts, m.txs, m.nextId)
  {
    var m := AddAccount(l, kind, name, balance);
    NewAccountOk(l.txs, l.nextId, name, kind, balance);
    forall n | n in m.accounts ensures AccountOk(m.accounts[n], n, m.txs, m.nextId) {
      if n != name {
        OldAccountOk(l.accounts[n], n, l.txs, l.nextId, Tx(DEPOSIT, balance, balance, l.nextId));
      }
    }
  }

  lemma OpenKeepsTxs(l: Ledger, kind: AccountType, name: string, balance: int)
    requires TxsOk(l.txs, l.nextId)
    ensures var m := AddAccount(l, kind, name, balance);
            TxsOk(m.txs, m.nextId)
  {
    NothingOf(l.txs, l.nextId);
    assert TxsOk(l.txs, l.nextId + 1);
    AppendKeepsTxs(l.txs, l.nextId + 1, Tx(DEPOSIT, balance, balance, l.nextId));
  }

  lemma OpenKeepsList(list: seq<string>, accounts: map<string, Account>, kind: AccountType, name: string, a: Account)
    requires ListOk(list, accounts, kind) && name !in accounts
    ensures ListOk(if a.kind == kind then list + [name] else list, accounts[name := a], kind)
  {
    assert name !in list;
  }

  lemma OpenKeepsLists(l: Ledger, kind: AccountType, name: string, balance: int)
    requires ListsOk(l) && name !in l.accounts
    ensures ListsOk(AddAccount(l, kind, name, balance))
  {
    var a := AddAccount(l, kind, name, balance).accounts[name];
    OpenKeepsList(l.checking, l.accounts, CHECKING, name, a);
    OpenKeepsList(l.savings, l.accounts, SAVINGS, name, a);
    OpenKeepsList(l.brokerage, l.accounts, BROKERAGE, name, a);
  }

  lemma OpenKeepsSums(l: Ledger, kind: AccountType, name: string, balance: int)
    requires SumsOk(l) && name !in l.accounts && balance >= 0
    ensures SumsOk(AddAccount(l, kind, name, balance))
  {
    SumWith(l.accounts, name, AddAccount(l, kind, name, balance).accounts[name]);
    KeysOfAppend(l.txs, Tx(DEPOSIT, balance, balance, l.nextId), l.nextId);
  }

  lemma OpenKeepsOk(l: Ledger, kind: AccountType, name: string, balance: int)
    requires Ok(l) && name !in l.accounts && balance >= 0
    ensures Ok(AddAccount(l, kind, name, balance))
  {
    OpenKeepsAccounts(l, kind, name, balance);
    OpenKeepsTxs(l, kind, name, balance);
    OpenKeepsLists(l, kind, name, balance);
    OpenKeepsSums(l, kind, name, balance);
  }

  lemma {:induction false} RemoveFirstIs(list: seq<string>, name: string)
    requires NoDuplicates(list)
    ensures NoDuplicates(RemoveFirst(list, name))
    ensures forall n :: n in RemoveFirst(list, name) <==> n in list && n != name
  {
    if list != [] {
      var rest := list[1..];
      assert forall n :: n in list <==> n == list[0] || n in rest;
      assert list[0] !in rest;
      if list[0] != name {
        RemoveFirstIs(rest, name);
      }
    }
  }

  lemma CloseKeepsList(list: seq<string>, accounts: map<string, Account>, kind: AccountType, name: string)
    requires ListOk(list, accounts, kind) && name in accounts
    ensures ListOk(if accounts[name].kind == kind then RemoveFirst(list, name) else list, accounts - {name}, kind)
  {
    RemoveFirstIs(list, name);
  }

  lemma CloseKeepsOk(l: Ledger, name: string)
    requires Ok(l) && name in l.accounts
    ensures Ok(RemoveAccount(l, name).0)
    ensures RemoveAccount(l, name).0.total == l.total
  {
    assert AccountOk(l.accounts[name], name, l.txs, l.nextId);
    CloseKeepsList(l.checking, l.accounts, CHECKING, name);
    CloseKeepsList(l.savings, l.accounts, SAVINGS, name);
    CloseKeepsList(l.brokerage, l.accounts, BROKERAGE, name);
    SumWithout(l.accounts, name);
  }

  // ---- single calls: exactly when they keep the books right ----

  /** Opening keeps the books right exactly for a new name and an opening balance that is not negative. */
  lemma OpenKeepsOkIff(l: Ledger, kind: AccountType, name: string, balance: int)
    requires Ok(l)
    ensures Ok(AddAccount(l, kind, name, balance)) <==> name !in l.accounts && balance >= 0
  {
    var m := AddAccount(l, kind, name, balance);
    if name !in l.accounts && balance >= 0 {
      OpenKeepsOk(l, kind, name, balance);
    } else if balance < 0 {
      assert !AccountOk(m.accounts[name], name, m.txs, m.nextId);
    } else {
      ReopenBreaksLists(l, kind, name, balance);
    }
  }

  lemma ListRejects(list: seq<string>, accounts: map<string, Account>, kind: AccountType, name: string)
    requires name in list && name in accounts
    requires accounts[name].kind != kind || exists i, j :: 0 <= i < j < |list| && list[i] == list[j]
    ensures !ListOk(list, accounts, kind)
  {
  }

  lemma ReopenBreaksLists(l: Ledger, kind: AccountType, name: string, balance: int)
    requires ListsOk(l) && name in l.accounts
    ensures !ListsOk(AddAccount(l, kind, name, balance))
  {
    var m := AddAccount(l, kind, name, balance);
    var was := l.accounts[name].kind;
    var list := if was == CHECKING then l.checking else if was == SAVINGS then l.savings else l.brokerage;
    assert ListOk(list, l.accounts, was);
    var i :| 0 <= i < |list| && list[i] == name;
    if was == kind {
      var more := list + [name];
      assert more[i] == more[|list|];
      ListRejects(more, m.accounts, kind, name);
    } else {
      ListRejects(list, m.accounts, was, name);
    }
  }

  /** A transaction keeps the books right exactly when it is refused or leaves a balance that is not negative. */
  lemma TransactKeepsOkIff(l: Ledger, name: string, amount: int, kind: TransactionType)
    requires Ok(l) && name in l.accounts
    ensures Ok(MakeTransaction(l, name, amount, kind).0) <==>
            (Accepts(l.accounts[name].balance, amount, kind) ==>
               l.accounts[name].balance + Change(amount, kind) >= 0)
  {
    var m := MakeTransaction(l, name, amount, kind).0;
    if Accepts(l.accounts[name].balance, amount, kind) {
      if l.accounts[name].balance + Change(amount, kind) >= 0 {
        BookKeepsOk(l, name, amount, kind);
      } else {
        assert !AccountOk(m.accounts[name], name, m.txs, m.nextId);
      }
    }
  }

  // ---- transfers ----

  /**
   Between existing accounts and for an amount that is not negative a transfer is all or nothing: it succeeds exactly
   when the accounts differ and the first has the money, and then moves exactly the amount and writes one record
   in each ledger; otherwise it changes nothing at all.
   */
  lemma TransferIsAtomic(l: Ledger, from: string, to: string, amount: int)
    requires Ok(l) && from in l.accounts && to in l.accounts && amount >= 0
    ensures var (m, r) := MakeTransfer(l, from, to, amount);
            var a, b := l.accounts[from], l.accounts[to];
            var n := |l.txs|;
            && (r == Returned(0) <==> from != to && amount <= a.balance)
            && (r == Returned(0) ==>
                  m == l.(accounts := l.accounts[from := a.(balance := a.balance - amount, keys := a.keys + [n])]
                                                [to := b.(balance := b.balance + amount, keys := b.keys + [n + 1])],
                          txs := l.txs + [Tx(TRANSFER, -amount, a.balance - amount, a.id),
                                          Tx(TRANSFER, amount, b.balance + amount, b.id)]))
            && (r != Returned(0) ==> m == l && r == Returned(if from == to then -1 else 1))
  {
    assert AccountOk(l.accounts[from], from, l.txs, l.nextId);
    if from != to && amount <= l.accounts[from].balance {
      var l1 := Book(l, from, -amount, TRANSFER);
      var l2 := Book(l1, to, amount, TRANSFER);
      assert l2.txs == l.txs + [l1.txs[|l.txs|], l2.txs[|l.txs| + 1]];
    }
  }

  lemma LegKeepsOk(l: Ledger, name: string, amount: int)
    requires Ok(l)
    ensures Ok(MakeTransaction(l, name, amount, TRANSFER).0)
  {
    if name in l.accounts {
      TransactKeepsOk(l, name, amount, TRANSFER);
    }
  }

  lemma TransferLegs(l: Ledger, from: string, to: string, amount: int)
    ensures var m := MakeTransfer(l, from, to, amount).0;
            var l1 := MakeTransaction(l, from, -amount, TRANSFER).0;
            m == l || m == l1 || m == MakeTransaction(l1, to, amount, TRANSFER).0
  {
  }

  lemma TransferKeepsOk(l: Ledger, from: string, to: string, amount: int)
    requires Ok(l)
    ensures Ok(MakeTransfer(l, from, to, amount).0)
  {
    LegKeepsOk(l, from, -amount);
    LegKeepsOk(MakeTransaction(l, from, -amount, TRANSFER).0, to, amount);
    TransferLegs(l, from, to, amount);
  }

  /**
   For any names and any amount, a transfer leaves the total alone exactly when it does not get past its first leg,
   moves nothing, or its second leg goes through. The second leg is refused only to a negative amount.
   */
  lemma TransferConservesIff(l: Ledger, from: string, to: string, amount: int)
    requires Ok(l)
    ensures MakeTransfer(l, from, to, amount).0.total == l.total <==>
            || from == to
            || from !in l.accounts
            || !Accepts(l.accounts[from].balance, -amount, TRANSFER)
            || amount == 0
            || (to in l.accounts && Accepts(l.accounts[to].balance, amount, TRANSFER))
    ensures amount >= 0 && to in l.accounts ==> Accepts(l.accounts[to].balance, amount, TRANSFER)
  {
    if from != to && from in l.accounts && Accepts(l.accounts[from].balance, -amount, TRANSFER) {
      var l1 := Book(l, from, -amount, TRANSFER);
      assert to in l1.accounts <==> to in l.accounts;
      assert to in l.accounts ==> l1.accounts[to] == l.accounts[to];
    }
  }

  /** A negative amount can make money: the first account is credited and the debit of the second is refused. */
  lemma NegativeTransferMakesMoney()
    ensures var l := AddAccount(AddAccount(NewUser, CHECKING, "a", 0), SAVINGS, "b", 0);
            var (m, r) := MakeTransfer(l, "a", "b", -100);
            Ok(l) && r == Returned(0) && m.total == l.total + 100
  {
    NewUserOk();
    OpenKeepsOk(NewUser, CHECKING, "a", 0);
    OpenKeepsOk(AddAccount(NewUser, CHECKING, "a", 0), SAVINGS, "b", 0);
    var l := AddAccount(AddAccount(NewUser, CHECKING, "a", 0), SAVINGS, "b", 0);
    assert "a"[0] != "b"[0];
    assert l.accounts["a"].balance == 0 && l.accounts["b"].balance == 0;
  }

  lemma NewUserOk()
    ensures Ok(NewUser)
  {
  }

  // ---- runs ----

  datatype Op =
    | Open(kind: AccountType, name: string, balance: int)
    | Close(name: string)
    | Transact(name: string, amount: int, tx: TransactionType)
    | Transfer(from: string, to: string, amount: int)

  /** The calls of the bank's pages, and beyond them a single leg of a transfer, of any amount. */
  predicate Allowed(l: Ledger, op: Op) {
    match op
    case Open(_, name, balance) => name !in l.accounts && balance >= 0
    case Close(name) => name in l.accounts
    case Transact(name, amount, tx) => name in l.accounts && (tx != TRANSFER ==> amount >= 0)
    case Transfer(from, to, amount) => from in l.accounts && to in l.accounts && amount >= 0
  }

  function Apply(l: Ledger, op: Op): Ledger {
    match op
    case Open(kind, name, balance) => AddAccount(l, kind, name, balance)
    case Close(name) => RemoveAccount(l, name).0
    case Transact(name, amount, tx) => MakeTransaction(l, name, amount, tx).0
    case Transfer(from, to, amount) => MakeTransfer(l, from, to, amount).0
  }

  /** The money an operation brings into the bank. */
  function Inflow(l: Ledger, op: Op): int {
    match op
    case Open(_, _, balance) => balance
    case Transact(name, amount, tx) =>
      if name in l.accounts && Accepts(l.accounts[name].balance, amount, tx) then
        if tx == WITHDRAWAL then -amount else amount
      else
        0
    case _ => 0
  }

  ghost predicate AllAllowed(l: Ledger, ops: seq<Op>)
    decreases |ops|
  {
    ops == [] || (Allowed(l, ops[0]) && AllAllowed(Apply(l, ops[0]), ops[1..]))
  }

  function ApplyAll(l: Ledger, ops: seq<Op>): Ledger
    decreases |ops|
  {
    if ops == [] then l else ApplyAll(Apply(l, ops[0]), ops[1..])
  }

  /** Opening balances, plus deposits, less the withdrawals that were let through. */
  function TotalInflow(l: Ledger, ops: seq<Op>): int
    decreases |ops|
  {
    if ops == [] then 0 else Inflow(l, ops[0]) + TotalInflow(Apply(l, ops[0]), ops[1..])
  }

  lemma ApplyKeepsOk(l: Ledger, op: Op)
    requires Ok(l) && Allowed(l, op)
    ensures Ok(Apply(l, op))
    ensures Apply(l, op).total == l.total + Inflow(l, op)
  {
    match op
    case Open(kind, name, balance) => OpenKeepsOk(l, kind, name, balance);
    case Close(name) => CloseKeepsOk(l, name);
    case Transact(name, amount, tx) => TransactKeepsOk(l, name, amount, tx);
    case Transfer(from, to, amount) =>
      TransferKeepsOk(l, from, to, amount);
      TransferConservesIff(l, from, to, amount);
  }

  lemma {:induction false} RunKeepsOk(l: Ledger, ops: seq<Op>)
    requires Ok(l) && AllAllowed(l, ops)
    ensures Ok(ApplyAll(l, ops))
    ensures ApplyAll(l, ops).total == l.total + TotalInflow(l, ops)
    decreases |ops|
  {
    if ops != [] {
      ApplyKeepsOk(l, ops[0]);
      RunKeepsOk(Apply(l, ops[0]), ops[1..]);
    }
  }

  /**
   Over every run the running total, the live balances, all transactions ever stored (those of removed accounts
   included) and the money that came in less the money that went out are one and the same number.
   */
  lemma Conservation(ops: seq<Op>)
    requires AllAllowed(NewUser, ops)
    ensures var l := ApplyAll(NewUser, ops);
            && l.total == SumBalances(l.accounts)
            && l.total == SumAll(l.txs)
            && l.total == TotalInflow(NewUser, ops)
  {
    NewUserOk();
    RunKeepsOk(NewUser, ops);
  }

  // ---- replay ----

  ghost predicate KeysIn(keys: seq<int>, n: nat) {
    forall i :: 0 <= i < |keys| ==> 0 <= keys[i] < n
  }

  /** The sum of the first k transactions that a list of keys names. */
  ghost function Running(txs: seq<Tx>, keys: seq<int>, k: nat): int
    requires k <= |keys| && KeysIn(keys, |txs|)
  {
    if k == 0 then 0 else Running(txs, keys, k - 1) + Signed(txs[keys[k - 1]])
  }

  /** The keys are the numbers of exactly the account's transactions, in increasing order. */
  ghost predicate KeysName(txs: seq<Tx>, keys: seq<int>, id: nat) {
    && KeysIn(keys, |txs|)
    && (forall i :: 0 <= i < |keys| ==> txs[keys[i]].parent == id)
    && (forall i, j :: 0 <= i < j < |keys| ==> keys[i] < keys[j])
    && (forall n :: 0 <= n < |txs| && txs[n].parent == id ==> n in keys)
  }

  lemma {:induction false} KeysAre(txs: seq<Tx>, id: nat)
    ensures KeysName(txs, KeysOf(txs, id), id)
  {
    if txs != [] {
      var shorter := txs[..|txs| - 1];
      KeysAre(shorter, id);
      var keys, fewer := KeysOf(txs, id), KeysOf(shorter, id);
      assert forall n :: 0 <= n < |shorter| && txs[n].parent == id ==> shorter[n].parent == id && n in fewer;
      if txs[|txs| - 1].parent == id {
        assert keys[|fewer|] == |txs| - 1;
      }
    }
  }

  lemma {:induction false} RunningOfPrefix(txs: seq<Tx>, more: seq<Tx>, keys: seq<int>, others: seq<int>, k: nat)
    requires txs <= more && keys <= others && k <= |keys|
    requires KeysIn(keys, |txs|) && KeysIn(others, |more|)
    ensures Running(txs, keys, k) == Running(more, others, k)
  {
    if k > 0 {
      RunningOfPrefix(txs, more, keys, others, k - 1);
    }
  }

  lemma {:induction false} RunningIsSum(txs: seq<Tx>, id: nat)
    ensures KeysIn(KeysOf(txs, id), |txs|)
    ensures Running(txs, KeysOf(txs, id), |KeysOf(txs, id)|) == SumOf(txs, id)
  {
    KeysAre(txs, id);
    if txs != [] {
      var shorter := txs[..|txs| - 1];
      var keys, fewer := KeysOf(txs, id), KeysOf(shorter, id);
      RunningIsSum(shorter, id);
      RunningOfPrefix(shorter, txs, fewer, keys, |fewer|);
    }
  }

  /** The keys of the transactions up to the k-th key are the first k keys. */
  lemma {:induction false} KeysOfPrefix(txs: seq<Tx>, id: nat, k: nat)
    requires 0 < k <= |KeysOf(txs, id)|
    ensures 0 <= KeysOf(txs, id)[k - 1] < |txs|
    ensures KeysOf(txs[..KeysOf(txs, id)[k - 1] + 1], id) == KeysOf(txs, id)[..k]
  {
    KeysAre(txs, id);
    var shorter := txs[..|txs| - 1];
    var keys, fewer := KeysOf(txs, id), KeysOf(shorter, id);
    if k <= |fewer| {
      KeysOfPrefix(shorter, id, k);
      assert shorter[..keys[k - 1] + 1] == txs[..keys[k - 1] + 1];
      assert fewer[..k] == keys[..k];
    } else {
      assert txs[..|txs|] == txs && keys[..k] == keys;
    }
  }

  /** Adding up an account's transactions in key order gives, at each key, the account's sum up to that transaction. */
  lemma RunningAtKey(txs: seq<Tx>, id: nat, k: nat)
    requires 0 < k <= |KeysOf(txs, id)|
    ensures KeysIn(KeysOf(txs, id), |txs|)
    ensures Running(txs, KeysOf(txs, id), k) == SumOf(txs[..KeysOf(txs, id)[k - 1] + 1], id)
  {
    KeysAre(txs, id);
    KeysOfPrefix(txs, id, k);
    var keys := KeysOf(txs, id);
    var upTo := txs[..keys[k - 1] + 1];
    RunningIsSum(upTo, id);
    RunningOfPrefix(upTo, txs, keys[..k], keys, k);
  }

  lemma RecordedIsRunning(txs: seq<Tx>, nextId: nat, id: nat, k: nat)
    requires TxsOk(txs, nextId) && k < |KeysOf(txs, id)|
    ensures KeysIn(KeysOf(txs, id), |txs|)
    ensures txs[KeysOf(txs, id)[k]].resulting == Running(txs, KeysOf(txs, id), k + 1)
  {
    KeysAre(txs, id);
    RunningAtKey(txs, id, k + 1);
    assert txs[KeysOf(txs, id)[k]].parent == id;
  }

  lemma OkReplays(l: Ledger, id: nat, keys: seq<int>)
    requires TxsOk(l.txs, l.nextId) && keys == KeysOf(l.txs, id)
    ensures KeysName(l.txs, keys, id)
    ensures forall k :: 0 <= k < |keys| ==> l.txs[keys[k]].resulting == Running(l.txs, keys, k + 1)
    ensures Running(l.txs, keys, |keys|) == SumOf(l.txs, id)
  {
    KeysAre(l.txs, id);
    RunningIsSum(l.txs, id);
    forall k | 0 <= k < |keys| ensures l.txs[keys[k]].resulting == Running(l.txs, keys, k + 1) {
      RecordedIsRunning(l.txs, l.nextId, id, k);
    }
  }

  /** With the books right, a live account's keys are its transactions' keys, and each recorded the running sum. */
  lemma LiveReplays(l: Ledger, name: string)
    requires Ok(l) && name in l.accounts
    ensures var a := l.accounts[name];
            && a.keys == KeysOf(l.txs, a.id) && KeysIn(a.keys, |l.txs|)
            && forall k :: 0 <= k < |a.keys| ==> l.txs[a.keys[k]].resulting == Running(l.txs, a.keys, k + 1)
  {
    var a := l.accounts[name];
    assert AccountOk(a, name, l.txs, l.nextId);
    OkReplays(l, a.id, a.keys);
  }

  // removed accounts

  ghost predicate HasId(accounts: map<string, Account>, id: nat) {
    exists n :: n in accounts && accounts[n].id == id
  }

  /** The transactions of a removed account add up to nothing. */
  ghost predicate ClosedOk(accounts: map<string, Account>, txs: seq<Tx>, nextId: nat) {
    forall id: nat :: id < nextId && !HasId(accounts, id) ==> SumOf(txs, id) == 0
  }

  lemma OpenKeepsClosed(l: Ledger, kind: AccountType, name: string, balance: int)
    requires ClosedOk(l.accounts, l.txs, l.nextId) && name !in l.accounts
    ensures var m := AddAccount(l, kind, name, balance);
            ClosedOk(m.accounts, m.txs, m.nextId)
  {
    var m := AddAccount(l, kind, name, balance);
    forall id: nat | id < m.nextId && !HasId(m.accounts, id) ensures SumOf(m.txs, id) == 0 {
      assert m.accounts[name].id == l.nextId != id;
      assert forall n :: n in l.accounts ==> m.accounts[n] == l.accounts[n];
      assert !HasId(l.accounts, id);
      KeysOfAppend(l.txs, Tx(DEPOSIT, balance, balance, l.nextId), id);
    }
  }

  lemma BookKeepsClosed(l: Ledger, name: string, amount: int, kind: TransactionType)
    requires ClosedOk(l.accounts, l.txs, l.nextId) && name in l.accounts
    ensures var m := Book(l, name, amount, kind);
            ClosedOk(m.accounts, m.txs, m.nextId)
  {
    var m := Book(l, name, amount, kind);
    forall id: nat | id < m.nextId && !HasId(m.accounts, id) ensures SumOf(m.txs, id) == 0 {
      assert forall n :: n in l.accounts ==> m.accounts[n].id == l.accounts[n].id;
      assert !HasId(l.accounts, id);
      KeysOfAppend(l.txs, m.txs[|l.txs|], id);
    }
  }

  lemma CloseKeepsClosed(l: Ledger, name: string)
    requires Ok(l) && ClosedOk(l.accounts, l.txs, l.nextId) && name in l.accounts
    ensures var m := RemoveAccount(l, name).0;
            ClosedOk(m.accounts, m.txs, m.nextId)
  {
    var m := RemoveAccount(l, name).0;
    assert AccountOk(l.accounts[name], name, l.txs, l.nextId);
    forall id: nat | id < m.nextId && !HasId(m.accounts, id) ensures SumOf(m.txs, id) == 0 {
      if HasId(l.accounts, id) {
        var n :| n in l.accounts && l.accounts[n].id == id;
        if n != name || l.accounts[name].balance > 0 {
          StillHasId(l, name, n);
        }
      }
    }
  }

  lemma StillHasId(l: Ledger, name: string, n: string)
    requires name in l.accounts && n in l.accounts && (n != name || l.accounts[name].balance > 0)
    ensures HasId(RemoveAccount(l, name).0.accounts, l.accounts[n].id)
  {
    assert RemoveAccount(l, name).0.accounts[n].id == l.accounts[n].id;
  }

  lemma TransferKeepsClosed(l: Ledger, from: string, to: string, amount: int)
    requires ClosedOk(l.accounts, l.txs, l.nextId)
    ensures var m := MakeTransfer(l, from, to, amount).0;
            ClosedOk(m.accounts, m.txs, m.nextId)
  {
    if from != to && from in l.accounts && Accepts(l.accounts[from].balance, -amount, TRANSFER) {
      var m := Book(l, from, -amount, TRANSFER);
      BookKeepsClosed(l, from, -amount, TRANSFER);
      if to in m.accounts {
        BookKeepsClosed(m, to, amount, TRANSFER);
      }
    }
  }

  lemma ApplyKeepsClosed(l: Ledger, op: Op)
    requires Ok(l) && ClosedOk(l.accounts, l.txs, l.nextId) && Allowed(l, op)
    ensures var m := Apply(l, op);
            ClosedOk(m.accounts, m.txs, m.nextId)
  {
    match op
    case Open(kind, name, balance) => OpenKeepsClosed(l, kind, name, balance);
    case Close(name) => CloseKeepsClosed(l, name);
    case Transact(name, amount, tx) => BookKeepsClosed(l, name, amount, tx);
    case Transfer(from, to, amount) => TransferKeepsClosed(l, from, to, amount);
  }

  lemma {:induction false} RunKeepsClosed(l: Ledger, ops: seq<Op>)
    requires Ok(l) && ClosedOk(l.accounts, l.txs, l.nextId) && AllAllowed(l, ops)
    ensures var m := ApplyAll(l, ops);
            ClosedOk(m.accounts, m.txs, m.nextId)
    decreases |ops|
  {
    if ops != [] {
      ApplyKeepsOk(l, ops[0]);
      ApplyKeepsClosed(l, ops[0]);
      RunKeepsClosed(Apply(l, ops[0]), ops[1..]);
    }
  }

  /**
   Over every run, the ledger of each account replays, also after it was removed: its keys are strictly increasing and
   name exactly the transactions made under it, and adding those up in order from 0 gives at each one the balance it
   recorded. At the end stands the balance of a live account, and 0 for a removed one.
   */
  lemma LedgerReplay(ops: seq<Op>, id: nat)
    requires AllAllowed(NewUser, ops) && id < ApplyAll(NewUser, ops).nextId
    ensures var l := ApplyAll(NewUser, ops);
            var keys := KeysOf(l.txs, id);
            && KeysName(l.txs, keys, id)
            && (forall k :: 0 <= k < |keys| ==> l.txs[keys[k]].resulting == Running(l.txs, keys, k + 1))
            && (forall n :: n in l.accounts && l.accounts[n].id == id ==>
                  l.accounts[n].keys == keys && Running(l.txs, keys, |keys|) == l.accounts[n].balance)
            && (!HasId(l.accounts, id) ==> Running(l.txs, keys, |keys|) == 0)
  {
    NewUserOk();
    RunKeepsOk(NewUser, ops);
    RunKeepsClosed(NewUser, ops);
    var l := ApplyAll(NewUser, ops);
    OkReplays(l, id, KeysOf(l.txs, id));
    assert forall n :: n in l.accounts ==> AccountOk(l.accounts[n], n, l.txs, l.nextId);
  }

  // ---- index agreement ----

  /** Over every run the three lists are free of duplicates and together name exactly the accounts, each by its type. */
  lemma IndexAgreement(ops: seq<Op>)
    requires AllAllowed(NewUser, ops)
    ensures var l := ApplyAll(NewUser, ops);
            && NoDuplicates(l.checking + l.savings + l.brokerage)
            && (forall n :: n in l.accounts <==> n in l.checking + l.savings + l.brokerage)
            && (forall n :: n in l.accounts ==>
                  && l.accounts[n].name == n
                  && (n in l.checking <==> l.accounts[n].kind == CHECKING)
                  && (n in l.savings <==> l.accounts[n].kind == SAVINGS)
                  && (n in l.brokerage <==> l.accounts[n].kind == BROKERAGE))
  {
    NewUserOk();
    RunKeepsOk(NewUser, ops);
    var l := ApplyAll(NewUser, ops);
    ListsAreDisjoint(l);
    assert forall n :: n in l.accounts ==> AccountOk(l.accounts[n], n, l.txs, l.nextId);
  }

  lemma ListsAreDisjoint(l: Ledger)
    requires ListsOk(l)
    ensures NoDuplicates(l.checking + l.savings + l.brokerage)
    ensures forall n :: n in l.accounts <==> n in l.checking + l.savings + l.brokerage
  {
    var two := l.checking + l.savings;
    assert NoDuplicates(two) by {
      NoDuplicatesOfJoin(l.checking, l.savings);
    }
    NoDuplicatesOfJoin(two, l.brokerage);
  }

  lemma NoDuplicatesOfJoin(xs: seq<string>, ys: seq<string>)
    requires NoDuplicates(xs) && NoDuplicates(ys) && forall n :: n in xs ==> n !in ys
    ensures NoDuplicates(xs + ys)
  {
    var all := xs + ys;
    forall i, j | 0 <= i < j < |all| ensures all[i] != all[j] {
      if i < |xs| <= j {
        assert all[i] in xs && all[j] == ys[j - |xs|] && ys[j - |xs|] in ys;
      }
    }
  }
}
