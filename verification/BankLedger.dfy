/** One user's bank data as values, and what each operation of the bank does to it. Amounts are in cents. */
module BankLedger {

  datatype AccountType = CHECKING | SAVINGS | BROKERAGE

  datatype TransactionType = DEPOSIT | WITHDRAWAL | TRANSFER

  /** An account is known by a number of its own, since a name can be given again after the account is removed. */
  datatype Account = Account(id: nat, name: string, kind: AccountType, balance: int, keys: seq<int>)

  datatype Tx = Tx(kind: TransactionType, amount: int, resulting: int, parent: nat)

  datatype Ledger = Ledger(
    total: int,
    checking: seq<string>,
    savings: seq<string>,
    brokerage: seq<string>,
    accounts: map<string, Account>,
    txs: seq<Tx>,
    nextId: nat)

  /** What a call comes to: a value, or the exception for a missing account. */
  datatype Outcome<T> = Returned(value: T) | NullPointer

  // ---- the operations ----

  function WithName(l: Ledger, kind: AccountType, name: string): Ledger {
    match kind
    case CHECKING => l.(checking := l.checking + [name])
    case SAVINGS => l.(savings := l.savings + [name])
    case BROKERAGE => l.(brokerage := l.brokerage + [name])
  }

  function AddAccount(l: Ledger, kind: AccountType, name: string, balance: int): Ledger {
    var funded := balance > 0;
    var account := Account(l.nextId, name, kind, balance, if funded then [|l.txs|] else []);
    WithName(l, kind, name).(
      total := l.total + balance,
      accounts := l.accounts[name := account],
      txs := if funded then l.txs + [Tx(DEPOSIT, balance, balance, l.nextId)] else l.txs,
      nextId := l.nextId + 1)
  }

  /** A list without the first occurrence of a name. */
  function RemoveFirst(list: seq<string>, name: string): seq<string> {
    if list == [] then [] else if list[0] == name then list[1..] else [list[0]] + RemoveFirst(list[1..], name)
  }

  function WithoutName(l: Ledger, name: string): Ledger {
    if name in l.checking then
      l.(checking := RemoveFirst(l.checking, name))
    else if name in l.savings then
      l.(savings := RemoveFirst(l.savings, name))
    else
      l.(brokerage := RemoveFirst(l.brokerage, name))
  }

  function RemoveAccount(l: Ledger, name: string): (Ledger, Outcome<bool>) {
    if name !in l.accounts then
      (l, NullPointer)
    else if l.accounts[name].balance > 0 then
      (l, Returned(false))
    else
      (WithoutName(l, name).(accounts := l.accounts - {name}), Returned(true))
  }

  /** Whether an account with this balance lets the transaction through. */
  predicate Accepts(balance: int, amount: int, kind: TransactionType) {
    match kind
    case DEPOSIT => true
    case WITHDRAWAL => amount <= balance
    case TRANSFER => amount >= 0 || -amount <= balance
  }

  /** What a transaction adds to the balance of its account. */
  function Change(amount: int, kind: TransactionType): int {
    if kind == WITHDRAWAL then -amount else amount
  }

  /** The transaction is booked: balance, total, the numbered list and the account's keys all move together. */
  function Book(l: Ledger, name: string, amount: int, kind: TransactionType): Ledger
    requires name in l.accounts
  {
    var a := l.accounts[name];
    var balance := a.balance + Change(amount, kind);
    l.(total := l.total + Change(amount, kind),
       accounts := l.accounts[name := a.(balance := balance, keys := a.keys + [|l.txs|])],
       txs := l.txs + [Tx(kind, amount, balance, a.id)])
  }

  function MakeTransaction(l: Ledger, name: string, amount: int, kind: TransactionType): (Ledger, Outcome<bool>) {
    if name !in l.accounts then
      (l, NullPointer)
    else if Accepts(l.accounts[name].balance, amount, kind) then
      (Book(l, name, amount, kind), Returned(true))
    else
      (l, Returned(false))
  }

  /** The result of the second leg is not looked at. */
  function MakeTransfer(l: Ledger, from: string, to: string, amount: int): (Ledger, Outcome<int>) {
    if from == to then
      (l, Returned(-1))
    else
      var (l1, first) := MakeTransaction(l, from, -amount, TRANSFER);
      if first == NullPointer then
        (l1, NullPointer)
      else if first == Returned(false) then
        (l1, Returned(1))
      else
        var (l2, second) := MakeTransaction(l1, to, amount, TRANSFER);
        (l2, if second == NullPointer then NullPointer else Returned(0))
  }

  /** Booking is done in two steps: the money is moved, then the record is written. */
  function Move(l: Ledger, name: string, change: int): Ledger
    requires name in l.accounts
  {
    var a := l.accounts[name];
    l.(total := l.total + change, accounts := l.accounts[name := a.(balance := a.balance + change)])
  }

  function Record(l: Ledger, name: string, amount: int, kind: TransactionType): Ledger
    requires name in l.accounts
  {
    var a := l.accounts[name];
    l.(accounts := l.accounts[name := a.(keys := a.keys + [|l.txs|])],
       txs := l.txs + [Tx(kind, amount, a.balance, a.id)])
  }

  lemma BookIs(l: Ledger, name: string, amount: int, kind: TransactionType)
    requires name in l.accounts
    ensures Book(l, name, amount, kind) == Record(Move(l, name, Change(amount, kind)), name, amount, kind)
  {
    var m := Move(l, name, Change(amount, kind));
    assert Record(m, name, amount, kind).accounts == Book(l, name, amount, kind).accounts;
  }

  lemma TransferFails(l: Ledger, from: string, to: string, amount: int, l1: Ledger, first: Outcome<bool>)
    requires from != to && (l1, first) == MakeTransaction(l, from, -amount, TRANSFER) && first != Returned(true)
    ensures (l1, if first == NullPointer then NullPointer else Returned(1)) == MakeTransfer(l, from, to, amount)
  {
  }

  lemma TransferEnds(l: Ledger, from: string, to: string, amount: int, l1: Ledger, l2: Ledger, second: Outcome<bool>)
    requires from != to && (l1, Returned(true)) == MakeTransaction(l, from, -amount, TRANSFER)
    requires (l2, second) == MakeTransaction(l1, to, amount, TRANSFER)
    ensures (l2, if second == NullPointer then NullPointer else Returned(0)) == MakeTransfer(l, from, to, amount)
  {
  }

  // ---- sums ----

  function Signed(t: Tx): int {
    Change(t.amount, t.kind)
  }

  /** The signed sum of all transactions ever stored. */
  function SumAll(txs: seq<Tx>): int {
    if txs == [] then 0 else SumAll(txs[..|txs| - 1]) + Signed(txs[|txs| - 1])
  }

  /** The signed sum of one account's transactions. */
  function SumOf(txs: seq<Tx>, id: nat): int {
    if txs == [] then
      0
    else
      SumOf(txs[..|txs| - 1], id) + if txs[|txs| - 1].parent == id then Signed(txs[|txs| - 1]) else 0
  }

  /** The numbers of one account's transactions, in order. */
  function KeysOf(txs: seq<Tx>, id: nat): seq<int> {
    if txs == [] then
      []
    else
      KeysOf(txs[..|txs| - 1], id) + if txs[|txs| - 1].parent == id then [|txs| - 1] else []
  }

  /** The sum of all live balances. */
  ghost function SumBalances(accounts: map<string, Account>): int
    decreases |accounts|
  {
    if accounts == map[] then
      0
    else
      var name :| name in accounts;
      accounts[name].balance + SumBalances(accounts - {name})
  }

  lemma {:induction false} SumWithout(accounts: map<string, Account>, name: string)
    requires name in accounts
    ensures SumBalances(accounts) == accounts[name].balance + SumBalances(accounts - {name})
    decreases |accounts|
  {
    var picked :| picked in accounts && SumBalances(accounts) ==
      accounts[picked].balance + SumBalances(accounts - {picked});
    if picked != name {
      SumWithout(accounts - {picked}, name);
      SumWithout(accounts - {name}, picked);
      assert accounts - {picked} - {name} == accounts - {name} - {picked};
    }
  }

  lemma SumWith(accounts: map<string, Account>, name: string, a: Account)
    ensures SumBalances(accounts[name := a]) ==
            SumBalances(accounts) + a.balance - if name in accounts then accounts[name].balance else 0
  {
    SumWithout(accounts[name := a], name);
    assert accounts[name := a] - {name} == accounts - {name};
    if name in accounts {
      SumWithout(accounts, name);
    } else {
      assert accounts - {name} == accounts;
    }
  }
}
