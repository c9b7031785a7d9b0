/** The bank's objects: a user, the accounts that point back to it, and the transactions that point back to them. */
module BankProgram {
  import opened BankLedger
  import opened BankProperties

  class Transaction {
    const kind: TransactionType
    const amount: int
    const resultingBalance: int
    const parent: BankAccount

    /** The balance is taken from the account at this moment, so the account must have been updated before. */
    constructor (kind: TransactionType, amount: int, parent: BankAccount)
      ensures this.kind == kind && this.amount == amount && this.parent == parent
      ensures resultingBalance == parent.balance
    {
      this.kind, this.amount, this.parent := kind, amount, parent;
      resultingBalance := parent.balance;
    }

    ghost function Value(): Tx {
      Tx(kind, amount, resultingBalance, parent.id)
    }
  }

  class BankAccount {
    ghost const id: nat
    const name: string
    const kind: AccountType
    var balance: int
    var transactionKeys: seq<int>
    const owner: User

    ghost function Value(): Account
      reads this
    {
      Account(id, name, kind, balance, transactionKeys)
    }

    /** Whether the account is the one its owner finds under its name. */
    ghost predicate Live()
      reads owner
    {
      name in owner.bankAccounts && owner.bankAccounts[name] == this
    }

    constructor (name: string, kind: AccountType, balance: int, owner: User, ghost id: nat)
      modifies owner`allTransactions, owner`numTotalTransactions
      ensures this.name == name && this.kind == kind && this.owner == owner && this.id == id
      ensures this.balance == balance
      ensures
        if balance > 0 then
          && transactionKeys == [old(owner.numTotalTransactions)]
          && owner.numTotalTransactions == old(owner.numTotalTransactions) + 1
          && old(owner.numTotalTransactions) in owner.allTransactions
          && var t := owner.allTransactions[old(owner.numTotalTransactions)];
          && t.parent == this && t.kind == DEPOSIT && t.amount == balance && t.resultingBalance == balance
          && owner.allTransactions == old(owner.allTransactions)[old(owner.numTotalTransactions) := t]
        else
          && transactionKeys == []
          && owner.numTotalTransactions == old(owner.numTotalTransactions)
          && owner.allTransactions == old(owner.allTransactions)
    {
      this.name, this.kind, this.balance, this.owner, this.id := name, kind, balance, owner, id;
      transactionKeys := [];
      new;
      if balance > 0 {
        var t := new Transaction(DEPOSIT, balance, this);
        AddNewTransaction(t);
      }
    }

    method AddToBalance(change: int)
      modifies this`balance
      ensures balance == old(balance) + change
    {
      balance := balance + change;
    }

    method Deposit(amount: int) returns (ok: bool)
      modifies this`balance, owner`totalBalance
      ensures ok && balance == old(balance) + amount && owner.totalBalance == old(owner.totalBalance) + amount
    {
      AddToBalance(amount);
      owner.AddToTotalBalance(amount);
      return true;
    }

    method Withdraw(amount: int) returns (ok: bool)
      modifies this`balance, owner`totalBalance
      ensures ok <==> amount <= old(balance)
      ensures balance == old(balance) - if ok then amount else 0
      ensures owner.totalBalance == old(owner.totalBalance) - if ok then amount else 0
    {
      if amount > balance {
        return false;
      }
      AddToBalance(-1 * amount);
      owner.AddToTotalBalance(-1 * amount);
      return true;
    }

    method AddNewTransaction(t: Transaction)
      modifies this`transactionKeys, owner`allTransactions, owner`numTotalTransactions
      ensures transactionKeys == old(transactionKeys) + [old(owner.numTotalTransactions)]
      ensures owner.allTransactions == old(owner.allTransactions)[old(owner.numTotalTransactions) := t]
      ensures owner.numTotalTransactions == old(owner.numTotalTransactions) + 1
    {
      var index := owner.StoreTransaction(t);
      transactionKeys := transactionKeys + [index];
    }

    method DepositOrWithdraw(amount: int, kind: TransactionType) returns (ok: bool)
      modifies this`balance, owner`totalBalance
      ensures kind == DEPOSIT ==> ok && balance == old(balance) + amount
      ensures kind == WITHDRAWAL ==>
        ok == (amount <= old(balance)) && balance == old(balance) - if ok then amount else 0
      ensures kind == TRANSFER ==>
        ok == (amount >= 0 || old(balance) + amount >= 0) && balance == old(balance) + if ok then amount else 0
      ensures owner.totalBalance - old(owner.totalBalance) == balance - old(balance)
    {
      match kind
      case DEPOSIT => ok := Deposit(amount);
      case WITHDRAWAL => ok := Withdraw(amount);
      case TRANSFER =>
        if amount >= 0 {
          ok := Deposit(amount);
        } else {
          ok := Withdraw(-1 * amount);
        }
    }

    /** The same in the terms of the ledger. */
    method Settle(amount: int, kind: TransactionType) returns (ok: bool)
      modifies this`balance, owner`totalBalance
      ensures ok == Accepts(old(balance), amount, kind)
      ensures balance == old(balance) + if ok then Change(amount, kind) else 0
      ensures owner.totalBalance == old(owner.totalBalance) + if ok then Change(amount, kind) else 0
    {
      ok := DepositOrWithdraw(amount, kind);
    }

    method MoveMoney(amount: int, kind: TransactionType) returns (ok: bool)
      requires owner.Valid() && Live()
      modifies this`balance, owner`totalBalance
      ensures owner.Valid()
      ensures ok == Accepts(old(balance), amount, kind)
      ensures owner.Model() == if ok then Move(old(owner.Model()), name, Change(amount, kind)) else old(owner.Model())
    {
      ghost var accounts := owner.Accounts();
      ok := Settle(amount, kind);
      assert owner.Accounts() == accounts[name := Value()];
    }

    /** The record of a transaction that has already moved the money. */
    method RecordTransaction(amount: int, kind: TransactionType)
      requires owner.Valid() && Live()
      modifies this`transactionKeys, owner`allTransactions, owner`numTotalTransactions
      ensures owner.Valid()
      ensures owner.Model() == Record(old(owner.Model()), name, amount, kind)
    {
      ghost var l := owner.Model();
      AppendRecord(amount, kind);
      assert owner.Accounts() == l.accounts[name := Value()];
    }

    method AppendRecord(amount: int, kind: TransactionType)
      requires owner.Valid() && Live()
      modifies this`transactionKeys, owner`allTransactions, owner`numTotalTransactions
      ensures owner.Valid()
      ensures transactionKeys == old(transactionKeys) + [old(owner.numTotalTransactions)]
      ensures owner.numTotalTransactions == old(owner.numTotalTransactions) + 1
      ensures User.Stored(owner.allTransactions, owner.numTotalTransactions) ==
              old(User.Stored(owner.allTransactions, owner.numTotalTransactions)) + [Tx(kind, amount, balance, id)]
    {
      var t := new Transaction(kind, amount, this);
      User.NumberedOneMore(owner.allTransactions, owner.numTotalTransactions, owner.known, t);
      AddNewTransaction(t);
    }

    method MakeTransaction(amount: int, kind: TransactionType) returns (ok: bool)
      requires owner.Valid() && Live()
      modifies this`balance, this`transactionKeys
      modifies owner`totalBalance, owner`allTransactions, owner`numTotalTransactions
      ensures owner.Valid()
      ensures (owner.Model(), Returned(ok)) == BankLedger.MakeTransaction(old(owner.Model()), name, amount, kind)
    {
      BookIs(owner.Model(), name, amount, kind);
      ok := MoveMoney(amount, kind);
      if !ok {
        return false;
      }
      RecordTransaction(amount, kind);
      return true;
    }

    /** With the books right, the account's ledger replayed and reversed: the latest transaction first. */
    method GetAllTransactions() returns (transactions: seq<Transaction>)
      requires owner.Valid() && Live() && Ok(owner.Model())
      ensures var l := owner.Model();
              transactionKeys == KeysOf(l.txs, id) && LatestFirst(transactions, l.txs, transactionKeys)
    {
      ghost var l := owner.Model();
      LiveReplays(l, name);
      transactions := ListTransactions(l.txs);
    }

    method ListTransactions(ghost txs: seq<Tx>) returns (transactions: seq<Transaction>)
      requires KeysIn(transactionKeys, |txs|)
      requires forall n :: 0 <= n < |txs| ==> n in owner.allTransactions && owner.allTransactions[n].Value() == txs[n]
      requires forall k :: 0 <= k < |transactionKeys| ==>
        txs[transactionKeys[k]].resulting == Running(txs, transactionKeys, k + 1)
      ensures LatestFirst(transactions, txs, transactionKeys)
    {
      transactions := [];
      var i := |transactionKeys| - 1;
      while i >= 0
        invariant -1 <= i < |transactionKeys| && |transactions| == |transactionKeys| - 1 - i
        invariant forall j :: 0 <= j < |transactions| ==>
          transactions[j].Value() == txs[transactionKeys[|transactionKeys| - 1 - j]]
      {
        transactions := transactions + [owner.allTransactions[transactionKeys[i]]];
        i := i - 1;
      }
      forall j | 0 <= j < |transactions|
        ensures transactions[j].resultingBalance == Running(txs, transactionKeys, |transactionKeys| - j)
      {
        assert txs[transactionKeys[|transactionKeys| - 1 - j]].resulting ==
               Running(txs, transactionKeys, |transactionKeys| - j);
      }
    }
  }

  /** The transactions that the keys name, in reverse order, each with the sum of itself and all before it. */
  ghost predicate LatestFirst(transactions: seq<Transaction>, txs: seq<Tx>, keys: seq<int>) {
    && |transactions| == |keys| && KeysIn(keys, |txs|)
    && forall j :: 0 <= j < |transactions| ==>
         && transactions[j].Value() == txs[keys[|keys| - 1 - j]]
         && transactions[j].resultingBalance == Running(txs, keys, |keys| - j)
  }

  class User {
    var totalBalance: int
    var checkingAccountKeys: seq<string>
    var savingsAccountKeys: seq<string>
    var brokerageAccountKeys: seq<string>
    var bankAccounts: map<string, BankAccount>
    var numTotalTransactions: int
    var allTransactions: map<int, Transaction>
    /** Every account this user ever had; a removed one lives on as the parent of its transactions. */
    ghost var known: set<BankAccount>
    ghost var nextId: nat

    /** Every account is found under its own name and belongs to this user. */
    static ghost predicate Indexed(accounts: map<string, BankAccount>, known: set<BankAccount>, owner: User) {
      forall n :: n in accounts ==> accounts[n] in known && accounts[n].name == n && accounts[n].owner == owner
    }

    /** The transaction numbers are exactly 0, 1, ..., n - 1. */
    static ghost predicate Numbered(transactions: map<int, Transaction>, n: int, known: set<BankAccount>) {
      && 0 <= n
      && (forall i :: i in transactions <==> 0 <= i < n)
      && (forall i :: i in transactions ==> transactions[i].parent in known)
    }

    static ghost predicate Identified(known: set<BankAccount>, nextId: nat) {
      && (forall a :: a in known ==> a.id < nextId)
      && (forall a, b :: a in known && b in known && a.id == b.id ==> a == b)
    }

    static lemma NumberedOneMore(transactions: map<int, Transaction>, n: int, known: set<BankAccount>, t: Transaction)
      requires Numbered(transactions, n, known) && t.parent in known
      ensures Numbered(transactions[n := t], n + 1, known)
      ensures Stored(transactions[n := t], n + 1) == Stored(transactions, n) + [t.Value()]
    {
    }

    static lemma OneMoreKnown(accounts: map<string, BankAccount>, known: set<BankAccount>, owner: User, nextId: nat,
                              account: BankAccount)
      requires Indexed(accounts, known, owner) && Identified(known, nextId)
      requires account !in known && account.id == nextId
      ensures Indexed(accounts, known + {account}, owner) && Identified(known + {account}, nextId + 1)
    {
    }

    ghost predicate Valid()
      reads this
    {
      && Indexed(bankAccounts, known, this)
      && Numbered(allTransactions, numTotalTransactions, known)
      && Identified(known, nextId)
    }

    ghost function Model(): Ledger
      reads this, bankAccounts.Values
      requires Valid()
    {
      Ledger(totalBalance, checkingAccountKeys, savingsAccountKeys, brokerageAccountKeys,
             Accounts(),
             Stored(allTransactions, numTotalTransactions),
             nextId)
    }

    ghost function Accounts(): map<string, Account>
      reads this, bankAccounts.Values
    {
      map n | n in bankAccounts :: bankAccounts[n].Value()
    }

    static ghost function Stored(transactions: map<int, Transaction>, n: nat): seq<Tx>
      requires forall i :: 0 <= i < n ==> i in transactions
    {
      seq(n, i requires 0 <= i < n => transactions[i].Value())
    }

    constructor ()
      ensures Valid() && Model() == Ledger(0, [], [], [], map[], [], 0)
    {
      totalBalance, numTotalTransactions, nextId := 0, 0, 0;
      checkingAccountKeys, savingsAccountKeys, brokerageAccountKeys := [], [], [];
      bankAccounts, allTransactions, known := map[], map[], {};
    }

    method AddToTotalBalance(change: int)
      modifies this`totalBalance
      ensures totalBalance == old(totalBalance) + change
    {
      totalBalance := totalBalance + change;
    }

    method StoreTransaction(t: Transaction) returns (index: int)
      modifies this`allTransactions, this`numTotalTransactions
      ensures allTransactions == old(allTransactions)[old(numTotalTransactions) := t]
      ensures numTotalTransactions == old(numTotalTransactions) + 1 && index == old(numTotalTransactions)
    {
      allTransactions := allTransactions[numTotalTransactions := t];
      numTotalTransactions := numTotalTransactions + 1;
      return numTotalTransactions - 1;
    }

    method AddName(kind: AccountType, accountName: string)
      requires Valid()
      modifies this`checkingAccountKeys, this`savingsAccountKeys, this`brokerageAccountKeys
      ensures Valid() && Accounts() == old(Accounts())
      ensures checkingAccountKeys == old(checkingAccountKeys) + (if kind == CHECKING then [accountName] else [])
      ensures savingsAccountKeys == old(savingsAccountKeys) + (if kind == SAVINGS then [accountName] else [])
      ensures brokerageAccountKeys == old(brokerageAccountKeys) + (if kind == BROKERAGE then [accountName] else [])
    {
      match kind {
        case CHECKING => checkingAccountKeys := checkingAccountKeys + [accountName];
        case SAVINGS => savingsAccountKeys := savingsAccountKeys + [accountName];
        case BROKERAGE => brokerageAccountKeys := brokerageAccountKeys + [accountName];
      }
    }

    method RemoveName(accountName: string)
      requires Valid()
      modifies this`checkingAccountKeys, this`savingsAccountKeys, this`brokerageAccountKeys
      ensures Valid() && Accounts() == old(Accounts())
      ensures checkingAccountKeys ==
              if accountName in old(checkingAccountKeys) then RemoveFirst(old(checkingAccountKeys), accountName)
              else old(checkingAccountKeys)
      ensures savingsAccountKeys ==
              if accountName !in old(checkingAccountKeys) && accountName in old(savingsAccountKeys)
              then RemoveFirst(old(savingsAccountKeys), accountName)
              else old(savingsAccountKeys)
      ensures brokerageAccountKeys ==
              if accountName !in old(checkingAccountKeys) && accountName !in old(savingsAccountKeys)
              then RemoveFirst(old(brokerageAccountKeys), accountName)
              else old(brokerageAccountKeys)
    {
      if accountName in checkingAccountKeys {
        checkingAccountKeys := RemoveFirst(checkingAccountKeys, accountName);
      } else if accountName in savingsAccountKeys {
        savingsAccountKeys := RemoveFirst(savingsAccountKeys, accountName);
      } else {
        brokerageAccountKeys := RemoveFirst(brokerageAccountKeys, accountName);
      }
    }

    /** The new account and its first deposit, before the account is in the map. */
    method OpenAccount(kind: AccountType, accountName: string, balance: int) returns (account: BankAccount)
      requires Valid()
      modifies this`allTransactions, this`numTotalTransactions, this`known, this`nextId
      ensures Valid() && fresh(account) && known == old(known) + {account}
      ensures account.name == accountName && account.owner == this
      ensures nextId == old(nextId) + 1 && Accounts() == old(Accounts())
      ensures var before := old(Stored(allTransactions, numTotalTransactions));
              Stored(allTransactions, numTotalTransactions) ==
              if balance > 0 then before + [Tx(DEPOSIT, balance, balance, old(nextId))] else before
      ensures account.Value() ==
              Account(old(nextId), accountName, kind, balance, if balance > 0 then [old(numTotalTransactions)] else [])
    {
      ghost var accounts := Accounts();
      account := new BankAccount(accountName, kind, balance, this, nextId);
      assert Accounts() == accounts;
      Know(account);
      if balance > 0 {
        NumberedOneMore(old(allTransactions), old(numTotalTransactions), known,
                        allTransactions[old(numTotalTransactions)]);
      }
    }

    /** A new account joins those the user ever had. */
    ghost method Know(account: BankAccount)
      requires Indexed(bankAccounts, known, this) && Identified(known, nextId)
      requires account !in known && account.id == nextId
      modifies this`known, this`nextId
      ensures known == old(known) + {account} && nextId == old(nextId) + 1
      ensures Indexed(bankAccounts, known, this) && Identified(known, nextId)
    {
      OneMoreKnown(bankAccounts, known, this, nextId, account);
      known := known + {account};
      nextId := nextId + 1;
    }

    method AddAccount(kind: AccountType, accountName: string, balance: int)
      requires Valid()
      modifies this
      ensures Valid() && fresh(known - old(known))
      ensures Model() == BankLedger.AddAccount(old(Model()), kind, accountName, balance)
    {
      AddName(kind, accountName);
      var account := OpenAccount(kind, accountName, balance);
      Enter(account, balance);
    }

    method Enter(account: BankAccount, balance: int)
      requires Valid() && account in known && account.owner == this
      modifies this`bankAccounts, this`totalBalance
      ensures Valid()
      ensures totalBalance == old(totalBalance) + balance
      ensures Accounts() == old(Accounts())[account.name := account.Value()]
    {
      ghost var accounts := Accounts();
      bankAccounts := bankAccounts[account.name := account];
      totalBalance := totalBalance + balance;
      assert Accounts() == accounts[account.name := account.Value()];
    }

    method RemoveAccount(accountName: string) returns (r: Outcome<bool>)
      requires Valid()
      modifies this`checkingAccountKeys, this`savingsAccountKeys, this`brokerageAccountKeys, this`bankAccounts
      ensures Valid()
      ensures (Model(), r) == BankLedger.RemoveAccount(old(Model()), accountName)
    {
      if accountName !in bankAccounts {
        return NullPointer;
      }
      if bankAccounts[accountName].balance > 0 {
        return Returned(false);
      }
      RemoveName(accountName);
      Forget(accountName);
      return Returned(true);
    }

    method Forget(accountName: string)
      requires Valid()
      modifies this`bankAccounts
      ensures Valid()
      ensures Model() == old(Model()).(accounts := old(Model()).accounts - {accountName})
    {
      ghost var accounts := Accounts();
      bankAccounts := bankAccounts - {accountName};
      assert Accounts() == accounts - {accountName};
    }

    /** One leg, on whatever account the name finds; an unknown name raises the exception. */
    method Transact(accountName: string, amount: int, kind: TransactionType) returns (r: Outcome<bool>)
      requires Valid()
      modifies this, known
      ensures Valid() && known == old(known)
      ensures (Model(), r) == BankLedger.MakeTransaction(old(Model()), accountName, amount, kind)
    {
      if accountName !in bankAccounts {
        return NullPointer;
      }
      var ok := bankAccounts[accountName].MakeTransaction(amount, kind);
      return Returned(ok);
    }

    method MakeTransfer(from: string, to: string, amount: int) returns (r: Outcome<int>)
      requires Valid()
      modifies this, known
      ensures Valid() && known == old(known)
      ensures (Model(), r) == BankLedger.MakeTransfer(old(Model()), from, to, amount)
    {
      if from == to {
        return Returned(-1);
      }
      ghost var l := Model();
      var first := Transact(from, -1 * amount, TRANSFER);
      ghost var l1 := Model();
      if first == NullPointer || !first.value {
        TransferFails(l, from, to, amount, l1, first);
        return if first == NullPointer then NullPointer else Returned(1);
      }
      var second := Transact(to, amount, TRANSFER);
      TransferEnds(l, from, to, amount, l1, Model(), second);
      return if second == NullPointer then NullPointer else Returned(0);
    }
  }

  // ---- runs on the objects ----

  method Perform(user: User, op: Op)
    requires user.Valid()
    modifies user, user.known
    ensures user.Valid() && fresh(user.known - old(user.known))
    ensures user.Model() == Apply(old(user.Model()), op)
  {
    match op {
      case Open(kind, name, balance) => user.AddAccount(kind, name, balance);
      case Close(name) => var r := user.RemoveAccount(name);
      case Transact(name, amount, tx) => var r := user.Transact(name, amount, tx);
      case Transfer(from, to, amount) => var r := user.MakeTransfer(from, to, amount);
    }
  }

  /** The object graph after any calls is the ledger after them; if the calls were allowed, the books are right. */
  method PerformAll(user: User, ops: seq<Op>)
    requires user.Valid()
    modifies user, user.known
    ensures user.Valid() && user.Model() == ApplyAll(old(user.Model()), ops)
    ensures old(Ok(user.Model()) && AllAllowed(user.Model(), ops)) ==> Ok(user.Model())
  {
    ghost var before := user.Model();
    var i := 0;
    assert ops[0..] == ops;
    while i < |ops|
      invariant 0 <= i <= |ops| && user.Valid() && fresh(user.known - old(user.known))
      invariant ApplyAll(user.Model(), ops[i..]) == ApplyAll(before, ops)
    {
      assert ops[i..][0] == ops[i] && ops[i..][1..] == ops[i + 1..];
      Perform(user, ops[i]);
      i := i + 1;
    }
    if Ok(before) && AllAllowed(before, ops) {
      RunKeepsOk(before, ops);
    }
  }
}
