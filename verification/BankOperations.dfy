/** What each call does to the ledger, said without the functions the calls are made of. */
module BankOperations {
  import opened BankLedger
  import opened BankProperties

  // ---- frames ----

  /** Every account but one is as it was, and so are all transactions stored before. */
  ghost predicate OthersKept(l: Ledger, m: Ledger, name: string) {
    && (forall n :: n != name ==> (n in m.accounts <==> n in l.accounts))
    && (forall n :: n != name && n in l.accounts ==> m.accounts[n] == l.accounts[n])
    && l.txs <= m.txs
  }

  ghost predicate ListsKept(l: Ledger, m: Ledger) {
    m.checking == l.checking && m.savings == l.savings && m.brokerage == l.brokerage
  }

  // ---- opening ----

  /**
   Whatever the name, new or not: the account has the type and the balance asked for, its name stands last in the list
   of that type and in no other list anew, and a positive balance is on record as its first deposit.
   */
  lemma OpeningIs(l: Ledger, kind: AccountType, name: string, balance: int)
    ensures var m := AddAccount(l, kind, name, balance);
            && OthersKept(l, m, name)
            && name in m.accounts && m.accounts[name].name == name
            && m.accounts[name].kind == kind && m.accounts[name].balance == balance
            && m.accounts[name].id == l.nextId && m.nextId == l.nextId + 1
            && m.total == l.total + balance
            && m.checking == l.checking + (if kind == CHECKING then [name] else [])
            && m.savings == l.savings + (if kind == SAVINGS then [name] else [])
            && m.brokerage == l.brokerage + (if kind == BROKERAGE then [name] else [])
            && (balance > 0 ==>
                  m.txs == l.txs + [Tx(DEPOSIT, balance, balance, l.nextId)] && m.accounts[name].keys == [|l.txs|])
            && (balance <= 0 ==> m.txs == l.txs && m.accounts[name].keys == [])
  {
  }

  // ---- removal ----

  /** One list without the name, all others in order; a list that does not hold it is as it was. */
  ghost predicate NameDropped(list: seq<string>, after: seq<string>, name: string) {
    && name !in after
    && if name in list
       then exists i :: 0 <= i < |list| && list[i] == name && after == list[..i] + list[i + 1..]
       else after == list
  }

  lemma DropsLater(first: string, rest: seq<string>, after: seq<string>, name: string)
    requires first != name && name in rest && NameDropped(rest, after, name)
    ensures NameDropped([first] + rest, [first] + after, name)
  {
    var list := [first] + rest;
    var i :| 0 <= i < |rest| && rest[i] == name && after == rest[..i] + rest[i + 1..];
    var j := i + 1;
    assert list[j] == name && [first] + after == list[..j] + list[j + 1..];
  }

  lemma {:induction false} RemoveFirstDrops(list: seq<string>, name: string)
    requires NoDuplicates(list) && name in list
    ensures NameDropped(list, RemoveFirst(list, name), name)
  {
    RemoveFirstIs(list, name);
    if list[0] == name {
      assert RemoveFirst(list, name) == list[..0] + list[0 + 1..];
    } else {
      RemoveFirstDrops(list[1..], name);
      DropsLater(list[0], list[1..], RemoveFirst(list[1..], name), name);
      assert list == [list[0]] + list[1..];
    }
  }

  lemma WithoutNameDrops(l: Ledger, name: string)
    requires ListsOk(l) && name in l.accounts
    ensures var m := WithoutName(l, name);
            && NameDropped(l.checking, m.checking, name)
            && NameDropped(l.savings, m.savings, name)
            && NameDropped(l.brokerage, m.brokerage, name)
  {
    if name in l.checking {
      RemoveFirstDrops(l.checking, name);
    } else if name in l.savings {
      RemoveFirstDrops(l.savings, name);
    } else {
      RemoveFirstDrops(l.brokerage, name);
    }
  }

  /** An unknown name raises the exception; money in the account refuses; anything else removes exactly this account. */
  lemma RemovalIs(l: Ledger, name: string)
    requires Ok(l)
    ensures var (m, r) := RemoveAccount(l, name);
            && (r == NullPointer <==> name !in l.accounts)
            && (r == Returned(true) <==> name in l.accounts && l.accounts[name].balance == 0)
            && (r != Returned(true) ==> m == l)
            && (r == Returned(true) ==>
                  && name !in m.accounts && OthersKept(l, m, name)
                  && NameDropped(l.checking, m.checking, name)
                  && NameDropped(l.savings, m.savings, name)
                  && NameDropped(l.brokerage, m.brokerage, name)
                  && m.txs == l.txs && m.total == l.total && m.nextId == l.nextId)
  {
    if name in l.accounts {
      assert AccountOk(l.accounts[name], name, l.txs, l.nextId);
      WithoutNameDrops(l, name);
    }
  }

  // ---- transactions ----

  /** The account's balance and the total have moved by the same change, and one record says so. */
  ghost predicate Booked(l: Ledger, m: Ledger, name: string, amount: int, kind: TransactionType, change: int)
    requires name in l.accounts
  {
    && OthersKept(l, m, name) && ListsKept(l, m) && m.nextId == l.nextId
    && name in m.accounts
    && m.accounts[name].balance == l.accounts[name].balance + change
    && m.total == l.total + change
    && m.accounts[name].keys == l.accounts[name].keys + [|l.txs|]
    && m.accounts[name].id == l.accounts[name].id
    && m.accounts[name].name == l.accounts[name].name && m.accounts[name].kind == l.accounts[name].kind
    && |m.txs| == |l.txs| + 1
    && m.txs[|l.txs|] == Tx(kind, amount, m.accounts[name].balance, l.accounts[name].id)
  }

  /** A deposit is always booked. */
  lemma DepositIs(l: Ledger, name: string, amount: int)
    requires name in l.accounts
    ensures var (m, r) := MakeTransaction(l, name, amount, DEPOSIT);
            r == Returned(true) && Booked(l, m, name, amount, DEPOSIT, amount)
  {
  }

  /** A withdrawal is booked exactly if the balance covers it, and otherwise changes nothing. */
  lemma WithdrawalIs(l: Ledger, name: string, amount: int)
    requires name in l.accounts
    ensures var (m, r) := MakeTransaction(l, name, amount, WITHDRAWAL);
            && (r == Returned(true) <==> amount <= l.accounts[name].balance)
            && (r == Returned(true) ==> Booked(l, m, name, amount, WITHDRAWAL, -amount))
            && (r != Returned(true) ==> r == Returned(false) && m == l)
  {
  }

  /** One leg of a transfer is booked exactly if it brings money, or the balance covers what it takes. */
  lemma LegIs(l: Ledger, name: string, amount: int)
    requires name in l.accounts
    ensures var (m, r) := MakeTransaction(l, name, amount, TRANSFER);
            && (r == Returned(true) <==> amount >= 0 || l.accounts[name].balance + amount >= 0)
            && (r == Returned(true) ==> Booked(l, m, name, amount, TRANSFER, amount))
            && (r != Returned(true) ==> r == Returned(false) && m == l)
  {
  }

  lemma UnknownIs(l: Ledger, name: string, amount: int, kind: TransactionType)
    requires name !in l.accounts
    ensures MakeTransaction(l, name, amount, kind) == (l, NullPointer)
  {
  }

  // ---- what calls undo ----

  /** Withdrawing what was deposited gives back the balances, the total and the lists, with two records more. */
  lemma WithdrawUndoesDeposit(l: Ledger, name: string, amount: int)
    requires Ok(l) && name in l.accounts
    ensures var (m, first) := MakeTransaction(l, name, amount, DEPOSIT);
            var (u, second) := MakeTransaction(m, name, amount, WITHDRAWAL);
            && first == Returned(true) && second == Returned(true)
            && u.total == l.total && ListsKept(l, u) && u.accounts.Keys == l.accounts.Keys
            && (forall n :: n in l.accounts ==> u.accounts[n].balance == l.accounts[n].balance)
            && u.txs[|l.txs|..] == [Tx(DEPOSIT, amount, l.accounts[name].balance + amount, l.accounts[name].id),
                                    Tx(WITHDRAWAL, amount, l.accounts[name].balance, l.accounts[name].id)]
  {
    assert AccountOk(l.accounts[name], name, l.txs, l.nextId);
    DepositIs(l, name, amount);
    var m := MakeTransaction(l, name, amount, DEPOSIT).0;
    WithdrawalIs(m, name, amount);
  }

  /** Removing the empty account that was just opened gives back everything but the number it used up. */
  lemma RemoveUndoesOpen(l: Ledger, kind: AccountType, name: string)
    requires Ok(l) && name !in l.accounts
    ensures RemoveAccount(AddAccount(l, kind, name, 0), name) == (l.(nextId := l.nextId + 1), Returned(true))
  {
    var m := AddAccount(l, kind, name, 0);
    OpeningIs(l, kind, name, 0);
    OpenKeepsOk(l, kind, name, 0);
    RemovalIs(m, name);
    Undone(l, m, RemoveAccount(m, name).0, name);
  }

  lemma Undone(l: Ledger, m: Ledger, u: Ledger, name: string)
    requires ListsOk(l) && name !in l.accounts && name !in u.accounts
    requires OthersKept(l, m, name) && OthersKept(m, u, name)
    requires m.checking == l.checking || m.checking == l.checking + [name]
    requires m.savings == l.savings || m.savings == l.savings + [name]
    requires m.brokerage == l.brokerage || m.brokerage == l.brokerage + [name]
    requires NameDropped(m.checking, u.checking, name)
    requires NameDropped(m.savings, u.savings, name)
    requires NameDropped(m.brokerage, u.brokerage, name)
    ensures u.accounts == l.accounts
    ensures ListsKept(l, u)
  {
    LastDropped(l.checking, m.checking, u.checking, name);
    LastDropped(l.savings, m.savings, u.savings, name);
    LastDropped(l.brokerage, m.brokerage, u.brokerage, name);
    assert forall n :: n in u.accounts <==> n in l.accounts;
  }

  lemma LastDropped(list: seq<string>, longer: seq<string>, after: seq<string>, name: string)
    requires name !in list && (longer == list || longer == list + [name]) && NameDropped(longer, after, name)
    ensures after == list
  {
    if longer != list {
      assert longer[|list|] == name;
      var i :| 0 <= i < |longer| && longer[i] == name && after == longer[..i] + longer[i + 1..];
      OnlyLast(list, name, i);
    }
  }

  lemma OnlyLast(list: seq<string>, name: string, i: nat)
    requires name !in list && i <= |list| && (list + [name])[i] == name
    ensures i == |list| && (list + [name])[..i] + (list + [name])[i + 1..] == list
  {
  }
}
