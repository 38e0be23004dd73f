/** The transaction commands of the current CLI: `credit` and `debit`, which
    append a transaction and move the balance, and `delete`, which pops a
    transaction and reverses its effect on the balance. Each takes the
    document as loaded and returns the document it leaves, whether it
    rewrites the file, and how it ended. */
module Transactions {
  import opened Lookup
  import opened Ledger

  /** The body shared by `credit` and `debit`, which differ only in the
      `"type"` they write: look the account up with the accumulating loop
      that has no `break`, append the stamped transaction, move the balance,
      rewrite the file. */
  method Post(contents: seq<Account>, id: string, kind: Kind, amount: int, description: string, now: Instant)
    returns (result: seq<Account>, written: bool, status: Status)
    ensures status in {Ok, AccountNotFound, IndexError}
    ensures status == AccountNotFound <==> id !in IdsOf(contents)
    ensures Unique(IdsOf(contents)) ==> status != IndexError
    ensures status == IndexError <==>
      id in IdsOf(contents) && Accumulated(IdsOf(contents), id) >= |contents|
    ensures written <==> status == Ok
    ensures !written ==> result == contents
    ensures written ==> var k := Accumulated(IdsOf(contents), id);
      0 <= k < |contents| && result == Record(contents, k, Stamp(now, description, kind, amount))
    ensures written && Unique(IdsOf(contents)) ==>
      result == Record(contents, Find(IdsOf(contents), id), Stamp(now, description, kind, amount))
    ensures Valid(contents) ==> Valid(result)
  {
    var accountIndex := AccumulateIndex(IdsOf(contents), id);
    if accountIndex == -1 {
      return contents, false, AccountNotFound;
    }
    if accountIndex >= |contents| {
      // `contents[account_index]` raises before anything is written.
      return contents, false, IndexError;
    }
    var transaction := Stamp(now, description, kind, amount);
    var account := contents[accountIndex];
    account := account.(transactions := account.transactions + [transaction]);
    // The source stores round(amount, 2) but adds the unrounded amount to
    // the balance; in cents both are the same number.
    account := account.(balance := account.balance + Effect(transaction));
    result := contents[accountIndex := account];
    if Valid(contents) {
      RecordKeepsValid(contents, accountIndex, transaction);
    }
    written, status := true, Ok;
  }

  /** `credit`: a CREDIT transaction appended to the account, the balance
      raised by the amount, every other account untouched. */
  method Credit(contents: seq<Account>, id: string, amount: int, description: string, now: Instant)
    returns (result: seq<Account>, written: bool, status: Status)
    ensures status in {Ok, AccountNotFound, IndexError}
    ensures status == AccountNotFound <==> id !in IdsOf(contents)
    ensures Unique(IdsOf(contents)) ==> status != IndexError
    ensures status == IndexError <==>
      id in IdsOf(contents) && Accumulated(IdsOf(contents), id) >= |contents|
    ensures written <==> status == Ok
    ensures !written ==> result == contents
    ensures written ==> var k := Accumulated(IdsOf(contents), id);
      && 0 <= k < |contents|
      && result == Record(contents, k, Stamp(now, description, Kind.Credit, amount))
      && result[k].transactions == contents[k].transactions + [Stamp(now, description, Kind.Credit, amount)]
      && result[k].balance == contents[k].balance + amount
      && forall i :: 0 <= i < |contents| && i != k ==> result[i] == contents[i]
    ensures written && Unique(IdsOf(contents)) ==> contents[Accumulated(IdsOf(contents), id)].id == id
    ensures Valid(contents) ==> Valid(result)
  {
    result, written, status := Post(contents, id, Kind.Credit, amount, description, now);
    if written && Unique(IdsOf(contents)) {
      AccumulatedIsFind(IdsOf(contents), id);
    }
  }

  /** `debit`: a DEBIT transaction appended to the account, the balance
      lowered by the amount, with no lower bound, every other account
      untouched. */
  method Debit(contents: seq<Account>, id: string, amount: int, description: string, now: Instant)
    returns (result: seq<Account>, written: bool, status: Status)
    ensures status in {Ok, AccountNotFound, IndexError}
    ensures status == AccountNotFound <==> id !in IdsOf(contents)
    ensures Unique(IdsOf(contents)) ==> status != IndexError
    ensures status == IndexError <==>
      id in IdsOf(contents) && Accumulated(IdsOf(contents), id) >= |contents|
    ensures written <==> status == Ok
    ensures !written ==> result == contents
    ensures written ==> var k := Accumulated(IdsOf(contents), id);
      && 0 <= k < |contents|
      && result == Record(contents, k, Stamp(now, description, Kind.Debit, amount))
      && result[k].transactions == contents[k].transactions + [Stamp(now, description, Kind.Debit, amount)]
      && result[k].balance == contents[k].balance - amount
      && forall i :: 0 <= i < |contents| && i != k ==> result[i] == contents[i]
    ensures written && Unique(IdsOf(contents)) ==> contents[Accumulated(IdsOf(contents), id)].id == id
    ensures Valid(contents) ==> Valid(result)
  {
    result, written, status := Post(contents, id, Kind.Debit, amount, description, now);
    if written && Unique(IdsOf(contents)) {
      AccumulatedIsFind(IdsOf(contents), id);
    }
  }

  /** `delete`: finds the first account with the id and the first of its
      transactions with the transaction id (both loops break on the match).
      When confirmed, the transaction is popped and its effect on the
      balance reversed. Once the transaction is found the file is rewritten
      whether or not the deletion was confirmed. */
  method Delete(contents: seq<Account>, accountId: string, transactionId: int, confirm: bool)
    returns (result: seq<Account>, written: bool, status: Status)
    ensures status in {Ok, AccountNotFound, TransactionNotFound, Declined}
    ensures status == AccountNotFound <==> accountId !in IdsOf(contents)
    ensures status == TransactionNotFound <==>
      accountId in IdsOf(contents)
      && transactionId !in TxIdsOf(contents[Find(IdsOf(contents), accountId)].transactions)
    ensures written <==> status == Ok || status == Declined
    ensures status == Declined <==> written && !confirm
    ensures status != Ok ==> result == contents
    ensures status == Ok ==>
      var k := Find(IdsOf(contents), accountId);
      && 0 <= k
      && var j := Find(TxIdsOf(contents[k].transactions), transactionId);
      && 0 <= j
      && contents[k].transactions[j].transactionId == transactionId
      && result == Unrecord(contents, k, j)
      && result[k].balance == contents[k].balance - Effect(contents[k].transactions[j])
      && forall i :: 0 <= i < |contents| && i != k ==> result[i] == contents[i]
    ensures Valid(contents) ==> Valid(result)
  {
    var accountIndex := FirstIndex(IdsOf(contents), accountId);
    if accountIndex == -1 {
      return contents, false, AccountNotFound;
    }
    var transactions := contents[accountIndex].transactions;
    var transactionIndex := FirstIndex(TxIdsOf(transactions), transactionId);
    if transactionIndex == -1 {
      return contents, false, TransactionNotFound;
    }
    var deleted := transactions[transactionIndex];
    result := contents;
    if confirm {
      var account := contents[accountIndex];
      account := account.(transactions := RemoveAt(account.transactions, transactionIndex));
      if deleted.kind == Kind.Debit {
        account := account.(balance := account.balance + deleted.amount);
      }
      if deleted.kind == Kind.Credit {
        account := account.(balance := account.balance - deleted.amount);
      }
      result := contents[accountIndex := account];
      assert result == Unrecord(contents, accountIndex, transactionIndex);
      UnrecordFrame(contents, accountIndex, transactionIndex);
      if Valid(contents) {
        UnrecordKeepsValid(contents, accountIndex, transactionIndex);
      }
      status := Ok;
    } else {
      status := Declined;
    }
    written := true;
  }
}
