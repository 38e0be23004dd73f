/** The first version of the tool: accounts carry no balance, `add` appends
    without any duplicate check, and `credit` only appends a transaction. */
module Legacy {
  import opened Lookup
  import opened Ledger
  import opened Identity

  /** An account object of the first version: no `balance` field. */
  datatype LegacyAccount = LegacyAccount(
    fullName: string,
    email: string,
    dob: Date,
    id: string,
    transactions: seq<Transaction>)

  function LegacyIdsOf(doc: seq<LegacyAccount>): (ids: seq<string>)
    ensures |ids| == |doc|
    ensures forall i :: 0 <= i < |doc| ==> ids[i] == doc[i].id
  {
    seq(|doc|, i requires 0 <= i < |doc| => doc[i].id)
  }

  function NewLegacyAccount(fullName: string, email: string, dob: Date): (a: LegacyAccount)
    ensures a.id == CreateUniqueId(fullName, dob) && a.transactions == []
  {
    LegacyAccount(fullName, email, dob, CreateUniqueId(fullName, dob), [])
  }

  /** The document `add` leaves: always the new account appended. */
  function LegacyAdded(contents: seq<LegacyAccount>, fullName: string, email: string, dob: Date): (r: seq<LegacyAccount>)
    ensures |r| == |contents| + 1
    ensures r[..|contents|] == contents
    ensures r[|contents|].id == CreateUniqueId(fullName, dob)
  {
    assert (contents + [NewLegacyAccount(fullName, email, dob)])[..|contents|] == contents;
    contents + [NewLegacyAccount(fullName, email, dob)]
  }

  /** Account `k` after `credit`: `t` appended, nothing else. */
  function LegacyRecord(doc: seq<LegacyAccount>, k: nat, t: Transaction): (r: seq<LegacyAccount>)
    requires k < |doc|
    ensures |r| == |doc|
    ensures LegacyIdsOf(r) == LegacyIdsOf(doc)
    ensures forall i :: 0 <= i < |doc| && i != k ==> r[i] == doc[i]
    ensures r[k].transactions == doc[k].transactions + [t]
  {
    assert LegacyIdsOf(doc[k := doc[k].(transactions := doc[k].transactions + [t])]) == LegacyIdsOf(doc);
    doc[k := doc[k].(transactions := doc[k].transactions + [t])]
  }

  lemma AddedIds(contents: seq<LegacyAccount>, fullName: string, email: string, dob: Date)
    ensures LegacyIdsOf(LegacyAdded(contents, fullName, email, dob)) == LegacyIdsOf(contents) + [CreateUniqueId(fullName, dob)]
  {
  }

  /** `add` of the first version: builds the account and appends it, with no
      duplicate check; the file is always rewritten. */
  method Add(contents: seq<LegacyAccount>, fullName: string, email: string, dob: Date)
    returns (result: seq<LegacyAccount>)
    ensures |result| == |contents| + 1
    ensures result[..|contents|] == contents
    ensures result[|contents|].id == CreateUniqueId(fullName, dob)
    ensures result[|contents|].transactions == []
    ensures Count(LegacyIdsOf(result), CreateUniqueId(fullName, dob))
         == Count(LegacyIdsOf(contents), CreateUniqueId(fullName, dob)) + 1
    ensures result == LegacyAdded(contents, fullName, email, dob)
  {
    var account := LegacyAccount(fullName, email, dob, CreateUniqueId(fullName, dob), []);
    result := contents + [account];
    assert result[..|contents|] == contents;
    AddedIds(contents, fullName, email, dob);
    CountAppend(LegacyIdsOf(contents), account.id, account.id);
  }

  /** Without the duplicate check, adding the same name and date of birth
      twice leaves two accounts with equal ids, whatever came before. */
  lemma AddTwiceBreaksUniqueness(contents: seq<LegacyAccount>, fullName: string, email1: string, email2: string, dob: Date)
    ensures var twice := LegacyAdded(LegacyAdded(contents, fullName, email1, dob), fullName, email2, dob);
      && Count(LegacyIdsOf(twice), CreateUniqueId(fullName, dob))
         == Count(LegacyIdsOf(contents), CreateUniqueId(fullName, dob)) + 2
      && !Unique(LegacyIdsOf(twice))
  {
    var id := CreateUniqueId(fullName, dob);
    var once := LegacyAdded(contents, fullName, email1, dob);
    var twice := LegacyAdded(once, fullName, email2, dob);
    AddedIds(contents, fullName, email1, dob);
    AddedIds(once, fullName, email2, dob);
    CountAppend(LegacyIdsOf(contents), id, id);
    CountAppend(LegacyIdsOf(once), id, id);
    assert LegacyIdsOf(twice)[|contents|] == id == LegacyIdsOf(twice)[|contents| + 1];
  }

  /** `credit` of the first version: looks the account up with the
      accumulating loop that has no `break` and appends a CREDIT transaction
      holding the amount as given; there is no balance to read or write. */
  method Credit(contents: seq<LegacyAccount>, id: string, amount: int, description: string, now: Instant)
    returns (result: seq<LegacyAccount>, written: bool, status: Status)
    ensures status in {Ok, AccountNotFound, IndexError}
    ensures status == AccountNotFound <==> id !in LegacyIdsOf(contents)
    ensures Unique(LegacyIdsOf(contents)) ==> status != IndexError
    ensures status == IndexError <==>
      id in LegacyIdsOf(contents) && Accumulated(LegacyIdsOf(contents), id) >= |contents|
    ensures written <==> status == Ok
    ensures !written ==> result == contents
    ensures written ==> var k := Accumulated(LegacyIdsOf(contents), id);
      && 0 <= k < |contents|
      && result == LegacyRecord(contents, k, Stamp(now, description, Kind.Credit, amount))
      && result[k].transactions == contents[k].transactions + [Stamp(now, description, Kind.Credit, amount)]
      && LegacyIdsOf(result) == LegacyIdsOf(contents)
      && forall i :: 0 <= i < |contents| && i != k ==> result[i] == contents[i]
    ensures written && Unique(LegacyIdsOf(contents)) ==> contents[Accumulated(LegacyIdsOf(contents), id)].id == id
  {
    var accountIndex := AccumulateIndex(LegacyIdsOf(contents), id);
    if accountIndex == -1 {
      return contents, false, AccountNotFound;
    }
    if accountIndex >= |contents| {
      return contents, false, IndexError;
    }
    var transaction := Stamp(now, description, Kind.Credit, amount);
    var account := contents[accountIndex];
    result := contents[accountIndex := account.(transactions := account.transactions + [transaction])];
    assert LegacyIdsOf(result) == LegacyIdsOf(contents);
    if Unique(LegacyIdsOf(contents)) {
      AccumulatedIsFind(LegacyIdsOf(contents), id);
    }
    written, status := true, Ok;
  }

  /** "Bob" and "Jane Doe" born on the same day get different ids. */
  lemma BobIsNotJane(dob: Date)
    ensures CreateUniqueId("Bob", dob) != CreateUniqueId("Jane Doe", dob)
  {
    JaneDoeCollision(dob);
    assert ' ' !in "Bob" && ' ' !in "janedoe";
    assert |NamePart("Bob")| == 3;
    assert |NamePart("janedoe")| == 7;
  }

  /** Two accounts with one id followed by a third with another: the
      accumulator sums the first two positions and lands on the third. */
  lemma {:induction false} SummedIndexOfTwoDuplicates(ids: seq<string>, id: string)
    requires |ids| == 3 && ids[0] == id && ids[1] == id && ids[2] != id
    ensures Accumulated(ids, id) == 2
  {
    assert ids[..2][..1] == ids[..1];
    assert ids[..1][..0] == [];
    assert Weight(ids[..1], id) == 1;
    assert Weight(ids[..2], id) == 3;
  }

  /** Adding one holder twice and then another, and crediting the first
      holder's id, puts the transaction on the other holder's account: the
      matches at positions 0 and 1 sum to index 2, and the first holder's two
      accounts get nothing. `BobIsNotJane` gives an instance: "Jane Doe"
      twice, then "Bob". */
  lemma CreditAfterDuplicateAddHitsAnotherAccount(
    name: string, other: string, email: string, dob: Date, otherDob: Date, t: Transaction)
    requires CreateUniqueId(name, dob) != CreateUniqueId(other, otherDob)
    ensures var doc := LegacyAdded(LegacyAdded(LegacyAdded([], name, email, dob), name, email, dob), other, email, otherDob);
      var k := Accumulated(LegacyIdsOf(doc), CreateUniqueId(name, dob));
      && k == 2
      && doc[k].id == CreateUniqueId(other, otherDob)
      && var after := LegacyRecord(doc, k, t);
         after[0].transactions == [] && after[1].transactions == [] && after[2].transactions == [t]
  {
    var doc := LegacyAdded(LegacyAdded(LegacyAdded([], name, email, dob), name, email, dob), other, email, otherDob);
    SummedIndexOfTwoDuplicates(LegacyIdsOf(doc), CreateUniqueId(name, dob));
  }
}
