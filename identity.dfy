/** Account identity: `create_unique_id`, which has the same one-line body in
    both versions of the utilities, and `is_duplicate_account`. */
module Identity {
  import opened Decimal
  import opened Lookup
  import opened Ledger

  /** `str.lower()` on one character, over ASCII. */
  function Lower(c: char): char {
    if 'A' <= c <= 'Z' then (c as int - 'A' as int + 'a' as int) as char else c
  }

  predicate NoUpper(s: string) {
    forall i :: 0 <= i < |s| ==> !('A' <= s[i] <= 'Z')
  }

  /** `str.lower()`: every character lower-cased in place. */
  function LowerAll(s: string): (r: string)
    ensures |r| == |s| && NoUpper(r)
  {
    seq(|s|, i requires 0 <= i < |s| => Lower(s[i]))
  }

  /** `str.replace(" ", "")`: every space character dropped, nothing else. */
  function RemoveSpaces(s: string): (r: string)
    ensures ' ' !in r
    ensures |r| <= |s|
    ensures ' ' !in s ==> r == s
  {
    if s == [] then []
    else if s[0] == ' ' then RemoveSpaces(s[1..])
    else [s[0]] + RemoveSpaces(s[1..])
  }

  /** The name half of an account id. */
  function NamePart(fullName: string): string {
    LowerAll(RemoveSpaces(fullName))
  }

  /** The digits half of an account id: day, month and year, unpadded. */
  function DateDigits(dob: Date): string {
    Digits(dob.day) + Digits(dob.month) + Digits(dob.year)
  }

  /** `create_unique_id(full_name, dob)`: the name part, then `_` directly
      after it, then only digits, ending with the unpadded year. */
  function CreateUniqueId(fullName: string, dob: Date): (id: string)
    ensures |id| == |NamePart(fullName)| + 1 + |DateDigits(dob)|
    ensures id[..|NamePart(fullName)|] == NamePart(fullName)
    ensures id[|NamePart(fullName)|] == '_'
    ensures AllDigits(id[|NamePart(fullName)| + 1..])
    ensures id[|id| - |Digits(dob.year)|..] == Digits(dob.year)
  {
    var name := NamePart(fullName);
    var id := name + "_" + DateDigits(dob);
    assert id[|name| + 1..] == DateDigits(dob);
    id
  }

  lemma {:induction false} RemoveSpacesAppend(a: string, b: string)
    ensures RemoveSpaces(a + b) == RemoveSpaces(a) + RemoveSpaces(b)
  {
    if a != [] {
      assert (a + b)[1..] == a[1..] + b;
      RemoveSpacesAppend(a[1..], b);
    } else {
      assert a + b == b;
    }
  }

  /** Lower-casing creates no spaces, so removing spaces after it changes
      nothing more. */
  lemma {:induction false} RemoveSpacesOfLower(s: string)
    requires ' ' !in s
    ensures ' ' !in LowerAll(s)
  {
    forall i | 0 <= i < |s| ensures LowerAll(s)[i] != ' ' {
      assert s[i] in s;
    }
  }

  lemma LowerAllOfNoUpper(s: string)
    requires NoUpper(s)
    ensures LowerAll(s) == s
  {
  }

  /** Normalising an already normalised name changes nothing. */
  lemma NamePartIdempotent(fullName: string)
    ensures NamePart(NamePart(fullName)) == NamePart(fullName)
  {
    var n := NamePart(fullName);
    RemoveSpacesOfLower(RemoveSpaces(fullName));
    assert RemoveSpaces(n) == n;
    LowerAllOfNoUpper(n);
  }

  /** Only spaces are removed: a name without spaces is just lower-cased,
      character for character. */
  lemma NamePartOfSpaceFree(fullName: string)
    requires ' ' !in fullName
    ensures NamePart(fullName) == LowerAll(fullName)
  {
  }

  /** A space anywhere in the name is ignored. */
  lemma NamePartIgnoresSpace(a: string, b: string)
    ensures NamePart(a + " " + b) == NamePart(a + b)
  {
    RemoveSpacesAppend(a + " ", b);
    RemoveSpacesAppend(a, " ");
    RemoveSpacesAppend(a, b);
    assert RemoveSpaces(" ") == [];
    assert RemoveSpaces(a) + [] == RemoveSpaces(a);
  }

  /** The id does not tell names apart that differ only in spacing or letter
      case: every name collides with its own normalised form. */
  lemma NameCollision(fullName: string, dob: Date)
    ensures CreateUniqueId(fullName, dob) == CreateUniqueId(NamePart(fullName), dob)
  {
    NamePartIdempotent(fullName);
  }

  /** For example "Jane Doe" and "janedoe". */
  lemma JaneDoeCollision(dob: Date)
    ensures CreateUniqueId("Jane Doe", dob) == CreateUniqueId("janedoe", dob)
  {
    assert "Jane" + " " + "Doe" == "Jane Doe";
    assert "Jane" + "Doe" == "JaneDoe";
    NamePartIgnoresSpace("Jane", "Doe");
    var joined := "JaneDoe";
    assert ' ' !in joined;
    assert NamePart(joined) == LowerAll(joined);
    var lowered := "janedoe";
    assert forall i :: 0 <= i < 7 ==> LowerAll(joined)[i] == lowered[i];
    assert NamePart(joined) == lowered;
    assert ' ' !in lowered && NoUpper(lowered);
    LowerAllOfNoUpper(lowered);
  }

  /** Unpadded day and month digits collide: 1 December and 11 February of
      the same year give the same id. */
  lemma DayMonthCollision(fullName: string, year: nat)
    ensures CreateUniqueId(fullName, Date(year, 12, 1)) == CreateUniqueId(fullName, Date(year, 2, 11))
  {
    assert Digits(12) == "12";
    assert Digits(11) == "11";
  }

  /** Some account in `contents` already has the id `(fullName, dob)` derives. */
  predicate IsDuplicate(contents: seq<Account>, fullName: string, dob: Date) {
    CreateUniqueId(fullName, dob) in IdsOf(contents)
  }

  /** `is_duplicate_account`: scans the accounts, regenerating the candidate
      id on every step, and stops at the first account whose id equals it. */
  method IsDuplicateAccount(contents: seq<Account>, fullName: string, dob: Date) returns (duplicate: bool)
    ensures duplicate <==> exists i :: 0 <= i < |contents| && contents[i].id == CreateUniqueId(fullName, dob)
    ensures duplicate == IsDuplicate(contents, fullName, dob)
  {
    var isDuplicateId := false;
    for i := 0 to |contents|
      invariant !isDuplicateId
      invariant forall j :: 0 <= j < i ==> contents[j].id != CreateUniqueId(fullName, dob)
    {
      var currentId := CreateUniqueId(fullName, dob);
      if currentId == contents[i].id {
        isDuplicateId := true;
        break;
      }
    }
    if !isDuplicateId {
      return false;
    } else {
      return true;
    }
  }

  /** Duplicate status depends on the stored ids and `(fullName, dob)` only:
      changing an account's email never changes it. */
  lemma DuplicateIgnoresEmail(contents: seq<Account>, k: nat, email: string, fullName: string, dob: Date)
    requires k < |contents|
    ensures IsDuplicate(contents[k := contents[k].(email := email)], fullName, dob)
         == IsDuplicate(contents, fullName, dob)
  {
    assert IdsOf(contents[k := contents[k].(email := email)]) == IdsOf(contents);
  }
}
