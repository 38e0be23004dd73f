# Stash ledger engine in Dafny

Stash is a personal money-tracking command-line tool. Its whole state is one
JSON document: an ordered list of accounts, each with an ordered list of
credit and debit transactions. Every command loads that document, changes it
in memory and dumps it back. This project models the in-memory part of those
commands, over the document as a value:

- account identity (`create_unique_id`, `is_duplicate_account`);
- account creation with and without the duplicate check;
- account deletion;
- credit and debit with balance bookkeeping;
- transaction deletion with balance reversal;
- the read-only `summary` and `statement` projections.

Each command is a method that takes the loaded document. The commands that
may rewrite the file return three things: the document they leave, whether
they rewrite the file, and how they ended (`Ledger.Status`). "Nothing is
written" is stated as `!written && result == contents`. The first version's
`add` always rewrites the file, so `Legacy.Add` returns only the document.
`summary` and `statement` write nothing and return the table they show
(`Accounts.SummaryView`, `Accounts.StatementView`). The lookup loops are
kept in both of the source's shapes (`Lookup`):

- with `break`, the accumulator `-1 + i + 1` is the first match (`Find`);
- without `break`, every match adds `i + 1` (`Accumulated`).

Modules:

| module | file | models |
|---|---|---|
| `Lookup` | lookup.dfy | the index-accumulating search loops, shared by every handler |
| `Decimal` | decimal.dfy | Python's `str(n)` for the parts of a date |
| `Ledger` | ledger.dfy | the document's records and invariants, and the transaction updates |
| `Identity` | identity.dfy | `create_unique_id` (the same text in both versions) and `is_duplicate_account` |
| `Accounts` | accounts.dfy | `add`, `delete`, `summary`, `statement` of the current CLI |
| `Transactions` | transactions.dfy | `credit`, `debit`, `delete` of the current CLI |
| `Legacy` | legacy.dfy | `add` and `credit` of the first version, which has no balance field |

Amounts are integer cents, so `round(x, 2)` is the identity. The clock is a
parameter (`Ledger.Instant`). Its float timestamp is a `real`, and the
transaction id is its integer part, truncated toward zero as `int()` does.
The confirmation prompt is a `bool` parameter.

The document invariant `Ledger.Valid` has two parts:

- account ids are unique;
- every balance equals the signed sum of the account's transactions, taken in
  append order from zero.

Every command of the current CLI preserves it, and each command's contract
says so. The first version's `add` does not preserve it:
`Legacy.AddTwiceBreaksUniqueness` proves that.

Credit, debit and `statement` look the account up with the loop that has no
`break`. With unique ids, which `Accounts.Add` maintains, that loop finds the
right account (`Lookup.AccumulatedIsFind`). Without unique ids it can pick a
different account; see Findings.

On these points the model follows the code:

- No amount is validated, so an amount may be negative. A debit may take the
  balance below zero.
- The confirmation is asked inside the delete handlers.
- Deleting a transaction rewrites the file even when the confirmation is
  declined, with identical contents. Deleting an account does not write when
  declined.
- Transaction ids may repeat within one second. Deleting by id removes the
  first match (`Ledger.SameSecondDeleteRemovesOlder`).

`create_unique_id` is a function, so the same name and date of birth always
give the same id.

## Model

| member | source | states |
|---|---|---|
| `Lookup.Find` | src/stash_basic/accounts_handler.py:75-79 | the first-match index: -1 exactly when the key is absent; otherwise that position holds the key and no earlier one does |
| `Lookup.FirstIndex` | src/stash-cli/transactions_handler.py:153-157 | the search loop with `break` ends with the first matching position, or -1 |
| `Lookup.AccumulateIndex` | src/stash-cli/transactions_handler.py:25-28 | the search loop without `break` ends with -1 plus the sum of `i + 1` over all matches; that is -1 exactly when nothing matches, and the first match when keys are unique |
| `Lookup.WeightZero` | src/stash-cli/transactions_handler.py:90-93 | the accumulator stays at -1 exactly when no account matches |
| `Lookup.WeightOfUnique` | src/stash-cli/transactions_handler.py:90-93 | with unique keys, only the matching position adds to the accumulator, giving its index |
| `Lookup.AccumulatedIsFind` | src/stash_basic/accounts_handler.py:161-164 | with unique ids, the loops with and without `break` agree |
| `Lookup.CountOfUnique` | src/stash_basic/accounts_handler.py:36-37 | with unique ids, an id occurs once or not at all |
| `Lookup.CountPositive` | src/stash_basic/accounts_handler.py:36-37 | an id occurs a positive number of times exactly when it is present |
| `Lookup.CountAppend` | src/stash_basic/accounts_handler.py:37 | appending adds one occurrence of the appended id and none of any other |
| `Lookup.RemoveAt` | src/stash_basic/accounts_handler.py:97 | `pop(j)` shortens the list by one; the elements before `j` stay where they were and those after it move down one place |
| `Lookup.CountRemoveAt` | src/stash_basic/accounts_handler.py:97 | `pop(k)` removes exactly one occurrence of the popped id |
| `Lookup.RemoveAtUnique` | src/stash_basic/accounts_handler.py:97 | `pop(k)` keeps ids unique |
| `Decimal.Digits` | src/stash-cli/utils.py:40 | `str(n)` is non-empty, all digits, and starts with `0` only for zero (no padding) |
| `Decimal.ValueOfDigits` | src/stash-cli/utils.py:40 | reading the digits back gives the number |
| `Decimal.DigitsInjective` | src/stash-cli/utils.py:40 | different numbers are written differently, so only the concatenation makes ids collide |
| `Identity.LowerAll` | src/stash-cli/utils.py:40 | `lower()` keeps the length and leaves no upper-case ASCII letter |
| `Identity.RemoveSpaces` | src/stash-cli/utils.py:40 | `replace(" ", "")` leaves no space, never lengthens, and changes a space-free name not at all |
| `Identity.CreateUniqueId` | src/stash-cli/utils.py:33-40 | the id is the normalised name, then `_` directly after it, then only digits, ending with the unpadded year |
| `Identity.RemoveSpacesAppend` | src/stash/utils.py:40 | removing spaces distributes over concatenation |
| `Identity.RemoveSpacesOfLower` | src/stash/utils.py:40 | lower-casing creates no spaces |
| `Identity.LowerAllOfNoUpper` | src/stash/utils.py:40 | lower-casing a name with no upper-case letters changes nothing |
| `Identity.NamePartIdempotent` | src/stash/utils.py:40 | normalising a normalised name changes nothing |
| `Identity.NamePartOfSpaceFree` | src/stash/utils.py:40 | only spaces are removed: a space-free name is just lower-cased, character for character |
| `Identity.NamePartIgnoresSpace` | src/stash/utils.py:40 | a space anywhere in the name does not affect the name part |
| `Identity.NameCollision` | src/stash-cli/utils.py:40 | the id is not injective: any name gives the same id as its normalised form |
| `Identity.JaneDoeCollision` | src/stash-cli/utils.py:40 | "Jane Doe" and "janedoe" get the same id |
| `Identity.DayMonthCollision` | src/stash/utils.py:40 | 1 December and 11 February of the same year give the same id |
| `Identity.IsDuplicateAccount` | src/stash-cli/utils.py:42-68 | true exactly when some account's stored id equals the derived id; false on an empty document; the input is never changed |
| `Identity.DuplicateIgnoresEmail` | src/stash-cli/utils.py:42-59 | changing an account's email never changes the duplicate verdict |
| `Ledger.IntPart` | src/stash-cli/transactions_handler.py:36-37 | the transaction id is the timestamp truncated toward zero |
| `Ledger.Stamp` | src/stash-cli/transactions_handler.py:35-42 | the new transaction's id is the timestamp's integer part, it carries the given kind, amount and description, and its effect on the balance is +amount for a credit and -amount for a debit |
| `Ledger.Record` | src/stash-cli/transactions_handler.py:45-48 | recording a transaction on account `k` keeps the number of accounts, the other accounts and account `k`'s id, and keeps account `k` balanced if it was |
| `Ledger.Unrecord` | src/stash-cli/transactions_handler.py:194-200 | popping transaction `j` of account `k` and reversing its effect keeps the number of accounts, the other accounts and account `k`'s id; account `k` has one transaction fewer and stays balanced if it was |
| `Ledger.TotalAppend` | src/stash-cli/transactions_handler.py:45-48 | appending a transaction moves the signed sum by exactly its effect |
| `Ledger.TotalRemove` | src/stash-cli/transactions_handler.py:194-200 | popping a transaction takes exactly its effect out of the signed sum |
| `Ledger.RecordFrame` | src/stash-cli/transactions_handler.py:45-48 | a credit or debit touches only the target account: ids and other accounts are unchanged, earlier transactions are kept, one transaction is appended at the end, and the balance moves by its effect |
| `Ledger.RecordKeepsValid` | src/stash-cli/transactions_handler.py:110-113 | a credit or debit keeps ids unique and every balance equal to its signed sum |
| `Ledger.UnrecordFrame` | src/stash-cli/transactions_handler.py:194-200 | a transaction delete touches only its account, pops exactly that transaction, and subtracts its effect from the balance |
| `Ledger.UnrecordKeepsValid` | src/stash-cli/transactions_handler.py:194-200 | a transaction delete keeps the document consistent |
| `Ledger.RecordThenDeleteRestores` | src/stash-cli/transactions_handler.py:165-200 | a credit or debit, then deleting that transaction by its id, restores the document exactly, balance included, when no earlier transaction has that id |
| `Ledger.SameSecondDeleteRemovesOlder` | src/stash-cli/transactions_handler.py:165-169 | when an earlier transaction has the same one-second id, delete removes the older one and the new one stays last; the balance then ends at the old balance plus the new effect minus the older one's, so it is not restored in general |
| `Accounts.AccountFieldsExcept` | src/stash_basic/accounts_handler.py:128-141 | dropping "transactions" leaves the five plain values and keys, in insertion order |
| `Accounts.SummaryRowFields` | src/stash_basic/accounts_handler.py:129-136 | a summary row is exactly name, email, date of birth, id and balance |
| `Accounts.NewAccount` | src/stash_basic/accounts_handler.py:22-29 | the new account has the derived id, balance 0 and no transactions, so it is balanced |
| `Accounts.Added` | src/stash_basic/accounts_handler.py:36-37 | after `add` the derived id is in the document; the earlier accounts are kept in order; at most one account is added, and none when the id was already there |
| `Accounts.AddKeepsValid` | src/stash_basic/accounts_handler.py:27-37 | `add` preserves unique ids, and preserves the whole document invariant |
| `Accounts.AddTwiceKeepsOne` | src/stash_basic/accounts_handler.py:36-57 | adding the same name and date of birth twice, with any emails, leaves exactly one account with that id |
| `Accounts.Add` | src/stash_basic/accounts_handler.py:22-57 | a duplicate leaves the document unchanged and unwritten; otherwise the new account is appended at the end with the derived id, balance 0 and no transactions, the earlier accounts keep their order, and the file is written; uniqueness and consistency are kept |
| `Accounts.RemoveAccountKeepsValid` | src/stash_basic/accounts_handler.py:97 | popping an account keeps the invariant, and with unique ids removes its id from the document |
| `Accounts.Delete` | src/stash_basic/accounts_handler.py:74-105 | an unknown id, or a declined confirmation, leaves the document unchanged and unwritten; a confirmed delete pops the first account with the id and keeps the others in order; the invariant is kept |
| `Accounts.Summary` | src/stash_basic/accounts_handler.py:115-144 | an empty document gives no table; otherwise one row per account in document order, each the account's fields without its transactions, under the five field names |
| `Accounts.Statement` | src/stash_basic/accounts_handler.py:156-205 | an unknown id is an error; an account without transactions gives the info message; otherwise its transactions in stored order, then a total row of six cells whose last is the balance and whose second to last is "Total:"; the out-of-range error happens exactly when the id is present and the summed index is past the end, so never with unique ids |
| `Transactions.Post` | src/stash-cli/transactions_handler.py:20-52 | the body shared by credit and debit: an unknown id leaves the document unchanged and unwritten; the out-of-range error, also unwritten, happens exactly when the id is present and the summed index is past the end, so never with unique ids; otherwise the stamped transaction is recorded at the summed index, which is the first match when ids are unique |
| `Transactions.Credit` | src/stash-cli/transactions_handler.py:11-52 | an unknown id, or a summed index past the end (which unique ids rule out), leaves the document unchanged and unwritten; any other call is written, and exactly one CREDIT transaction is appended to that account with the given amount and the timestamp's integer part as id, the balance becomes old balance + amount, and other accounts are untouched; consistency is kept |
| `Transactions.Debit` | src/stash-cli/transactions_handler.py:76-117 | the same, with a DEBIT transaction and balance old balance - amount, with no lower bound |
| `Transactions.Delete` | src/stash-cli/transactions_handler.py:140-205 | an unknown account or transaction id leaves the document unchanged and unwritten; otherwise the file is written; when confirmed, the first transaction with the id is popped, the others keep their order, and its effect is reversed (a DEBIT added back, a CREDIT taken off); when declined, the contents are identical |
| `Legacy.NewLegacyAccount` | src/stash/accounts_handler.py:22-28 | the new account has the derived id and no transactions |
| `Legacy.LegacyAdded` | src/stash/accounts_handler.py:35 | `add` of the first version always adds exactly one account, at the end, with the derived id, and keeps the earlier ones in order |
| `Legacy.LegacyRecord` | src/stash/transactions_handler.py:45 | crediting account `k` appends the transaction to its list and changes nothing else: ids and other accounts are unchanged |
| `Legacy.AddedIds` | src/stash/accounts_handler.py:27-35 | appending an account appends its derived id to the document's ids |
| `Legacy.Add` | src/stash/accounts_handler.py:22-39 | always appends: one more account, the earlier ones unchanged and in order, the last one with the derived id and no transactions, one more occurrence of that id |
| `Legacy.AddTwiceBreaksUniqueness` | src/stash/accounts_handler.py:34-35 | adding the same name and date of birth twice adds two equal ids, so ids are no longer unique |
| `Legacy.Credit` | src/stash/transactions_handler.py:20-49 | an unknown id, or a summed index past the end, leaves the document unchanged and unwritten; any other call is written, and exactly one CREDIT transaction with the amount as given is appended to the account at the accumulated index; ids and other accounts are untouched; no balance exists to update |
| `Legacy.BobIsNotJane` | src/stash/utils.py:40 | "Bob" and "Jane Doe" born on the same day get different ids |
| `Legacy.SummedIndexOfTwoDuplicates` | src/stash/transactions_handler.py:25-28 | with two equal ids at positions 0 and 1, the loop ends at index 2 |
| `Legacy.CreditAfterDuplicateAddHitsAnotherAccount` | src/stash/transactions_handler.py:25-45 | after adding one holder twice and another holder once, crediting the first holder puts the transaction on the other holder's account |

## Left out

- JSON persistence: `open`, `json.load` and `json.dump` are file I/O. The
  loaded document is a parameter and the written one a result. I/O and parse
  failures are not modelled.
- Presentation: click decorators, `click.echo`, `click.style`, `tabulate`
  and the currency label. Tables are modelled as rows of values.
- The clock: `datetime.now()` and the `strftime` strings. The timestamp and
  both strings are parameters, and their consistency is not modelled.
- Floating point: amounts are integer cents. The source stores
  `round(amount, 2)` but adds the unrounded amount to the balance. In cents
  the two are the same number, so the difference is not visible here.
- Default descriptions: when `--description` is not given, credit stores
  "Amount CREDITED." and debit "Amount DEBITED." (both versions). The CLI
  fills in these defaults before the handler runs. The model takes the
  description as a parameter and does not state them.
- Identity.Lower: lower-cases ASCII letters only. Python's `str.lower()`
  lower-cases all of Unicode.
- `load_config` and `save_config` in both utility files,
  src/stash-cli/initializer.py and src/stash/main.py: configuration and
  command wiring.
- src/stash_basic/utils.py is not part of this model. Its
  `is_duplicate_account` is modelled by the current CLI's version.
- The date of birth is kept as day, month and year. It is not checked to be
  a real calendar date, and its `%Y-%m-%d` text is not modelled.
- Documents are typed. Accounts or transactions with other keys or key
  orders are not modelled. So are the first version's accounts when read by
  the current CLI, where `"balance"` is missing.
- Races between processes (last writer wins) are not modelled.

## Findings

| source | as written | input that shows it | evidently intended | confidence | as-written member | corrected member |
|---|---|---|---|---|---|---|
| src/stash/transactions_handler.py:25-28 | the search loop has no `break` and adds `i + 1` for every matching account, so duplicate ids give the sum of their positions | with the first version, `add` "Jane Doe" twice and then "Bob" (the first version's `add` has no duplicate check), then `credit` Jane's id: the index is 0 + 1 + 1 + 1 - 1 = 2, and the transaction goes to Bob's account | credit the first account whose id matches | high, not executed | `Legacy.CreditAfterDuplicateAddHitsAnotherAccount` | `Lookup.FirstIndex` |

The corrected search is the loop with `break` (`Lookup.FirstIndex`). It
always returns a position that holds the id. The transaction and account
deletes use it. The current CLI keeps ids unique, so its `credit`, `debit`
and `statement` behave as intended: their loops have no `break`, but
`Lookup.AccumulatedIsFind` shows they agree with `Lookup.FirstIndex` there.
