# Expense tracker record store, modelled in Dafny

This project models the record store of a small personal expense tracker. The
store keeps two lists in memory: `users` and `transactions`. Six operations
work on them:

- `register_user` refuses an email that is already taken and otherwise appends a user.
- `login_user` looks for the first user whose email matches and whose stored
  password hash accepts the password.
- `add_transaction` appends a transaction record.
- `get_transactions` lists one user's records. It narrows them by type and by a
  date window, then sorts them newest first.
- `delete_transaction` drops every record with a given id.
- `update_transaction` merges an update dictionary into the first record with a given id.

Files:

- `wrappers.dfy` (module `Wrappers`): `Option` and `Result`.
- `records.dfy` (module `Records`): the `User` and `Transaction` records, the
  update dictionary as a `Patch` of optional fields, `Merge` (what `dict.update`
  does to a record) and `DayOf` (the calendar day of a timestamp).
- `lists.dfy` (module `Lists`): `Filter` is a list comprehension with an `if`.
  `FirstIndex` is a recursive function that specifies the early-returning search
  which the loops of `Store.LoginUser` and `Store.UpdateTransaction` perform.
  Lemmas cover order, multiplicity, idempotence and fusion of filters.
- `query.dfy` (module `Query`): `get_transactions` as pure functions. The
  filters are staged as in the code: owner, then type, then date window. A stable
  insertion sort orders the result newest first, as Python's `sorted(...,
  reverse=True)` does.
- `ledger.dfy` (module `Ledger`): class `Store`. Its fields `users` and
  `transactions` are the two lists. Its methods are the mutating operations and
  the login scan. Two ghost fields, `savedUsers` and `savedTransactions`, stand
  for the contents of the two JSON files. Each method updates them where the code
  calls `save_data`.

Modelling choices:

- Timestamps are integers counting microseconds, the resolution of a `datetime`.
  A day number is the timestamp divided by the microseconds in a day, rounded
  down, which is what `datetime.date()` gives.
- A numeric frequency becomes `Window.Rolling(now, days)`: a record is kept when
  its date is at or after `now - days`.
- The "custom" frequency becomes `Window.Custom(start, end)` with optional day
  numbers. It filters only when both bounds are present (`if start_date and
  end_date`), and both bounds are inclusive.
- Ids (`uuid4`) and password hashes (bcrypt with a random salt) are given to
  `RegisterUser` and `AddTransaction` as parameters.
- The bcrypt check is the parameter `checks(password, storedHash)` of `LoginUser`.
- The code does not check that transaction ids are unique, and neither does the
  model. Every operation is stated for lists with repeated ids too.
- `delete_transaction` reports success even when no record has the id. The model
  follows the code here.

## Model

| member | source | states |
|---|---|---|
| `Records.DayOf` | app.py:95 | the day `d` of timestamp `t` is the one whose midnight is at or before `t` and whose next midnight is after it |
| `Records.MergeCompose` | app.py:109 | two updates in a row equal one update with both dictionaries combined, a key of the later one winning; `Merge`, the model of `t.update`, gives a key the update carries the update's value and keeps every other field |
| `Records.MergeNoChanges` | app.py:109 | merging an empty update dictionary leaves a record as it was |
| `Records.MergeIdempotent` | app.py:109 | merging the same update twice gives the same record as merging it once |
| `Lists.Filter` | app.py:84-101 | a comprehension keeps an element exactly when it is in the input and meets the condition, and the result is never longer than the input |
| `Lists.FilterCount` | app.py:84-101 | a comprehension keeps each element that meets the condition as many times as the input holds it, and no other element |
| `Lists.FilterConcat` | app.py:101 | filtering a concatenation is the concatenation of the filtered parts, so kept elements stay in their relative order |
| `Lists.FilterIdempotent` | app.py:101 | filtering twice by one condition equals filtering once |
| `Lists.FilterKeepsAll` | app.py:94-95 | a condition that every element meets removes nothing |
| `Lists.FilterFuse` | app.py:84-95 | two filters in a row equal one filter on the conjunction of their conditions |
| `Lists.FirstIndex` | app.py:59-64 | the result is the index of an element meeting the condition with no earlier element meeting it; the result is none exactly when no element meets it |
| `Lists.FirstIndexAppend` | app.py:53 | searching a list with one more element at the end finds the old first match, else the new element if it matches, else nothing |
| `Query.Cutoff` | app.py:91 | moving `now` back by `days` whole days moves its calendar day back by exactly `days`, and the cutoff is not after `now` exactly when `days` is not negative |
| `Query.DayShift` | app.py:91 | subtracting a whole number of days from a timestamp subtracts that many from its day |
| `Query.DateAccepted` | app.py:89-95 | a rolling window accepts every date on a day after the cutoff's day and rejects every date on a day before it; a custom window with both bounds accepts exactly the timestamps from the start day's midnight up to the midnight after the end day; a custom window missing a bound accepts every date |
| `Query.Selected` | app.py:84-95 | a record survives the owner, type and date filters exactly when it is in the store, belongs to the user, has the requested type unless the filter is "all", and its date is inside the window |
| `Query.Insert` | app.py:97 | inserting adds exactly the one record to the list's multiset |
| `Query.InsertSorted` | app.py:97 | inserting into a list ordered newest first keeps it ordered newest first |
| `Query.SortNewestFirst` | app.py:97 | the sorted list is a permutation of the input with dates never increasing |
| `Query.GetTransactions` | app.py:82-97 | a listed record is in the store and meets all three conditions, and every store record meeting them is listed, as often as the store holds it; dates never increase along the listing |
| `Query.SelectedIsOneFilter` | app.py:84-95 | the three staged filters keep the same records in the same store order as one filter on the three conditions together |
| `Query.InsertStable` | app.py:97 | inserting keeps the order of the records that share one date, and the inserted record comes first among them |
| `Query.SortStable` | app.py:97 | sorting keeps the input order of the records that share one date |
| `Query.ListingKeepsStoreOrderOnTies` | app.py:97 | records with the same date appear in the listing in the order the store holds them |
| `Query.CustomRange` | app.py:93-95 | with the custom frequency, a record of the right owner and type is listed exactly when its day lies within both bounds, inclusive; if either bound is missing, it is listed whatever its date |
| `Query.WiderWindowListsMore` | app.py:89-92 | a rolling window over more days lists every record that a shorter window lists |
| `Ledger.FindLogin` | app.py:57-64 | login succeeds with the first user in list order that passes `Accepts`, the email and password test of app.py:60-62 (email matches and the check accepts the stored hash); it fails with "Invalid email or password" exactly when no user does |
| `Ledger.WithoutId` | app.py:101 | a record remains exactly when it was in the list and its id differs; each such record remains as many times as it occurred |
| `Ledger.UpdateFirst` | app.py:105-112 | the list keeps its length; only the first record with the id is merged with the update by `Merge`, the `t.update` of app.py:109, and every other record is unchanged; with no matching id the list is unchanged |
| `Ledger.Store.constructor` | app.py:31-33 | the store starts with the loaded lists, and the saved snapshots equal them |
| `Ledger.Store.RegisterUser` | app.py:42-55 | fails with "Email already exists!" and changes nothing exactly when `EmailTaken`, the `any(...)` test of app.py:44, holds; otherwise appends one user with the given fields, saves, and keeps emails pairwise distinct if they were |
| `Ledger.Store.LoginUser` | app.py:57-64 | the scan returns what `FindLogin` specifies and changes nothing |
| `Ledger.Store.AddTransaction` | app.py:66-80 | always succeeds; appends exactly one record with the given fields, leaves earlier records unchanged, and saves |
| `Ledger.Store.DeleteTransaction` | app.py:99-103 | always succeeds; keeps exactly the records whose id differs, in their order, and saves |
| `Ledger.Store.UpdateTransaction` | app.py:105-112 | succeeds exactly when some record has the id, leaving the list `UpdateFirst` specifies and saving it; otherwise fails with "Transaction not found" and changes and saves nothing |
| `Ledger.EmailTakenAfterAppend` | app.py:44-53 | after a user is appended, an email is taken (the `any(...)` test, `EmailTaken`) exactly when it was taken before or is the new user's, so registering the same email again is refused |
| `Ledger.RegisterKeepsEmailsDistinct` | app.py:44-53 | appending a user whose email is not taken keeps pairwise distinct emails distinct |
| `Ledger.LoginAfterAppend` | app.py:53-64 | after a user is appended, login finds the same user as before if there was one; otherwise it finds the new user if that user accepts the credentials, and otherwise fails |
| `Ledger.LoginAfterRegister` | app.py:42-64 | a user registered under an unused email, whose hash accepts the password, can then log in with that email and password, and the login returns that user |
| `Ledger.DeleteIdempotent` | app.py:99-103 | deleting twice by the same id equals deleting once |
| `Ledger.DeleteKeepsOrder` | app.py:101 | deletion acts on each part of a split list separately, so the remaining records keep their relative order |
| `Ledger.DeleteMissingId` | app.py:99-103 | deleting an id that no record carries leaves the list unchanged |
| `Ledger.AddLeavesOtherListings` | app.py:66-97 | adding a record for one user leaves every listing of every other user unchanged |
| `Ledger.AddedIsListed` | app.py:66-97 | a record just added is listed for its owner exactly when it passes the type filter and the date window |

## Left out

- The web interface, session state, navigation and forms (app.py:121-265) are framework glue and are not modelled.
- The analytics totals and group-by sums (app.py:266-296) use floating point and data-frame and chart libraries, so they are left out.
- Reading and writing the JSON files (`load_data`, `save_data`) is I/O. A save is modelled as a ghost snapshot equal to the in-memory list at the point of the call. Loading is the `Store` constructor taking the loaded lists.
- bcrypt hashing and checking (app.py:36-40, duplicated at 115-119) and the base64 encoding of the hash are foreign library calls. The stored hash is a parameter of `RegisterUser`, and the check is the function parameter of `LoginUser`.
- `uuid4` is random, so ids are parameters.
- `datetime.now()`, `timedelta` and `int(frequency)` are abstracted: the rolling window takes `now` and the number of days as integers. The `ValueError` that `int(frequency)` raises for a non-numeric frequency other than "custom" is not modelled. Nor is the `OverflowError` that `datetime.now() - timedelta(days=days)` raises when the cutoff falls outside the years `datetime` can hold: the model's days and timestamps are unbounded integers.
- `get_transactions` has default arguments (`frequency="7"`, `type_filter="all"`, no bounds; app.py:82), on which the analytics page relies (app.py:269). The model has no defaults: such a caller passes `Rolling(now, 7)` and `AllTypes` explicitly.
- `fromisoformat` is not modelled: dates are timestamps. The code sorts by the stored ISO string, which orders like the timestamp only while all strings share one format. The model sorts by the timestamp.
- Query.SortNewestFirst: sorting by the timestamp matches sorting by the ISO string only for strings of one format. An update made through the interface stores a `datetime` object, not a string, in the `date` field (app.py:233). The model does not tell the two representations apart, so it does not capture the errors Python raises on such a list.
- Query.ListingKeepsStoreOrderOnTies: the store-order promise holds only for records whose stored date strings are equal. `add_transaction` stores `date.isoformat()` ("2024-01-01T00:00:00", app.py:76). An edit saves a `datetime` through `json.dump(..., default=str)` ("2024-01-01 00:00:00", app.py:29, 110, 233), and the next run reloads it as that string (app.py:32-33). The sort key at app.py:97 is the string, and `' '` sorts before `'T'`, so after a reload an edited record is listed after every unedited record of the same instant, whatever the store order. The model gives both records one timestamp and keeps store order.
- Query.SortStable: stable on equal timestamps, not on equal date strings; for the same reason the app's tie order differs from the model's once an edited record shares its instant with an unedited one.
- Amounts are `real`. The core only stores amounts and never computes with them, so float rounding plays no part.
- Update dictionaries with keys other than the eight record fields are not modelled.
- The model works on values, not shared objects. In Python, the user that `login_user` returns and the records that `get_transactions` returns are the same dictionaries the store holds. A later `t.update` is therefore visible through them, and the model does not capture that aliasing.
