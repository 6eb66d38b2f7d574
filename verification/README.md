# Torn scraper pipeline — a Dafny model

A set of Python scripts turns the Torn API into a shopping list. The stages are:

1. The **account scraper** (`1_bazaar_account_scraper.py`) walks a range of user ids and keeps
   the ones whose public status is readable and not banned.
2. The three **inactivity filters** keep the users who acted within the last 40 days:
   - `inactivityfilter.py` is stateless.
   - `2inactivityfilter.py` keeps state files.
   - `inactivityfilterrerun.py` can be resumed.
3. The **bazaar scraper** (`bazaarcalltake5.py`) writes one row per item listed in each
   remaining user's bazaar.
4. The **profit report** (`moregui.py`) matches those rows against the user's target sell
   prices. It reports the listings that can be resold at a profit, largest total profit first.

Each stage splits its work list over a list of API keys, and each key works through its share
of the ids. This project models the deterministic core of every stage in Dafny:
- the partitions of the work list, including the one that loses ids;
- the per-id decisions;
- the state files and their loaders, including the round trips between saving and loading;
- the flattening of bazaar listings;
- the profit filter and the stable descending sort.

It then proves what each stage promises about its output.

## How the model is built

Modules, one per concern:

- `Wrappers` holds `Option` and `Result`.
- `Csv` holds CSV cells and rows, the Python errors that escape, `int()` on a cell, and a
  writer class whose `rows` only grow or are truncated.
- `Seqs` holds `Concat` and `FlatMap`, and `Enumerate`, which fixes the iteration order of a
  Python set as an arbitrary order chosen once.
- `Sharding` holds the three partitions of the work list:
  - the slice partition, whose last shard takes the remainder;
  - the remainder-dropping partition;
  - the id-range partition.
- `Keys` holds `ApiKey`, with its call counter.
- `Torn` holds profile answers, the `last_action` timestamp and both activity windows.
- `StateFiles` holds the id files written from a set.
- The scripts are `InactivityRerun`, `InactivityFilter2`, `InactivityFilter`, `BazaarTake5`,
  `AccountScraper` and `ProfitReport`.

Where a script mutates shared state, the model is a class or a method with a `modifies` clause:
- the stores of the two stateful filters;
- the CSV writers;
- the progress counter;
- the key's call counter;
- the in-place sort.

Every such method is proved equal to a specification function of the old state. Examples are
`Snap() == Run(...)` and `rows == old(rows) + FlatMap(ids, ...)`. The properties are proved as
lemmas about those functions.

Conventions:
- **Network:** the API is a parameter `net`, a total function from user id to the answer for that id.
- **Clock:** the clock is a single `now`, in whole seconds since the epoch.
- **Request trace:** each stateful filter records the ids it sends to the API in a ghost
  `requests` trace, so that "no request is made" can be stated.
- **Cells:** a CSV cell is `Num(n)` when `int()`/`float()` accepts it and `Text(s)` otherwise. A
  `Text` cell never spells an integer, and `str.isdigit()` holds exactly for `Num(n)` with `n >= 0`.
- **Workers:** the key workers run one after the other, in key order.

## Behaviour worth knowing

- **Counters of the rerun's progress window.** `Total Processed` counts only the fetched ids
  that were judged active or inactive, and there is no "active" counter. With ids 1-4 answered
  as active, no timestamp, last seen 50 days ago and status 500, the run ends with blacklist
  {2, 4}, recently checked {3}, one active row and the counters (processed 2, blacklisted 2,
  inactive 1); `InactivityRerun.FourIdScenario` proves exactly this.
- **An empty key list** raises `ZeroDivisionError` in the `//` of the partition. In
  `inactivityfilterrerun.py`, `2inactivityfilter.py`, `inactivityfilter.py` and
  `1_bazaar_account_scraper.py` that happens before the output file is opened. In
  `bazaarcalltake5.py`, `main` has already truncated `sorted_bazaars.csv` and written its header
  (`bazaarcalltake5.py:163-165`) before the background thread reaches the division.
- **The partition of `2inactivityfilter.py`** does not cover its input; see Findings.
- **Non-200 answers.** A timestamp-less or non-200 answer blacklists the id in both stateful
  filters. The stateless filter simply writes nothing for it.

## Model

| member | source | states |
|---|---|---|
| Keys.ApiKey.constructor | inactivityfilterrerun.py:12-17 | a new key has its key string and holder name, and its call counter starts at the `call_number` argument (0 by default) |
| Keys.ApiKey.MakeRequest | inactivityfilterrerun.py:19-25 | a request returns the answer of the network and increments the key's call counter by exactly one |
| Csv.ParseInt | inactivityfilterrerun.py:125-126 | `int()` of a cell succeeds exactly on numeric cells with their value; otherwise `ValueError` |
| Csv.CsvWriter.WriteRow | inactivityfilterrerun.py:208 | `writerow` appends exactly one row and leaves the earlier rows as they were |
| Csv.CsvWriter.Truncate | inactivityfilter.py:95 | opening the output in `'w'` mode leaves it empty |
| Seqs.Enumerate | 2inactivityfilter.py:81 | `list(set)` lists every element of the set exactly once, in some order, with length equal to the set's size |
| Torn.LastActionTimestamp | inactivityfilterrerun.py:88-104 | non-200 answer gives None; an answer without `last_action.timestamp` (relative only, or none) gives None; otherwise the timestamp as sent |
| Torn.FetchLastAction | inactivityfilterrerun.py:88-104 | one request per call, on the key given; the result is the timestamp of the id's answer |
| Torn.ActivityBoundary | inactivityfilterrerun.py:109-115 | a user seen exactly 40 days (3 456 000 s) ago is active, one second more is not; None and timestamp 0 are never active |
| Torn.ActiveByDaysIsFortyOneDays | 2inactivityfilter.py:53-57 | the whole-day test `(now - ts).days <= 40` holds exactly when ts is nonzero and the gap is under 41 days |
| Sharding.SliceShards | inactivityfilter.py:91-109 | no keys gives ZeroDivisionError; otherwise one shard per key, each of the first k-1 of size `len // k`, the last with the remainder, and the shards concatenate to the list in order |
| Sharding.SliceShardsCover | inactivityfilter.py:102-109 | the slice shards put back together give the whole list in order, and the last shard holds `len // k + len % k` ids |
| Sharding.DroppingShards | 2inactivityfilter.py:81-92 | no keys gives ZeroDivisionError; otherwise one shard per key, every shard of size `len // k` |
| Sharding.DroppingShardsCoverage | 2inactivityfilter.py:82-92 | the dropping shards concatenate to the list without its last `len % k` ids, and to nothing when there are fewer ids than keys |
| Sharding.RangeIdsElements | 1_bazaar_account_scraper.py:52 | `range(a, b + 1)` has `b - a + 1` ids (none when b < a), its j-th being `a + j` |
| Sharding.RangeShards | 1_bazaar_account_scraper.py:63-78 | no keys gives ZeroDivisionError; otherwise key i gets `start + i*per .. start + (i+1)*per - 1`, the last key ends at `end_id`, and consecutive ranges are contiguous |
| Sharding.RangeShardsCover | 1_bazaar_account_scraper.py:63-78 | when the range is not inverted, the key ranges together visit every id from start to end exactly once, in increasing order |
| Sharding.InvertedRangeVisitsAnId | 1_bazaar_account_scraper.py:64-78 | an inverted range (start 5, end 3, three keys) still visits id 3, through the last key |
| StateFiles.SaveIdFile | inactivityfilterrerun.py:160-173 | saving a set writes one `[id]` row per element, each element once, in the set's iteration order, no header |
| StateFiles.WithHeader | inactivityfilterrerun.py:228-231 | opening the active file in append mode writes exactly `[User ID, Last Action Timestamp]` when it is empty and leaves a non-empty file as it is (`2inactivityfilter.py:84-87` does the same) |
| InactivityRerun.LastIndexOf | inactivityfilterrerun.py:123 | a DictReader column is read from the last header cell of that name |
| InactivityRerun.LoadProcessedUsers | inactivityfilterrerun.py:119-130 | the loop builds exactly the map of the data rows: a missing file is empty, the first row is the header, blank rows are skipped, and the first KeyError/TypeError/ValueError ends the load |
| InactivityRerun.EmptyTimestampIsNone | inactivityfilterrerun.py:126 | an empty or missing timestamp cell loads as None; a timestamp of 0 loads as 0 |
| InactivityRerun.LastRowWins | inactivityfilterrerun.py:124-127 | the value kept for an id is the one from its last non-blank row |
| InactivityRerun.AppendActiveRow | inactivityfilterrerun.py:124-127 | appending `[id, ts]` under the program's header adds exactly `id -> ts` to the loaded map |
| InactivityRerun.AppendActiveRows | inactivityfilterrerun.py:119-130 | appending rows of the program's form keeps the file loadable, keeps every loaded id, and adds every appended id |
| InactivityRerun.ReloadAfterAppend | inactivityfilterrerun.py:119-130 | reloading the active file after appending `[id, ts]` rows succeeds, keeps every id it loaded before and loads every appended id |
| InactivityRerun.LoadIdFile | inactivityfilterrerun.py:134-158 | the loop builds exactly the set of `int(row[0])` of the non-blank rows; a missing file is empty; a non-numeric id is ValueError |
| InactivityRerun.IdRowsLoad | inactivityfilterrerun.py:134-144 | loading `[id]` rows gives back exactly the set of those ids |
| InactivityRerun.SavedSetLoadsBack | inactivityfilterrerun.py:160-173 | a saved blacklist or recently-checked set loads back as exactly the same set |
| InactivityRerun.VisitSkipsKnown | inactivityfilterrerun.py:182-195 | an id already processed, blacklisted or recently checked makes no request and changes no set or row; only a blacklist skip (of an unprocessed id) counts as blacklisted |
| InactivityRerun.VisitRoutesUnknown | inactivityfilterrerun.py:197-219 | an unknown id is requested once and lands in exactly one place (blacklist if no timestamp, one `[id, ts]` row if active, recently checked otherwise) with the matching counter changes |
| InactivityRerun.VisitLeavesIdKnown | inactivityfilterrerun.py:182-219 | one visit only adds (sets grow, rows appended as `[id, ts]`) and its id ends known or with an appended row |
| InactivityRerun.RunAppend | inactivityfilterrerun.py:182-221 | running two lists one after the other is running their concatenation |
| InactivityRerun.RunRoutesFreshIds | inactivityfilterrerun.py:182-221 | over distinct unknown ids: each id is requested once in order, active rows appear in list order, and each set gains exactly the ids routed to it |
| InactivityRerun.RunOverKnownIds | inactivityfilterrerun.py:182-195 | a run over known ids makes no request and changes no set or row |
| InactivityRerun.RunLeavesIdsKnown | inactivityfilterrerun.py:182-219 | a run only adds: sets grow, rows are appended as `[id, ts]`, and every id of the list ends known or with an appended row |
| InactivityRerun.RerunRequestsNothing | inactivityfilterrerun.py:178-221 | after a run, reloading the active file succeeds and a second run over the same ids makes no request at all |
| InactivityRerun.RunThenReloadKnowsAll | inactivityfilterrerun.py:178-221 | after a run, reloading the active file succeeds and every id of the list is known to the reloaded map or the sets |
| InactivityRerun.FourIdScenario | inactivityfilterrerun.py:178-221 | ids 1..4 (active, no timestamp, 50 days old, status 500) end as blacklist {2, 4}, recently checked {3}, one row for id 1, counters (2, 2, 1), four requests |
| InactivityRerun.DuplicateActiveIdIsFetchedTwice | inactivityfilterrerun.py:182-185 | the processed map is not updated during a run, so an active id listed twice is requested twice and written twice |
| InactivityRerun.Store.constructor | inactivityfilterrerun.py:254-256 | the store holds the three loaded collections, zero counters and an empty request trace |
| InactivityRerun.Store.AddToBlacklist | inactivityfilterrerun.py:200-201 | the blacklist gains the id and its file is rewritten so that it loads back as the new set; nothing else changes |
| InactivityRerun.Store.AddToRecentlyChecked | inactivityfilterrerun.py:214-215 | the recently-checked set gains the id and its file loads back as the new set; nothing else changes |
| InactivityRerun.Store.CheckOne | inactivityfilterrerun.py:182-221 | one loop iteration moves the store exactly as `Visit` does, keeping both id files in step with their sets; the key is charged once per request |
| InactivityRerun.Store.CheckPublicStatuses | inactivityfilterrerun.py:178-221 | a shard moves the store exactly as `Run` does over its ids |
| InactivityRerun.Store.ProcessWithMultipleKeys | inactivityfilterrerun.py:224-247 | no keys gives ZeroDivisionError with nothing changed; otherwise the header is written to an empty active file and the slice shards cover the whole list, so the store ends as `Run` over the whole list |
| InactivityRerun.Store.RunShard | inactivityfilterrerun.py:235-244 | worker i continues the run from where the workers before it left the store, over its shard |
| InactivityRerun.Startup | inactivityfilterrerun.py:253-256 | startup fails exactly when one of the three loads fails; otherwise the store holds the loaded map, both loaded sets with the files they came from and the active file as read (empty when missing), with zero counters and no request yet |
| InactivityFilter2.DigitIds | 2inactivityfilter.py:30-32 | an id is loaded exactly when some non-blank row has it as an all-digit first cell |
| InactivityFilter2.LoadCsvToSet | 2inactivityfilter.py:23-35 | a missing file is empty, an empty file raises StopIteration, and otherwise the first row is skipped and the loaded ids are the non-negative digit ids |
| InactivityFilter2.IdRowsDigitIds | 2inactivityfilter.py:30-32 | reading `[id]` rows gives every non-negative id among them |
| InactivityFilter2.SavedSetReloadsWithoutFirstId | 2inactivityfilter.py:23-40 | a saved set reloads without the id that was written first; an empty saved set fails to load |
| InactivityFilter2.SingletonSetIsForgotten | 2inactivityfilter.py:23-40 | a blacklist holding one id, saved and reloaded, is empty |
| InactivityFilter2.DestinationOf | 2inactivityfilter.py:66-75 | blacklist exactly when there is no timestamp; active row exactly when the whole-day test passes |
| InactivityFilter2.Run | 2inactivityfilter.py:61-75 | a shard only extends the request trace |
| InactivityFilter2.RunAppend | 2inactivityfilter.py:61-75 | running two lists one after the other is running their concatenation |
| InactivityFilter2.FreshIds | 2inactivityfilter.py:62-64 | the ids requested are exactly the listed ids not in any of the three sets |
| InactivityFilter2.RunSets | 2inactivityfilter.py:61-75 | over distinct ids, each set gains exactly the unknown ids whose answer routes them there |
| InactivityFilter2.KnownAtVisit | 2inactivityfilter.py:62-64 | over distinct ids, whether an id is skipped depends only on the state before the run |
| InactivityFilter2.RunRequestsFreshIds | 2inactivityfilter.py:61-66 | over distinct ids, the run requests exactly the fresh ids, in list order |
| InactivityFilter2.RunActiveRows | 2inactivityfilter.py:61-72 | over distinct ids, the active rows appended are those of the fresh active ids, in list order |
| InactivityFilter2.PrefixRunSkipsRest | 2inactivityfilter.py:62-66 | a run over a prefix of a distinct list requests none of the ids after it |
| InactivityFilter2.DroppedIdsNeverFetched | 2inactivityfilter.py:79-97 | the last `len % k` ids of the work list are never requested |
| InactivityFilter2.ThreeIdsTwoKeys | 2inactivityfilter.py:82-92 | three ids on two keys give shards [1] and [2]; id 3 is never processed |
| InactivityFilter2.Store.constructor | 2inactivityfilter.py:111-113 | the store holds the three loaded sets and the files they came from |
| InactivityFilter2.Store.ProcessOne | 2inactivityfilter.py:62-75 | one loop iteration moves the store exactly as `Visit` does; each saved file stays a saving of its set; the sets only grow, and the file of a set that did not grow is left as it was |
| InactivityFilter2.Store.ProcessUsers | 2inactivityfilter.py:61-75 | a shard moves the store exactly as `Run` does over its ids; the sets only grow, and the file of a set that did not grow is left as it was |
| InactivityFilter2.Store.RunShard | 2inactivityfilter.py:87-92 | worker i continues the run from where the workers before it left the store, and leaves the file of a set that did not grow as it was |
| InactivityFilter2.Store.RunShards | 2inactivityfilter.py:84-97 | the workers one after the other move the store as `Run` over the concatenated shards, and leave the file of a set that did not grow as it was |
| InactivityFilter2.Store.ProcessWithMultipleKeys | 2inactivityfilter.py:79-97 | the work set is listed once in some order; no keys gives ZeroDivisionError with nothing changed, the id files included; otherwise the store ends as `Run` over the list without its last `len % k` ids, and the file of a set that did not grow is left as it was |
| InactivityFilter2.Startup | 2inactivityfilter.py:109-115 | startup fails exactly when one of the four loads fails; otherwise the store holds the three loaded sets, the two id files and the active file as read (empty when missing, which decides the header), with no request yet, and the work set is the loaded one |
| InactivityFilter.OutputRowsExactlyActive | inactivityfilter.py:79-87 | a row `[id]` is written exactly for the listed ids whose timestamp is within the 40-day window; never more rows than ids |
| InactivityFilter.CheckPublicStatuses | inactivityfilter.py:79-87 | a shard appends the rows of its ids, in order, with one request per id |
| InactivityFilter.ProcessWithMultipleKeys | inactivityfilter.py:91-112 | no keys gives ZeroDivisionError before the file is opened; otherwise the file holds the header followed by the rows of the whole list in list order |
| InactivityFilter.RunShards | inactivityfilter.py:100-112 | the workers together append the rows of the concatenated shards |
| BazaarTake5.CompletePrefix | bazaarcalltake5.py:53-59 | counts the entries read before the first entry whose `name`, `price` or `quantity` lookup raises |
| BazaarTake5.ItemRowsStopAtFirstFailure | bazaarcalltake5.py:43-80 | a listing writes one row per entry, in order, each with the user's id and the entry's fields, up to the first entry that raises; all entries are written exactly when all are complete |
| BazaarTake5.UserRowsByShape | bazaarcalltake5.py:42-82 | non-200, unreadable or unexpected bazaar writes nothing; an empty list writes nothing; a complete list or object writes one row per entry |
| BazaarTake5.FailingEntryKeepsEarlierRows | bazaarcalltake5.py:53-80 | an entry that raises keeps the rows already written and ends that listing |
| BazaarTake5.Progress.constructor | bazaarcalltake5.py:131 | the progress counter starts at 0 |
| BazaarTake5.Progress.Tick | bazaarcalltake5.py:85-86 | one tick adds exactly one |
| BazaarTake5.WriteItems | bazaarcalltake5.py:52-61 | the loop writes exactly the listing's rows |
| BazaarTake5.FetchAndWriteOne | bazaarcalltake5.py:39-86 | one user: one request, its rows appended, the progress counter moved by one whatever the answer |
| BazaarTake5.FetchAndWriteBazaarData | bazaarcalltake5.py:38-86 | a shard appends the rows of its users in order, one request and one tick per user |
| BazaarTake5.ProcessWithMultipleKeys | bazaarcalltake5.py:90-111 | no keys gives ZeroDivisionError with nothing written; otherwise the rows of every user, in list order, and progress moved by the number of users |
| BazaarTake5.RunShards | bazaarcalltake5.py:95-111 | the workers together append the rows of the concatenated shards and tick once per user |
| BazaarTake5.RunShard | bazaarcalltake5.py:97-107 | worker i appends the rows of its shard after those of the workers before it |
| AccountScraper.FetchPublicStatus | 1_bazaar_account_scraper.py:39-47 | the body exactly on status 200, None otherwise; one request |
| AccountScraper.ListedRowsExactly | 1_bazaar_account_scraper.py:52-59 | `[id]` is written exactly for the ids answered 200 with a truthy body not marked banned |
| AccountScraper.CheckPublicStatuses | 1_bazaar_account_scraper.py:50-60 | a key walks `start..end` inclusive in increasing order, one request per id, appending the listed ones |
| AccountScraper.CheckOne | 1_bazaar_account_scraper.py:53-58 | one id: one request, and `[user_id]` appended exactly when the answer is a 200 whose body is truthy and not banned |
| AccountScraper.ProcessWithMultipleKeys | 1_bazaar_account_scraper.py:63-83 | no keys gives ZeroDivisionError before the file is opened; otherwise the header followed by the rows of every id of the range, in increasing order |
| AccountScraper.RunRanges | 1_bazaar_account_scraper.py:72-83 | the workers together append the rows of the concatenated key ranges |
| AccountScraper.RunRange | 1_bazaar_account_scraper.py:74-83 | worker i appends the rows of its range after those of the workers before it |
| AccountScraper.RangesOfBounds | 1_bazaar_account_scraper.py:74-78 | the key ranges built from the partition bounds, walked in key order, are the ids the partition covers |
| ProfitReport.LowerIdempotent | moregui.py:10 | lower-casing a lower-cased name changes nothing: a price key is already in lower case |
| ProfitReport.LowerCharAlike | moregui.py:10 | two characters lower-case alike exactly when they are equal or one is the ASCII capital of the other |
| ProfitReport.CaseVariantsShareKey | moregui.py:10 | two item names share one price key exactly when they differ at most in the case of their ASCII letters |
| ProfitReport.LoadUserInput | moregui.py:5-13 | the loop builds exactly the price table of the rows, or the first `ValueError` |
| ProfitReport.SellPricesTable | moregui.py:5-13 | loading fails (ValueError) exactly when some sell price does not convert; otherwise every lower-cased name is a key, each key comes from a row, and it holds the price of its last row |
| ProfitReport.FindProfitableItems | moregui.py:17-56 | the loop builds exactly the report of the listings, in file order |
| ProfitReport.ReportHoldsQualifyingListings | moregui.py:17-56 | every reported item costs more than $1 and less than its sell price, with profit `(sell - buy) * quantity`, the seller's bazaar link and its listing's original name; every qualifying listing is reported |
| ProfitReport.InsertSplit | moregui.py:62 | an item is inserted after every item of larger or equal profit and before the smaller ones |
| ProfitReport.InsertAddsOne | moregui.py:62 | insertion adds exactly the new item |
| ProfitReport.InsertKeepsDescending | moregui.py:62 | insertion keeps the order descending by profit |
| ProfitReport.InsertIsStable | moregui.py:62 | insertion places the new item behind every item of equal profit |
| ProfitReport.SortStep | moregui.py:62 | sorting one more item keeps the items of each profit in their input order, given that the shorter sort did |
| ProfitReport.SortByProfitIsStableDescending | moregui.py:62 | the sort is descending by total profit, a permutation, and keeps the input order among equal profits |
| ProfitReport.SortByProfitDescending | moregui.py:62 | the in-place sort leaves the array as the stable descending sort of its old contents |
| ProfitReport.InsertAt | moregui.py:62 | one outer pass inserts `a[i]` into the sorted prefix and leaves the rest alone |
| ProfitReport.ShiftedIsInsert | moregui.py:62 | the array after shifting the smaller-profit items right and dropping the item in the hole is the stable insertion of that item |

## Left out

- HTTP, JSON decoding and the API itself: answers are given by the parameter `net`, one fixed
  answer per id for the whole run. A `response.json()` that raises outside the bazaar scraper's
  `try` is not modelled.
- `time.sleep`, `sleep_value` and `calls_per_minute`: sleeps only pace requests.
- Threads, `ThreadPoolExecutor` and the locks: workers run one after the other, in key order.
  The interleavings are not modelled, and neither are the unlocked `blacklist.add` and file
  rewrites racing in the stateful filters.
- The Tkinter windows, `update_display` and every `print`: they only report.
- The `csv` module: files are sequences of rows of abstract cells. Quoting, and a cell that is
  both a number and text, are not modelled.
- Ids are modelled as integers. The account list read by `inactivityfilter.py` and
  `bazaarcalltake5.py` holds strings (`row[0]`), which only flow into URLs and output rows.
- The clock: it is read once (`now`), although the code reads it once per check.
- Fractional prices and quantities: `float()` values are modelled as whole dollars.
- `ProfitReport.LowerIdempotent`: `str.lower()` is modelled on ASCII letters only; non-ASCII capitals keep their case.
- `ProfitReport.LowerCharAlike`: relates ASCII capitals only, for the same reason.
- `ProfitReport.CaseVariantsShareKey`: "differ only in case" means ASCII case only, for the same reason.
- A `last_action` value that is not a JSON object is not modelled. What happens then differs by
  script:
  - `2inactivityfilter.py:48` calls `.get` on it, which raises `AttributeError`.
  - `inactivityfilter.py:53-55` and `inactivityfilterrerun.py:93-97` test `'timestamp' in
    last_action`. For `null` or a number that raises `TypeError`. For a string or a list it is a
    substring or membership test: when it fails, the answer counts as having no timestamp; when
    it holds, the indexing that follows raises `TypeError`.
- A truthy `publicStatus` body that is not a JSON object is not modelled:
  `1_bazaar_account_scraper.py:55` calls `.get` on it, which raises `AttributeError`.
- Missing or short columns in the `moregui.py` CSV files are not modelled. Every listing row
  has its four fields. Otherwise:
  - a header without the column raises `KeyError`;
  - a row shorter than the header reads `None`, so `None.lower()` raises `AttributeError` at
    `moregui.py:10` and `moregui.py:24`;
  - `float(None)` raises `TypeError`, which the `except ValueError` at `moregui.py:53` does not
    catch.
- Timestamps are assumed to lie within the range of Python's `datetime` (years 1 to 9999).
  Outside it, `datetime.fromtimestamp` raises at `inactivityfilterrerun.py:111`,
  `2inactivityfilter.py:55` and `inactivityfilter.py:68`, and the exception ends that key's
  shard:
  - in the rerun and in `2inactivityfilter.py`, `future.result()` re-raises it
    (`inactivityfilterrerun.py:246-247`, `2inactivityfilter.py:96-97`);
  - `inactivityfilter.py` never calls `result()`, so its shard stops silently.
- `display_most_profitable` printing, and the `:.2f` formatting of profits.
- The rerun's final `save_recently_checked` after the window closes: it rewrites the same set.
- The main blocks' reading of the account list and of the bazaar input (`row[0]` of a blank
  row raises IndexError).
- The hard-coded key lists. The keys are parameters; the account scraper ships with none, which
  `ProcessWithMultipleKeys` covers as its ZeroDivisionError case.
- The tail of `process_with_multiple_keys` at `inactivityfilter.py:116-126`.
  `InactivityFilter.ProcessWithMultipleKeys` deliberately stops at line 112. The tail is
  indented inside the function, so any call falls through to it after the executor. It
  re-reads `active_users.csv` and calls the function again, without end, and each call
  truncates the output file. The file itself never calls the function, so the tail is not reached when it
  runs as a script.
- `2inactivityfilter.py`'s key has no call counter, so that model counts no calls.
- KEYCONTROLLER.py, gui.py and "bazaar call.py" are not part of this model.

## Findings

| source | as written | input that shows it | evidently intended | confidence | as-written member | corrected member |
|---|---|---|---|---|---|---|
| 2inactivityfilter.py:82-92 | every key gets `ids[i*per:(i+1)*per]`, so the last `len % k` ids go to no key | three ids, two keys: shards [1] and [2]; id 3 is never checked | the last key takes the remainder, as in the other scripts | high (not executed) | InactivityFilter2.DroppedIdsNeverFetched | Sharding.SliceShards |
| 2inactivityfilter.py:23-40 | `save_set_to_csv` writes no header but `load_csv_to_set` always skips the first row | a blacklist {7} is saved as `[7]` and reloads as {} | a saved set loads back as the same set | high (not executed) | InactivityFilter2.SavedSetReloadsWithoutFirstId | InactivityRerun.SavedSetLoadsBack |
| 2inactivityfilter.py:53-57 | `(now - ts).days <= 40` truncates to whole days | a user last seen 40 days and 23 hours ago counts as active | within 40 days, to the second, as in the other filters | low (not executed) | Torn.ActiveByDaysIsFortyOneDays | Torn.ActivityBoundary |
