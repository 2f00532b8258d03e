# Product-catalogue scraper: the scroll–scrape–checkpoint loop

This project models `scrape_all_pages` from `scraper.py`. It waits for the
product list to appear, then repeatedly reads every rendered item, keeps
each product whose id it has not seen before, writes a checkpoint of the
kept products after every tenth one, and presses "End" to load more. It
stops after the first pass that found no new id, writes a final save, and
returns the number of products kept. The model also covers the two text
rules applied to each item: the id parse `split(":")[1].strip()` and the
price normalisation `strip('$')`.

The browser is replaced by a *script*: a finite sequence of scans. Each scan
is the sequence of items rendered at one moment. An item has an optional id
text (the id element may be missing) and an optional bundle of the five
field texts (any field lookup may fail).

Files:

- `wrappers.dfy`: `Option` and `Result`.
- `pystr.dfy`: Python's `str.lstrip`/`rstrip`/`strip` (with and without a
  character argument) and `str.split` for a one-character separator, with
  their characterising lemmas.
- `products.dfy`: items, fields and product records; `ParseId`,
  `StripDollar` and `MakeRecord`.
- `scrape_spec.dfy`: the loop as a pure specification. `StepItem` is one
  iteration of the item loop. `ScanItems` folds it over a scan. `ScanPass`
  is one pass of the outer loop. `Passes(script, k)` is the state after `k`
  passes. The file also holds the invariant `Inv` and the lemmas about all
  of these.
- `scraper.dfy`: `class Scraper`, whose fields are the kept records, the
  set of seen ids, the per-scan new-id counter, the log of file writes and
  the scroll count. Its methods (`ProcessItem`, `ScanPage`, `ScanAndScroll`,
  `ScrapeAllPages`) are proved against the specification functions.

Behaviour of the code that the model keeps as written:

- The id is the *second* `:`-separated piece, trimmed of whitespace, not
  everything after the first colon: `"ID: a:b"` gives `"a"`. A text
  without `:` raises `IndexError` and the item is skipped.
- `strip('$')` removes every leading and every trailing `$` and no
  whitespace.
- A new id is entered into the ledger and counted *before* its fields are
  read. An item whose field lookup fails is therefore marked seen, counts as
  new for its scan, produces no record, and is never retried. So
  `|records| <= |seenIds|`, and the two need not be equal.
- The checkpoint is taken inside the item loop, after each append that
  makes the record count a multiple of 10.
- The page is scrolled after every scan, including the last, before the
  zero-new check. A run of three scans presses "End" three times.
- The return value is the number of records, not the number of seen ids.

## Model

| member | source | states |
|---|---|---|
| PyStr.LStripSuffix | scraper.py:65 | lstrip keeps a suffix of the input; every dropped character is in the strip set; the result does not start with one |
| PyStr.RStripPrefix | scraper.py:65 | rstrip keeps a prefix of the input; every dropped character is in the strip set; the result does not end with one |
| PyStr.StripCharsEnds | scraper.py:65 | a stripped string is no longer than its input and neither end is a character of the strip set |
| PyStr.StripCharsBounds | scraper.py:65 | strip returns an infix `s[i..j]` of its input, and every character before `i` and from `j` on is in the strip set |
| PyStr.StripCharsUnique | scraper.py:65 | any infix with only strip-set characters outside it and none at its ends is exactly what strip returns |
| PyStr.StripCharsIdempotent | scraper.py:65 | stripping twice gives the same string as stripping once |
| PyStr.StripCharsKeeps | scraper.py:65 | a string with no strip-set character at either end is returned unchanged |
| PyStr.Split | scraper.py:50 | `split` always returns at least one piece |
| PyStr.SplitPieces | scraper.py:50 | no piece contains the separator, and joining the pieces with it gives back the input |
| PyStr.SplitNoSep | scraper.py:50 | a string without the separator splits into itself alone |
| PyStr.SplitAtFirst | scraper.py:50 | the text before the first separator is the first piece, and the rest splits independently |
| PyStr.SplitJoin | scraper.py:50 | round trip: splitting separator-free pieces joined by the separator gives back the pieces |
| PyStr.SplitHasSecond | scraper.py:50 | there is a second piece (so `[1]` does not raise) exactly when the text contains the separator |
| Products.StripDollar | scraper.py:65 | the stored price is no longer than the price text and has no `$` at either end |
| Products.ParseIdFails | scraper.py:50 | the id parse fails (the `IndexError` path) exactly when the id text has no `:` |
| Products.ParseIdSecondPiece | scraper.py:50 | the id is the trimmed piece after the first `:`; with a second `:`, only the piece up to it is kept |
| Products.ParseRenderedId | scraper.py:49-50 | the rendered form `"ID: <id>"` parses to `<id>` when the id has no `:` and no surrounding whitespace |
| Products.StripDollarExample | scraper.py:65 | `"$1,234.50"` is stored as `"1,234.50"` |
| Products.StripDollarAll | scraper.py:65 | all leading and trailing `$` are removed: `"$$5$"` becomes `"5"` |
| Products.StripDollarKeepsSpace | scraper.py:65 | whitespace is not stripped, so `" $5"` is kept as it is |
| ScrapeSpec.StepItemGrows | scraper.py:52-70 | one item appends at most one record, only for a previously unseen id; records, ledger and checkpoint log only grow; the counter and the ledger either stay the same or both grow by one |
| ScrapeSpec.ScanItemsGrows | scraper.py:47-78 | a scan only appends records, each for an id unseen before the scan; checkpoints added ≤ records added ≤ ids counted; the counter grows by exactly the number of new ledger entries, at most one per item |
| ScrapeSpec.AppendInv | scraper.py:62-76 | appending the record of an unseen id, with its checkpoint when the count reaches a multiple of 10, keeps the invariant |
| ScrapeSpec.StepItemInv | scraper.py:48-78 | one iteration of the item loop keeps the invariant: distinct ids, every record id in the ledger, and the c-th checkpoint equal to the first 10·(c+1) records |
| ScrapeSpec.ScanItemsInv | scraper.py:47-78 | the item loop over a whole scan keeps the invariant |
| ScrapeSpec.PassesInv | scraper.py:39-87 | the invariant holds after every pass of the outer loop, from the empty start |
| ScrapeSpec.PassesGrow | scraper.py:39-87 | across passes, records are append-only, the ledger and checkpoint log only grow, and a record added after pass j has an id unseen at pass j |
| ScrapeSpec.DistinctIdsCount | scraper.py:52-54 | records with distinct ids, all in a set, are at most as many as the set's elements |
| ScrapeSpec.RecordsAtMostSeen | scraper.py:53-60 | every record's id is in the ledger and there are at most as many records as seen ids |
| ScrapeSpec.AtMostOneRecordPerId | scraper.py:52-70 | two records with the same id are the same record |
| ScrapeSpec.CheckpointLag | scraper.py:73-76 | the latest checkpoint is a prefix of the records and lags them by fewer than 10; before any checkpoint there are fewer than 10 records |
| ScrapeSpec.LaterSightingIgnored | scraper.py:52 | an item whose id is already in the ledger changes nothing, so a record keeps the fields of its first sighting |
| ScrapeSpec.FirstSightingAppends | scraper.py:52-76 | a first sighting with readable fields enters the id, counts it, appends exactly its record, and writes the records as a checkpoint exactly when their count is a multiple of 10 |
| ScrapeSpec.FailedFieldsMarkSeen | scraper.py:53-60 | a first sighting whose fields fail enters and counts the id and appends nothing |
| ScrapeSpec.FailedIdNeverRecorded | scraper.py:52-60 | an id that is seen but has no record never gets one in any later pass |
| ScrapeSpec.SkippedItemIsNoOp | scraper.py:47-78 | an item with no id element or no `:` in its id text is as if absent: the rest of the scan is processed exactly as without it |
| ScrapeSpec.NothingNewNoChange | scraper.py:45-87 | a pass counts no new id exactly when the ledger is unchanged, and then nothing else changes either |
| ScrapeSpec.EndsAfterScript | scraper.py:85-87 | the pass after the script is used up counts nothing new, so the loop ends |
| ScrapeSpec.StopsAtUnique | scraper.py:85-87 | the first pass with no new id is unique |
| ScrapeSpec.ThreeScans | scraper.py:43-87 | scans {A,B}, {A,B,C}, {A,B,C} count 2, 1 and 0 new ids, the loop stops after the third, and the records are A, B, C in first-seen order with A's first fields |
| ScrapeSpec.ThreeScanStates | scraper.py:43-87 | the exact state after each of those three passes |
| ScrapeSpec.FirstPassOfThree | scraper.py:47-76 | the first pass of that run keeps A and B and counts 2 |
| ScrapeSpec.SecondPassOfThree | scraper.py:47-76 | the second pass ignores A and B again and appends only C |
| ScrapeSpec.ThirdPassOfThree | scraper.py:47-78 | the third pass changes nothing |
| ScrapeSpec.AppendWithinBatch | scraper.py:70-76 | a first sighting that does not bring the record count to a multiple of 10 (e.g. the 15th record) appends its record and writes no checkpoint |
| Scraper.Scraper.constructor | scraper.py:39-40 | a scraper starts with no records, an empty ledger, no writes and no scrolls |
| Scraper.Scraper.ProcessItem | scraper.py:48-78 | one item changes the scraper's state exactly as `StepItem` does, and does not scroll |
| Scraper.Scraper.ScanPage | scraper.py:44-78 | one scan resets the counter and then follows `ScanItems`, keeping the invariant |
| Scraper.Scraper.ScanAndScroll | scraper.py:44-85 | one pass then one scroll: the state is that of the next pass, the loop invariant holds, and a pass that found something new read a scan of the script |
| Scraper.Scraper.ScrapeAllPages | scraper.py:33-94 | fails, changing nothing, when no item ever appears; otherwise stops after the first pass with no new id, with one scroll per pass, the records and ledger of that pass, one final save of all records after the checkpoints, and returns the record count |
| Scraper.ThreeScanRun | scraper.py:43-94 | rendered texts `"ID: <id>"` in the three-scan run give 3 exported products after 3 scrolls |

## Left out

- Browser automation: locators, CSS selectors, `inner_text`, `keyboard.press` and `wait_for_timeout`. Scans are given as a script, and a failed lookup is an absent id text or an absent field bundle.
- `wait_for_selector` with its 15-second timeout (scraper.py:37): the wait is not timed. It is modelled as the `ListNotVisible` failure when the script is empty or its first scan shows no item.
- File I/O and JSON formatting (scraper.py:75-76, 91-92): each write is modelled as appending the record list to the `saved` log, whose last entry is the file's content. Writes are assumed to succeed. A failing checkpoint write would be swallowed by the `except` after the record was appended.
- Which of the five field lookups fails: any failure drops the whole record, so the model carries the five texts as one optional bundle.
- `run`, `main`, session restore, login and the environment-variable credentials (scraper.py:13-30, 97-139): navigation and authentication with no state the loop depends on.
- Console output (`print`).
- A catalogue that keeps rendering new ids forever: the script is finite, and it reads as empty once used up.
- File contents from earlier runs: the `saved` log and the scroll count start empty for each call.
