# ringo-srs in Dafny

A model of `ringo-srs`, a command-line spaced-repetition store for
vocabulary items. It covers:

- the SM-2 variant scheduler (`sm2.rs`);
- the item and database records with their serde defaults (`models.rs`);
- the error type and the JSON envelopes (`error.rs`);
- the store's load, load-existing, save and self-heal steps (`storage.rs`);
- the command logic of `lib.rs`: prefix lookup, the review loop and its
  single and batch front ends, `add` with id generation and type detection,
  and `list` with its filters, due-sort and limit.

The files and their modules:

| file | module | models |
|---|---|---|
| `wrappers.dfy` | `Wrappers` | `Option` |
| `json.dfy` | `Json` | the `serde_json::Value` tree |
| `error.dfy` | `Errors` | `AppError`, `code`, `to_json`, `success_json` |
| `sm2.dfy` | `Sm2` | `review_correct`, `review_incorrect`, `next_review`, `compute_status` |
| `models.dfy` | `Models` | `LearningItem`, `accuracy`, `SrsDatabase`, `ReviewInput`, serde defaults and `flatten` |
| `storage.dfy` | `Storage` | `load`, `load_existing`, `save`, `self_heal` |
| `text.dfy` | `Text` | `char::is_whitespace`, `trim().is_empty()`, `split_whitespace().count()`, lowercase, `{:03}` |
| `iter.dfy` | `Iter` | the `filter` and `truncate` adapters the list command chains |
| `commands.dfy` | `Commands` | `lib.rs`: `cmd_add`, `cmd_list`, `cmd_review`, `review_single`, `review_batch`, `review_items`, `find_item_by_prefix`, `generate_id`, `auto_detect_type` |

Representation:

- **Numbers.** Ease, interval and accuracy are exact `real`s. Instants are
  whole seconds (`Models.Instant`). Counters are `nat`.
- **Outside inputs as parameters.** The clock, the date text of the clock,
  the RFC 3339 rendering of an instant, stdin and the file system are
  parameters of the model:
  - `Storage.FileProbe` is what reading the data file gives.
  - `Storage.WriteOutcome` is whether the atomic write went through.
  - `Commands.BatchSource` is what stdin gives.
- **In-place updates.** The two loops that update items in place stay
  imperative: `Storage.SelfHeal` and `Commands.ReviewLoop` run over an
  `array`. Each is proved equal to a function on sequences (`HealAll`,
  `ApplyReviews`), and the properties are proved about those functions.
- **Commands that write.** A command that saves returns a `Commands.Reply`
  holding the database it stores and the JSON it prints.

## Model

| member | source | states |
|---|---|---|
| Errors.Code | ringo-srs/src/error.rs:28-37 | the wire-code table: Duplicate gives "duplicate", NotFound "not_found", AmbiguousId "ambiguous_id", NoDataFile "no_data_file", InvalidInput "invalid_input"; the code is "io_error" exactly for I/O and JSON failures |
| Errors.CodeSeparatesVariants | ringo-srs/src/error.rs:28-37 | two errors with the same code are the same variant, except that I/O and JSON failures share one |
| Errors.CodeReachesEveryWireCode | ringo-srs/src/error.rs:28-37 | each of the six wire codes is produced by some error |
| Errors.Message | ringo-srs/src/error.rs:5-24 | no contract of its own; the display text of each variant, whose shape Errors.MessageCarriesPayload states |
| Errors.MessageCarriesPayload | ringo-srs/src/error.rs:5-24 | every message starts with the words of its variant and then quotes the error's front, prefix, path, reason or cause |
| Errors.ToJson | ringo-srs/src/error.rs:39-45 | the failure envelope has exactly the keys ok/error/message, with ok false and error the variant's code |
| Errors.SuccessJson | ringo-srs/src/error.rs:49-51 | the success envelope has exactly the keys ok/data, with ok true and the data unchanged |
| Errors.EnvelopesAreDistinguishable | ringo-srs/src/error.rs:39-51 | a failure envelope never equals a success envelope, and success_json is injective |
| Sm2.ReviewCorrect | ringo-srs/src/sm2.rs:5-26 | an ease at or above 1.3 stays there; the ease moves by at most 0.15, or lands on the 1.3 floor; the first two successes give an interval of at least one day; later, with ease at least 1, the interval never shrinks |
| Sm2.GrowthNeverShrinks | ringo-srs/src/sm2.rs:11-17 | an interval multiplied by an ease of at least 1 does not shrink |
| Sm2.ReviewIncorrect | ringo-srs/src/sm2.rs:30-33 | the interval resets to one day; the new ease is either e - 0.2 or the 1.3 floor, whichever is larger |
| Sm2.TruncateTowardZero | ringo-srs/src/sm2.rs:36-39 | the `as i64` cast drops the fraction toward zero, for either sign |
| Sm2.NextReview | ringo-srs/src/sm2.rs:36-39 | the next review is now plus the interval in seconds, truncated toward zero; it is never before now for a non-negative interval |
| Sm2.ComputeStatus | ringo-srs/src/sm2.rs:42-61 | the status is one of four strings; each of "new", "mastered" and "reviewing" holds exactly under its condition in the first-match chain; a missing accuracy never gives "mastered" |
| Sm2.EarlySuccessesHaveFixedSteps | ringo-srs/src/sm2.rs:67-80 | a first success gives 1 day and a second gives 3 days, whatever the prior interval and ease |
| Sm2.LaterSuccessesGrowGeometrically | ringo-srs/src/sm2.rs:81-87 | from the third success on, the interval is the prior interval times the ease (3 with 2.5 gives 7.5) |
| Sm2.DifficultyAdjustsEase | ringo-srs/src/sm2.rs:18-22 | "easy" adds 0.15 with no ceiling; "hard" subtracts 0.15 floored at 1.3; any other string keeps the ease; the difficulty never changes the interval |
| Sm2.IncorrectFloorExamples | ringo-srs/src/sm2.rs:108-126 | a miss from 2.5 gives 2.3; a miss from 1.3 or 1.4 gives the 1.3 floor |
| Sm2.NextReviewWholeDays | ringo-srs/src/sm2.rs:127-134 | a whole number of days d moves the next review by exactly d * 86400 seconds |
| Sm2.ComputeStatusIgnoresClock | ringo-srs/src/sm2.rs:42-48 | the status does not depend on the two clock arguments |
| Sm2.ComputeStatusBoundaries | ringo-srs/src/sm2.rs:49-60 | each threshold of the chain met exactly and just missed: interval 0, 30 days at 90% after 5 quizzes, 89.9%, 4 quizzes, 7 days, 6.99 days |
| Sm2.ComputeStatusExamples | ringo-srs/src/sm2.rs:135-169 | the six status cases of the scheduler's tests: new, learning, reviewing, mastered, and reviewing for low accuracy and for too few quizzes |
| Sm2.HardThirdReviewExample | ringo-srs/src/sm2.rs:95-100 | a "hard" third success from ease 2.5 and interval 3 gives interval 7.5, ease 2.35 and status "reviewing" |
| Models.Accuracy | ringo-srs/src/models.rs:49-56 | absent exactly when never quizzed; otherwise the value times the quiz count equals 100 times the correct count; within [0, 100] while correct <= quizzed |
| Models.NewDatabase | ringo-srs/src/models.rs:69-76 | version "1.0", stamped with now, no items |
| Models.UnknownFields | ringo-srs/src/models.rs:44-46 | the extra bag holds exactly the keys that are not typed fields, with their values untouched |
| Models.ItemFromRaw | ringo-srs/src/models.rs:17-47 | each missing defaulted key takes its serde default (0, 0, 2.5, 0, "new"); every present key is taken unchanged; the extra bag is the object's pairs under keys that are not typed fields, so it never holds a typed key |
| Models.RawOfItem | ringo-srs/src/models.rs:17-47 | no contract of its own; the derived Serialize of an item, with every defaulted key written; Models.ItemRoundTrip states that reading it back gives the item |
| Models.ItemRoundTrip | ringo-srs/src/models.rs:17-47 | writing an item whose extra bag holds no typed key and reading it back gives the same item, extras included |
| Models.DatabaseFromRaw | ringo-srs/src/models.rs:59-67 | the version defaults to "1.0" and the items to none; items are read one for one, in order; no read item has a typed key in its extra bag |
| Models.RawOfDatabase | ringo-srs/src/models.rs:59-67 | no contract of its own; the derived Serialize of the database that save writes; Models.DatabaseRoundTrip and Storage.SaveThenLoadRoundTrip state that reading it back gives the database |
| Models.DatabaseRoundTrip | ringo-srs/src/models.rs:59-67 | writing a database whose extra bags hold no typed key and reading it back gives the same database |
| Storage.DerivedStatus | ringo-srs/src/storage.rs:70 | no contract of its own; the compute_status call on an item's own fields, whose meaning Sm2.ComputeStatus states and which Storage.HealItem and Storage.HealAllRepairs establish |
| Storage.HealItem | ringo-srs/src/storage.rs:60-70 | the repaired item is healthy; the ease is clamped up to 1.3; the correct count is clamped down to the quiz count; no other field except the status changes |
| Storage.HealAll | ringo-srs/src/storage.rs:58-72 | the repair pass as a value: same length, every item healthy; Storage.HealAllRepairs states each item's repair and Storage.SelfHeal is proved equal to it |
| Storage.HealItemFixesHealthy | ringo-srs/src/storage.rs:58-72 | a healthy item is left exactly as it is |
| Storage.SelfHeal | ringo-srs/src/storage.rs:58-72 | the in-place pass leaves the array equal to every item repaired, slot for slot |
| Storage.HealAllRepairs | ringo-srs/src/storage.rs:148-177 | after the pass every item is healthy, an ease already >= 1.3 is kept, an excess correct count becomes the quiz count, and all other fields are untouched |
| Storage.HealAllFixesHealthy | ringo-srs/src/storage.rs:58-72 | the pass changes nothing in a healthy collection |
| Storage.HealAllIdempotent | ringo-srs/src/storage.rs:58-72 | running the pass twice equals running it once, whatever the clock |
| Storage.Load | ringo-srs/src/storage.rs:10-18 | a missing file gives the empty database; read and parse failures give IoError and JsonError; a parsed file gives its version, its last_updated stamp and its items repaired; every loaded item is healthy and has no typed key in its extra bag |
| Storage.LoadExisting | ringo-srs/src/storage.rs:21-29 | a missing file gives NoDataFile(path); otherwise the result is that of load |
| Storage.Save | ringo-srs/src/storage.rs:32-55 | a failed write gives IoError; otherwise the database is stored whole, stamped with now |
| Storage.SaveThenLoadRoundTrip | ringo-srs/src/storage.rs:102-114 | saving healthy items with no typed key in an extra bag (as every loaded item is) and loading the file again, with either loader, gives back exactly what was stored |
| Text.IsWhitespace | ringo-srs/src/lib.rs:346 | no contract of its own; char::is_whitespace as the Unicode White_Space set, which trim and split_whitespace both use |
| Text.IsBlank | ringo-srs/src/lib.rs:58-60 | no contract of its own; trim().is_empty(), which Text.WordCountPositive ties to the token count |
| Text.WordCount | ringo-srs/src/lib.rs:346 | no contract of its own; split_whitespace().count(), whose meaning Text.WordCountPositive and Text.WordCountAtLeastTwo state |
| Text.WordCountPositive | ringo-srs/src/lib.rs:58-60 | there is at least one token exactly when the text is not blank |
| Text.WordCountAtLeastTwo | ringo-srs/src/lib.rs:345-352 | split_whitespace yields two or more tokens exactly when a non-space, then a space, then a non-space occur |
| Text.ToLower | ringo-srs/src/lib.rs:65-66 | the lowercase text keeps its length, has no capitals left, and keeps every character that is not a capital |
| Text.Decimal | ringo-srs/src/lib.rs:340-343 | digits only, no leading zero, and its value is n |
| Text.LeadingZerosIgnored | ringo-srs/src/lib.rs:340-343 | zero padding does not change a numeral's value |
| Text.ZeroPadded | ringo-srs/src/lib.rs:340-343 | zero padding to a width: the value is n, the length is the larger of the width and the number of digits, and there is no leading zero when longer than the width |
| Iter.Filter | ringo-srs/src/lib.rs:124-143 | the kept elements are never more than the given ones; Iter.FilterMembers, Iter.FilterCounts and Iter.FilterConcat state which are kept and in what order |
| Iter.FilterMembers | ringo-srs/src/lib.rs:124-143 | the kept elements are exactly the elements satisfying the predicate |
| Iter.FilterCounts | ringo-srs/src/lib.rs:124-143 | each element is kept exactly as often as it occurs when it satisfies the predicate, and dropped otherwise |
| Iter.FilterConcat | ringo-srs/src/lib.rs:124-143 | filtering commutes with concatenation, so the relative order is kept |
| Iter.Truncate | ringo-srs/src/lib.rs:147-149 | the result is a prefix of length min(n, len) |
| Commands.MatchingIndices | ringo-srs/src/lib.rs:326-331 | the matches are exactly the positions whose id starts with the prefix, in ascending order |
| Commands.FindItemByPrefix | ringo-srs/src/lib.rs:321-338 | Ok(i) exactly when i is the only id with that prefix; NotFound exactly when no id has it; AmbiguousId exactly when two do |
| Commands.FindDependsOnlyOnIds | ringo-srs/src/lib.rs:326-331 | the lookup sees nothing but the ids |
| Commands.ScheduleFor | ringo-srs/src/lib.rs:223-232 | the schedule a review asks for: a miss gives one day; an early success at least one day; an ease at or above 1.3 stays there; Commands.MissIgnoresDifficulty and Commands.MissingDifficultyIsGood state the difficulty's role |
| Commands.ResultJson | ringo-srs/src/lib.rs:250-256 | no contract of its own; the per-input result object (id, result, next_review, interval_days, status) that Commands.ApplyReviews collects |
| Commands.ReviewedItem | ringo-srs/src/lib.rs:223-250 | only "correct" bumps the correct count; the quiz count always goes up by one; the schedule is the scheduler's; last quizzed is now and the next review is now plus the interval; the status is rederived; identity and extras are kept; a healthy item stays healthy |
| Commands.MissIgnoresDifficulty | ringo-srs/src/lib.rs:226-232 | on a miss the difficulty is ignored and the interval is one day |
| Commands.MissingDifficultyIsGood | ringo-srs/src/lib.rs:224 | a missing difficulty behaves as "good" |
| Commands.HardThirdReview | ringo-srs/src/lib.rs:223-250 | a "hard" third success from ease 2.5 and interval 3 stores interval 7.5, ease 2.35 and status "reviewing" |
| Commands.ApplyReviews | ringo-srs/src/lib.rs:219-257 | the review loop as a value: on success, as many items as before and one result per input; Commands.ApplyReviewsPreserves, Commands.ApplyReviewsOnlyTouchesMatches, Commands.ApplyReviewsFailure and Commands.ApplyReviewsFailureSticks state the rest, and Commands.ReviewLoop is proved equal to it |
| Commands.CountCorrect | ringo-srs/src/lib.rs:226-232 | the correct count never exceeds the number of inputs |
| Commands.ApplyReviewsPreserves | ringo-srs/src/lib.rs:219-257 | the loop keeps the collection's length and gives one result per input; each item keeps its identity and extras; a healthy collection stays healthy, and extra bags free of typed keys stay so |
| Commands.ApplyReviewsOnlyTouchesMatches | ringo-srs/src/lib.rs:219-221 | an item that no input's prefix matches comes out unchanged |
| Commands.ApplyReviewsFailure | ringo-srs/src/lib.rs:220 | a failure is NotFound or AmbiguousId naming one of the inputs' prefixes |
| Commands.ApplyReviewsFailureSticks | ringo-srs/src/lib.rs:219-220 | once a prefix fails to resolve, the whole batch fails with that error |
| Commands.ReviewResponse | ringo-srs/src/lib.rs:261-268 | no contract of its own; the success envelope with the results and the summary totals, which Commands.ReviewItemsSuccess fixes to the input count and the correct and incorrect counts |
| Commands.ReviewItemsOutcome | ringo-srs/src/lib.rs:210-269 | review_items as a value: no file is NoDataFile; success means the write went through and the store is stamped with now; Commands.ReviewItemsFailures and Commands.ReviewItemsSuccess state the rest, and Commands.ReviewItems is proved equal to it |
| Commands.ReviewItemsFailures | ringo-srs/src/lib.rs:210-259 | no file, an unreadable or unparsable file, an unresolved prefix and a failed write each give their error; success needs the file and a written save |
| Commands.ReviewItemsSuccess | ringo-srs/src/lib.rs:210-269 | on success the stored database is the loaded one with the reviewed items, stamped with now; every item is healthy, keeps its identity and extras, and has no typed key in its extra bag; unmatched items are untouched; the summary counts are the correct and incorrect inputs |
| Commands.ApplyReview | ringo-srs/src/lib.rs:223-250 | the field-by-field update of one matched item equals the reviewed item |
| Commands.ReviewLoop | ringo-srs/src/lib.rs:219-257 | the in-place loop over the buffer gives the loop's value, and its counters are the number of correct and of other inputs |
| Commands.ReviewItems | ringo-srs/src/lib.rs:210-269 | load-existing, loop and save give the outcome the two lemmas above describe |
| Commands.ReviewSingle | ringo-srs/src/lib.rs:186-198 | single mode is the review of a one-element batch built from the arguments |
| Commands.ReviewBatch | ringo-srs/src/lib.rs:200-208 | a stdin read failure is IoError; unparsable input is InvalidInput("Invalid JSON: ..."); an empty array is InvalidInput("Empty review array"); otherwise the batch is reviewed |
| Commands.CmdReview | ringo-srs/src/lib.rs:171-184 | single mode runs exactly when both id and result are given; otherwise batch mode runs, and it fails with IoError or InvalidInput unless stdin holds a non-empty array |
| Commands.GenerateId | ringo-srs/src/lib.rs:340-343 | "item_", the date and "_", then digits denoting count + 1, at least three wide and with no leading zero beyond that |
| Commands.GenerateIdExample | ringo-srs/src/lib.rs:373-378 | the 16th item on 2026-02-06 gets "item_20260206_016" |
| Commands.AutoDetectType | ringo-srs/src/lib.rs:345-352 | "phrase" exactly when the text holds two whitespace-separated tokens, "word" otherwise |
| Commands.AutoDetectTypeExamples | ringo-srs/src/lib.rs:358-371 | "implement" is a word; "go shopping" and "break the ice" are phrases |
| Commands.HasFront | ringo-srs/src/lib.rs:65-66 | no contract of its own; the case-insensitive duplicate test, whose outcome Commands.AddFailures and Commands.AddAfterLoad state |
| Commands.NewItem | ringo-srs/src/lib.rs:76-95 | the new item is never quizzed, due one day after now, healthy, with status "new" and an empty extra bag; Commands.AddAppendsOneItem states every field as stored |
| Commands.AddedJson | ringo-srs/src/lib.rs:98-107 | no contract of its own; the printed id, front, back, type and total, which Commands.AddAppendsOneItem ties to the stored item and the new total |
| Commands.CmdAdd | ringo-srs/src/lib.rs:49-112 | a blank front or back is InvalidInput with the required-fields message; success means the write went through and the store is stamped with now; Commands.AddFailures, Commands.AddAppendsOneItem and Commands.AddKeepsFlattened state the rest |
| Commands.AddToLoaded | ringo-srs/src/lib.rs:64-111 | after the load: a duplicate front is Duplicate(front); success appends exactly one item and keeps the others in place; Commands.AddAfterLoad states the rest |
| Commands.AddFailures | ringo-srs/src/lib.rs:57-68 | a blank front or back is refused before the file is read; then load errors; then a case-insensitive duplicate front; then a failed write; success exactly otherwise |
| Commands.AddAfterLoad | ringo-srs/src/lib.rs:64-110 | after the load: a duplicate front is refused; then a failed write; success exactly otherwise |
| Commands.AddAppendsOneItem | ringo-srs/src/lib.rs:70-111 | success appends exactly one item at the end and keeps the others. The new item has the generated id, the given or detected type, no quizzes, ease 2.5, interval 0 and status "new", and is due one day later. Every stored item is healthy, and the response names the item and the new total |
| Commands.AddKeepsFlattened | ringo-srs/src/lib.rs:62-110 | no item a successful add stores has a typed key in its extra bag |
| Commands.IsDue | ringo-srs/src/lib.rs:125 | no contract of its own; the --due test, whose listing Commands.DueItems and Commands.DueListing state |
| Commands.IsWeak | ringo-srs/src/lib.rs:134-140 | no contract of its own; the --weak test, which Commands.WeakMeansLowRatio restates as a ratio and Commands.WeakListing uses |
| Commands.WeakMeansLowRatio | ringo-srs/src/lib.rs:134-140 | weak means quizzed at least twice with fewer than 70 correct per 100 quizzes |
| Commands.DueOrder | ringo-srs/src/lib.rs:127-131 | no contract of its own; the comparator, earlier next review first and then lower ease, which Commands.SortByDueSorted and Commands.SortByDueStable state the sort follows |
| Commands.InsertByDue | ringo-srs/src/lib.rs:127-131 | one insertion step adds exactly the inserted element |
| Commands.SortByDue | ringo-srs/src/lib.rs:125-131 | the due sort is a permutation |
| Commands.InsertByDueSorted | ringo-srs/src/lib.rs:127-131 | inserting into a sorted list keeps it sorted by (next review, ease) |
| Commands.SortByDueSorted | ringo-srs/src/lib.rs:127-131 | the due sort is sorted by (next review, ease) and is a permutation |
| Commands.InsertByDueStable | ringo-srs/src/lib.rs:127-131 | an inserted element lands after every element with the same key |
| Commands.SortByDueStable | ringo-srs/src/lib.rs:127-131 | the sort is stable: items with equal keys keep their stored order |
| Commands.SortByDueMembers | ringo-srs/src/lib.rs:125-131 | the sort keeps exactly the elements it was given |
| Commands.DueItems | ringo-srs/src/lib.rs:124-133 | the due listing is sorted, and every item in it is stored and due |
| Commands.ChosenItems | ringo-srs/src/lib.rs:124-145 | --due wins over --weak, which wins over --status; every chosen item passes the winning test; with no filter, all items are chosen in order |
| Commands.PrefixSorted | ringo-srs/src/lib.rs:147-149 | the limit keeps a sorted listing sorted |
| Commands.ListSelection | ringo-srs/src/lib.rs:124-149 | the limit bounds the length; listed items are stored items passing the winning filter; --due listings are sorted; no filter and no limit lists everything |
| Commands.DueListing | ringo-srs/src/lib.rs:124-133 | without a limit, --due lists exactly the due items, each as often as it occurs, with ties in stored order |
| Commands.WeakListing | ringo-srs/src/lib.rs:134-140 | without a limit, --weak lists exactly the weak items, in stored order, each as often as it is stored |
| Commands.StatusListing | ringo-srs/src/lib.rs:141-142 | without a limit, --status s lists exactly the items with status s, in stored order, each as often as it is stored |
| Commands.LimitKeepsPrefix | ringo-srs/src/lib.rs:147-149 | --limit n keeps the first n items of the unlimited listing |
| Commands.OptionalStr | ringo-srs/src/lib.rs:158-159 | no contract of its own; an absent context prints as null |
| Commands.ListedJson | ringo-srs/src/lib.rs:152-161 | no contract of its own; the summary of one listed item, which Commands.ListData lists in order |
| Commands.ListData | ringo-srs/src/lib.rs:151-168 | the data holds exactly count and items; the count is the number of listed items; items are their summaries, in order |
| Commands.CmdList | ringo-srs/src/lib.rs:114-169 | a missing file is NoDataFile; any load error is returned as is; otherwise the success envelope carries the listing |

## Left out

- The file system side of `save` is not modelled: pretty-printing, creating
  the parent directory, the `.json.bak` backup, the temporary file and the
  rename. The model keeps only whether the write went through
  (`WriteOutcome`), so every failure of those steps is one `IoError`.
- JSON text parsing and printing are not modelled. A parsed file is a
  `RawDatabase` with `None` for absent defaulted keys. A parse failure is
  `Malformed(cause)`, and the cause text is not derived.
- Clock reads and chrono are not modelled:
  - `Utc::now()` is the parameter `now`, and one `now` serves both the
    command and the repair pass inside its load.
  - The `%Y%m%d` date text of `now` is the parameter `date`.
  - RFC 3339 rendering is the parameter `rfc3339`.
  - Instants are whole seconds, so sub-second precision is not modelled.
- IEEE floats are not modelled; ease, interval and accuracy are exact reals.
  This leaves out rounding (2.5 - 0.15 is exactly 2.35 here), NaN, and the
  panic of `partial_cmp().unwrap()` in the due sort on a NaN ease.
- Sm2.NextReview: the saturation of the float-to-`i64` cast and chrono's
  overflow on far-future instants are not modelled.
- Commands.ReviewedItem: the `u32` counters are unbounded naturals, so the
  wrap-around (a debug-build panic) after 2^32 - 1 reviews is not modelled.
- Commands.ReviewLoop: the `u32` totals are unbounded naturals as well.
- Text.ToLower: it lowercases ASCII capitals only. The full Unicode
  `to_lowercase` (multi-character expansions, non-Latin scripts) is not
  modelled, so the duplicate check of `cmd_add` is exact only for ASCII
  fronts.
- Reading stdin (`read_stdin`) is not modelled: batch mode receives a
  `BatchSource`, which is a read failure, a parse failure or the parsed
  array.
- `cmd_stats`, the `run` dispatcher, `cli.rs` and `main.rs` (argument
  parsing, printing and exit codes) are not part of this model.
- `write_json` is not modelled (it is printing only).
- Concurrent invocations are not modelled. Two processes can both load,
  change and save, and the later save wins.
- find_item_by_prefix returns a mutable reference in the source; the model
  returns the index of the match, and the loop updates that slot of its
  buffer.
