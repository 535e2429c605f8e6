/**
  The command logic between argument parsing and the disk: prefix lookup,
  the review loop, adding an item, listing with filters, and the helpers
  that name and classify a new item. The clock, the date text of the clock,
  the RFC 3339 rendering of instants, stdin and the file system are inputs.
 */
module Commands {
  import opened Wrappers
  import opened Errors
  import opened Models
  import opened Storage
  import Sm2
  import Json
  import Text
  import Iter

  /** What a state-changing command leaves on disk, and what it prints. */
  datatype Reply = Reply(stored: SrsDatabase, response: Json.Value)

  // ---- find_item_by_prefix ----

  /** The positions of the items whose id starts with `prefix`, ascending. */
  function MatchingIndices(items: seq<LearningItem>, prefix: string): (m: seq<nat>)
    ensures forall k :: 0 <= k < |m| ==> m[k] < |items| && prefix <= items[m[k]].id
    ensures forall i :: 0 <= i < |items| && prefix <= items[i].id ==> i in m
    ensures forall k, l :: 0 <= k < l < |m| ==> m[k] < m[l]
  {
    if |items| == 0 then []
    else
      var n := |items| - 1;
      MatchingIndices(items[..n], prefix) + (if prefix <= items[n].id then [n] else [])
  }

  /**
    `find_item_by_prefix`: the unique item whose id starts with the prefix;
    `NotFound` when none does, `AmbiguousId` when two or more do.
   */
  function FindItemByPrefix(items: seq<LearningItem>, prefix: string): (r: Result<nat>)
    ensures r.Ok? ==> r.value < |items| && prefix <= items[r.value].id
    ensures r.Ok? ==> forall j :: 0 <= j < |items| && prefix <= items[j].id ==> j == r.value
    ensures r == Err(NotFound(prefix)) <==> forall j :: 0 <= j < |items| ==> !(prefix <= items[j].id)
    ensures r == Err(AmbiguousId(prefix)) <==>
              exists i, j :: 0 <= i < j < |items| && prefix <= items[i].id && prefix <= items[j].id
    ensures r.Ok? || r == Err(NotFound(prefix)) || r == Err(AmbiguousId(prefix))
  {
    var m := MatchingIndices(items, prefix);
    if |m| == 0 then Err(NotFound(prefix))
    else if |m| == 1 then Ok(m[0])
    else
      assert prefix <= items[m[0]].id && prefix <= items[m[1]].id;
      Err(AmbiguousId(prefix))
  }

  /** The prefix lookup sees only ids. */
  lemma {:induction false} FindDependsOnlyOnIds(items: seq<LearningItem>, items': seq<LearningItem>, prefix: string)
    requires |items| == |items'|
    requires forall i :: 0 <= i < |items| ==> items[i].id == items'[i].id
    ensures FindItemByPrefix(items, prefix) == FindItemByPrefix(items', prefix)
  {
    MatchingIndicesDependOnlyOnIds(items, items', prefix);
  }

  lemma {:induction false} MatchingIndicesDependOnlyOnIds(items: seq<LearningItem>, items': seq<LearningItem>, prefix: string)
    requires |items| == |items'|
    requires forall i :: 0 <= i < |items| ==> items[i].id == items'[i].id
    ensures MatchingIndices(items, prefix) == MatchingIndices(items', prefix)
  {
    if |items| > 0 {
      var n := |items| - 1;
      MatchingIndicesDependOnlyOnIds(items[..n], items'[..n], prefix);
    }
  }

  // ---- one review ----

  /** The difficulty used when the input gives none. */
  const DefaultDifficulty: string := "good"

  /** The schedule a review asks for: the success rule with the difficulty (default "good"), or the miss rule. */
  function ScheduleFor(item: LearningItem, input: ReviewInput): (schedule: Sm2.Schedule)
    ensures input.result != "correct" ==> schedule.intervalDays == 1.0
    ensures input.result == "correct" && item.timesQuizzed < 2 ==> schedule.intervalDays >= 1.0
    ensures item.easeFactor >= Sm2.MinEase ==> schedule.easeFactor >= Sm2.MinEase
  {
    if input.result == "correct" then
      Sm2.ReviewCorrect(item.timesQuizzed, item.intervalDays, item.easeFactor, input.difficulty.UnwrapOr(DefaultDifficulty))
    else
      Sm2.ReviewIncorrect(item.easeFactor)
  }

  /** Every field a review leaves alone: identity, texts, type, creation instant and the extra bag. */
  predicate SameIdentity(x: LearningItem, y: LearningItem) {
    && x.id == y.id && x.itemType == y.itemType && x.front == y.front && x.back == y.back
    && x.context == y.context && x.contextJa == y.contextJa && x.source == y.source
    && x.createdAt == y.createdAt && x.extra == y.extra
  }

  /**
    The update of one matched item in `review_items`. Only a result of
    exactly "correct" counts as correct: it bumps both counters, anything
    else bumps only the quiz count. The interval and ease are the scheduler's,
    the quiz instant is now, the next review is now plus the new interval,
    and the status is recomputed from the new fields. A healthy item stays
    healthy.
   */
  function ReviewedItem(item: LearningItem, input: ReviewInput, now: Instant): (reviewed: LearningItem)
    ensures input.result == "correct" ==>
              reviewed.timesQuizzed == item.timesQuizzed + 1 && reviewed.timesCorrect == item.timesCorrect + 1
    ensures input.result != "correct" ==>
              reviewed.timesQuizzed == item.timesQuizzed + 1 && reviewed.timesCorrect == item.timesCorrect
    ensures Sm2.Schedule(reviewed.intervalDays, reviewed.easeFactor) == ScheduleFor(item, input)
    ensures reviewed.lastQuizzed == Some(now) && reviewed.nextReview == Sm2.NextReview(now, reviewed.intervalDays)
    ensures reviewed.status == DerivedStatus(reviewed)
    ensures SameIdentity(reviewed, item)
    ensures Healthy(item) ==> Healthy(reviewed)
  {
    var schedule := ScheduleFor(item, input);
    var correct := if input.result == "correct" then item.timesCorrect + 1 else item.timesCorrect;
    var updated := item.(
      intervalDays := schedule.intervalDays,
      easeFactor := schedule.easeFactor,
      timesQuizzed := item.timesQuizzed + 1,
      timesCorrect := correct,
      lastQuizzed := Some(now),
      nextReview := Sm2.NextReview(now, schedule.intervalDays));
    updated.(status := Sm2.ComputeStatus(updated.intervalDays, Accuracy(updated), updated.timesQuizzed, now, updated.nextReview))
  }

  /** On a miss the difficulty is ignored. */
  lemma MissIgnoresDifficulty(item: LearningItem, input: ReviewInput, difficulty: Option<string>, now: Instant)
    requires input.result != "correct"
    ensures ReviewedItem(item, input, now) == ReviewedItem(item, input.(difficulty := difficulty), now)
    ensures ReviewedItem(item, input, now).intervalDays == 1.0
  {
  }

  /** A missing difficulty behaves as "good". */
  lemma MissingDifficultyIsGood(item: LearningItem, id: string, result: string, now: Instant)
    ensures ReviewedItem(item, ReviewInput(id, result, None), now)
         == ReviewedItem(item, ReviewInput(id, result, Some(DefaultDifficulty)), now)
  {
  }

  /** The end-to-end case: ease 2.5, interval 3, quizzed twice, answered correctly and "hard". */
  lemma HardThirdReview(item: LearningItem, id: string, now: Instant)
    requires item.easeFactor == 2.5 && item.intervalDays == 3.0 && item.timesQuizzed == 2 && item.timesCorrect == 2
    ensures ReviewedItem(item, ReviewInput(id, "correct", Some("hard")), now).intervalDays == 7.5
    ensures ReviewedItem(item, ReviewInput(id, "correct", Some("hard")), now).easeFactor == 2.35
    ensures ReviewedItem(item, ReviewInput(id, "correct", Some("hard")), now).status == "reviewing"
  {
    var reviewed := ReviewedItem(item, ReviewInput(id, "correct", Some("hard")), now);
    assert Accuracy(reviewed) == Some(100.0);
  }

  // ---- review_items ----

  /** The state of the review loop: the items so far and the per-input result objects. */
  datatype Progress = Progress(items: seq<LearningItem>, results: seq<Json.Value>)

  /** The result object printed for one review. */
  function ResultJson(item: LearningItem, input: ReviewInput, rfc3339: Instant -> string): Json.Value {
    Json.Object(map[
      "id" := Json.Str(item.id),
      "result" := Json.Str(input.result),
      "next_review" := Json.Str(rfc3339(item.nextReview)),
      "interval_days" := Json.Number(item.intervalDays),
      "status" := Json.Str(item.status)])
  }

  /**
    The review loop as a value: the inputs in order, each resolved by prefix
    against the current items and applied to its match; the first lookup
    failure ends it with that error.
   */
  function ApplyReviews(items: seq<LearningItem>, inputs: seq<ReviewInput>, now: Instant, rfc3339: Instant -> string): (r: Result<Progress>)
    ensures r.Ok? ==> |r.value.items| == |items| && |r.value.results| == |inputs|
  {
    if |inputs| == 0 then Ok(Progress(items, []))
    else
      var input := inputs[|inputs| - 1];
      match ApplyReviews(items, inputs[..|inputs| - 1], now, rfc3339)
      case Err(e) => Err(e)
      case Ok(progress) =>
        match FindItemByPrefix(progress.items, input.id)
        case Err(e) => Err(e)
        case Ok(i) =>
          var reviewed := ReviewedItem(progress.items[i], input, now);
          Ok(Progress(progress.items[i := reviewed], progress.results + [ResultJson(reviewed, input, rfc3339)]))
  }

  /** How many inputs carry the result "correct". */
  function CountCorrect(inputs: seq<ReviewInput>): (n: nat)
    ensures n <= |inputs|
  {
    if |inputs| == 0 then 0
    else CountCorrect(inputs[..|inputs| - 1]) + (if inputs[|inputs| - 1].result == "correct" then 1 else 0)
  }

  /**
    The loop keeps the shape of the collection: same length, one result per
    input, every item keeps its identity fields and extra bag, and a healthy
    collection stays healthy.
   */
  lemma {:induction false} ApplyReviewsPreserves(items: seq<LearningItem>, inputs: seq<ReviewInput>, now: Instant, rfc3339: Instant -> string)
    requires ApplyReviews(items, inputs, now, rfc3339).Ok?
    ensures var p := ApplyReviews(items, inputs, now, rfc3339).value;
      && |p.items| == |items| && |p.results| == |inputs|
      && (forall j :: 0 <= j < |items| ==> SameIdentity(p.items[j], items[j]))
      && (AllHealthy(items) ==> AllHealthy(p.items))
      && (AllFlattened(items) ==> AllFlattened(p.items))
  {
    if |inputs| > 0 {
      ApplyReviewsPreserves(items, inputs[..|inputs| - 1], now, rfc3339);
    }
  }

  /** An item that no input's id is a prefix of comes out of the loop unchanged. */
  lemma {:induction false} ApplyReviewsOnlyTouchesMatches(items: seq<LearningItem>, inputs: seq<ReviewInput>, now: Instant, rfc3339: Instant -> string, j: nat)
    requires ApplyReviews(items, inputs, now, rfc3339).Ok?
    requires j < |items|
    requires forall k :: 0 <= k < |inputs| ==> !(inputs[k].id <= items[j].id)
    ensures j < |ApplyReviews(items, inputs, now, rfc3339).value.items|
    ensures ApplyReviews(items, inputs, now, rfc3339).value.items[j] == items[j]
  {
    ApplyReviewsPreserves(items, inputs, now, rfc3339);
    if |inputs| > 0 {
      var init := inputs[..|inputs| - 1];
      ApplyReviewsOnlyTouchesMatches(items, init, now, rfc3339, j);
      ApplyReviewsPreserves(items, init, now, rfc3339);
    }
  }

  /** A failure is the lookup failure of one of the inputs' prefixes. */
  lemma {:induction false} ApplyReviewsFailure(items: seq<LearningItem>, inputs: seq<ReviewInput>, now: Instant, rfc3339: Instant -> string)
    requires ApplyReviews(items, inputs, now, rfc3339).Err?
    ensures exists k :: (0 <= k < |inputs| &&
      (ApplyReviews(items, inputs, now, rfc3339).error == NotFound(inputs[k].id) ||
       ApplyReviews(items, inputs, now, rfc3339).error == AmbiguousId(inputs[k].id)))
  {
    var init := inputs[..|inputs| - 1];
    if ApplyReviews(items, init, now, rfc3339).Err? {
      ApplyReviewsFailure(items, init, now, rfc3339);
      var k :| 0 <= k < |init| &&
        (ApplyReviews(items, init, now, rfc3339).error == NotFound(init[k].id) ||
         ApplyReviews(items, init, now, rfc3339).error == AmbiguousId(init[k].id));
      assert inputs[k] == init[k];
    } else {
      var last := |inputs| - 1;
      var progress := ApplyReviews(items, init, now, rfc3339).value;
      assert ApplyReviews(items, inputs, now, rfc3339).error == FindItemByPrefix(progress.items, inputs[last].id).error;
    }
  }

  /** Once a prefix fails to resolve, the whole batch fails with that error. */
  lemma {:induction false} ApplyReviewsFailureSticks(items: seq<LearningItem>, inputs: seq<ReviewInput>, k: nat, now: Instant, rfc3339: Instant -> string)
    requires k <= |inputs|
    requires ApplyReviews(items, inputs[..k], now, rfc3339).Err?
    ensures ApplyReviews(items, inputs, now, rfc3339) == ApplyReviews(items, inputs[..k], now, rfc3339)
    decreases |inputs| - k
  {
    if k < |inputs| {
      assert inputs[..k + 1][..k] == inputs[..k];
      ApplyReviewsFailureSticks(items, inputs, k + 1, now, rfc3339);
    } else {
      assert inputs[..k] == inputs;
    }
  }

  /** One more input whose prefix resolves: the loop state advances by one review. */
  lemma ApplyReviewsAdvance(items: seq<LearningItem>, inputs: seq<ReviewInput>, k: nat, now: Instant, rfc3339: Instant -> string,
                            progress: Progress, i: nat)
    requires k < |inputs|
    requires ApplyReviews(items, inputs[..k], now, rfc3339) == Ok(progress)
    requires FindItemByPrefix(progress.items, inputs[k].id) == Ok(i)
    ensures i < |progress.items|
    ensures ApplyReviews(items, inputs[..k + 1], now, rfc3339)
         == Ok(Progress(progress.items[i := ReviewedItem(progress.items[i], inputs[k], now)],
                        progress.results + [ResultJson(ReviewedItem(progress.items[i], inputs[k], now), inputs[k], rfc3339)]))
  {
    assert inputs[..k + 1][..k] == inputs[..k];
  }

  /** One more input whose prefix does not resolve: the whole batch fails with its error. */
  lemma ApplyReviewsHalt(items: seq<LearningItem>, inputs: seq<ReviewInput>, k: nat, now: Instant, rfc3339: Instant -> string,
                         progress: Progress, e: AppError)
    requires k < |inputs|
    requires ApplyReviews(items, inputs[..k], now, rfc3339) == Ok(progress)
    requires FindItemByPrefix(progress.items, inputs[k].id) == Err(e)
    ensures ApplyReviews(items, inputs, now, rfc3339) == Err(e)
  {
    assert inputs[..k + 1][..k] == inputs[..k];
    ApplyReviewsFailureSticks(items, inputs, k + 1, now, rfc3339);
  }

  lemma CountCorrectStep(inputs: seq<ReviewInput>, k: nat)
    requires k < |inputs|
    ensures CountCorrect(inputs[..k + 1]) == CountCorrect(inputs[..k]) + (if inputs[k].result == "correct" then 1 else 0)
  {
    assert inputs[..k + 1][..k] == inputs[..k];
  }

  /** The envelope `review_items` prints: the per-input results and the totals. */
  function ReviewResponse(results: seq<Json.Value>, total: nat, correct: nat, incorrect: nat): Json.Value {
    SuccessJson(Json.Object(map[
      "results" := Json.Array(results),
      "summary" := Json.Object(map[
        "total" := Json.Number(total as real),
        "correct" := Json.Number(correct as real),
        "incorrect" := Json.Number(incorrect as real)])]))
  }

  /**
    What `review_items` does, as a value: load the existing file, run the
    loop, save, and print the per-input results with the totals.
   */
  function ReviewItemsOutcome(path: string, inputs: seq<ReviewInput>, probe: FileProbe, now: Instant,
                              write: WriteOutcome, rfc3339: Instant -> string): (r: Result<Reply>)
    ensures probe.Missing? ==> r == Err(NoDataFile(path))
    ensures r.Ok? ==> write.Written? && r.value.stored.lastUpdated == Some(now)
  {
    match LoadExisting(path, probe, now)
    case Err(e) => Err(e)
    case Ok(db) =>
      match ApplyReviews(db.items, inputs, now, rfc3339)
      case Err(e) => Err(e)
      case Ok(progress) =>
        match Save(db.(items := progress.items), now, write)
        case Err(e) => Err(e)
        case Ok(stored) =>
          var correct := CountCorrect(inputs);
          Ok(Reply(stored, ReviewResponse(progress.results, |inputs|, correct, |inputs| - correct)))
  }

  /**
    Every failure of `review_items` (no file, unreadable or unparsable file,
    an unresolved prefix, a failed write) comes back before anything is stored.
   */
  lemma ReviewItemsFailures(path: string, inputs: seq<ReviewInput>, probe: FileProbe, now: Instant,
                            write: WriteOutcome, rfc3339: Instant -> string)
    ensures probe.Missing? ==> ReviewItemsOutcome(path, inputs, probe, now, write, rfc3339) == Err(NoDataFile(path))
    ensures probe.Unreadable? ==> ReviewItemsOutcome(path, inputs, probe, now, write, rfc3339) == Err(IoError(probe.cause))
    ensures probe.Malformed? ==> ReviewItemsOutcome(path, inputs, probe, now, write, rfc3339) == Err(JsonError(probe.cause))
    ensures LoadExisting(path, probe, now).Ok? && ApplyReviews(LoadExisting(path, probe, now).value.items, inputs, now, rfc3339).Err? ==>
              ReviewItemsOutcome(path, inputs, probe, now, write, rfc3339)
              == Err(ApplyReviews(LoadExisting(path, probe, now).value.items, inputs, now, rfc3339).error)
    ensures LoadExisting(path, probe, now).Ok? && ApplyReviews(LoadExisting(path, probe, now).value.items, inputs, now, rfc3339).Ok?
            && write.WriteFailed? ==>
              ReviewItemsOutcome(path, inputs, probe, now, write, rfc3339) == Err(IoError(write.cause))
    ensures ReviewItemsOutcome(path, inputs, probe, now, write, rfc3339).Ok? ==>
              write.Written? && LoadExisting(path, probe, now).Ok? && ApplyReviews(LoadExisting(path, probe, now).value.items, inputs, now, rfc3339).Ok?
  {
  }

  /**
    A successful `review_items` stores healthy items with no typed key in an
    extra bag, keeps the collection's
    length and every item's identity and extras, leaves items no prefix
    matches untouched, stamps the database with now, and reports one result
    per input with the inputs split into correct and incorrect.
   */
  lemma ReviewItemsSuccess(path: string, inputs: seq<ReviewInput>, probe: FileProbe, now: Instant,
                           write: WriteOutcome, rfc3339: Instant -> string)
    requires ReviewItemsOutcome(path, inputs, probe, now, write, rfc3339).Ok?
    ensures LoadExisting(path, probe, now).Ok? && ApplyReviews(LoadExisting(path, probe, now).value.items, inputs, now, rfc3339).Ok?
    ensures
      var loaded := LoadExisting(path, probe, now).value;
      var progress := ApplyReviews(loaded.items, inputs, now, rfc3339).value;
      var reply := ReviewItemsOutcome(path, inputs, probe, now, write, rfc3339).value;
      && reply.stored == loaded.(items := progress.items, lastUpdated := Some(now))
      && |reply.stored.items| == |loaded.items|
      && AllHealthy(reply.stored.items) && AllFlattened(reply.stored.items)
      && (forall j :: 0 <= j < |loaded.items| ==> SameIdentity(reply.stored.items[j], loaded.items[j]))
      && (forall j :: 0 <= j < |loaded.items| && (forall k :: 0 <= k < |inputs| ==> !(inputs[k].id <= loaded.items[j].id)) ==>
            reply.stored.items[j] == loaded.items[j])
      && |progress.results| == |inputs|
      && reply.response == ReviewResponse(progress.results, |inputs|, CountCorrect(inputs), |inputs| - CountCorrect(inputs))
      && CountCorrect(inputs) <= |inputs|
  {
    var loaded := LoadExisting(path, probe, now).value;
    ApplyReviewsPreserves(loaded.items, inputs, now, rfc3339);
    var progress := ApplyReviews(loaded.items, inputs, now, rfc3339).value;
    forall j | 0 <= j < |loaded.items| && (forall k :: 0 <= k < |inputs| ==> !(inputs[k].id <= loaded.items[j].id))
      ensures progress.items[j] == loaded.items[j]
    {
      ApplyReviewsOnlyTouchesMatches(loaded.items, inputs, now, rfc3339, j);
    }
  }

  /** Copies the loaded items into a buffer the review loop updates in place. */
  method ToArray(items: seq<LearningItem>) returns (a: array<LearningItem>)
    ensures fresh(a) && a[..] == items
  {
    a := new LearningItem[|items|](i requires 0 <= i < |items| => items[i]);
  }

  /**
    The body of the `review_items` loop for one matched item: the scheduler's
    interval and ease, the counters, the quiz instant, the next review and
    the recomputed status, field by field.
   */
  method ApplyReview(item: LearningItem, input: ReviewInput, now: Instant) returns (reviewed: LearningItem)
    ensures reviewed == ReviewedItem(item, input, now)
  {
    var isCorrect := input.result == "correct";
    var schedule;
    if isCorrect {
      schedule := Sm2.ReviewCorrect(item.timesQuizzed, item.intervalDays, item.easeFactor, input.difficulty.UnwrapOr(DefaultDifficulty));
    } else {
      schedule := Sm2.ReviewIncorrect(item.easeFactor);
    }
    reviewed := item.(intervalDays := schedule.intervalDays, easeFactor := schedule.easeFactor);
    reviewed := reviewed.(timesQuizzed := reviewed.timesQuizzed + 1);
    if isCorrect {
      reviewed := reviewed.(timesCorrect := reviewed.timesCorrect + 1);
    }
    reviewed := reviewed.(lastQuizzed := Some(now), nextReview := Sm2.NextReview(now, schedule.intervalDays));
    reviewed := reviewed.(status := Sm2.ComputeStatus(reviewed.intervalDays, Accuracy(reviewed), reviewed.timesQuizzed, now, reviewed.nextReview));
  }

  /**
    The loop of `review_items` over a buffer of the loaded items: for each
    input in order, resolve its prefix against the buffer, update the match
    in place, count it as correct or incorrect and record its result; stop
    at the first prefix that does not resolve.
   */
  method ReviewLoop(items: seq<LearningItem>, inputs: seq<ReviewInput>, now: Instant, rfc3339: Instant -> string)
    returns (r: Result<Progress>, totalCorrect: nat, totalIncorrect: nat)
    ensures r == ApplyReviews(items, inputs, now, rfc3339)
    ensures r.Ok? ==> totalCorrect == CountCorrect(inputs) && totalIncorrect == |inputs| - totalCorrect
  {
    var a := ToArray(items);
    var results: seq<Json.Value> := [];
    totalCorrect, totalIncorrect := 0, 0;
    for k := 0 to |inputs|
      invariant ApplyReviews(items, inputs[..k], now, rfc3339) == Ok(Progress(a[..], results))
      invariant totalCorrect == CountCorrect(inputs[..k]) && totalIncorrect == k - totalCorrect
    {
      var input := inputs[k];
      var found := FindItemByPrefix(a[..], input.id);
      if found.Err? {
        ApplyReviewsHalt(items, inputs, k, now, rfc3339, Progress(a[..], results), found.error);
        return Err(found.error), totalCorrect, totalIncorrect;
      }
      var i := found.value;
      ApplyReviewsAdvance(items, inputs, k, now, rfc3339, Progress(a[..], results), i);
      CountCorrectStep(inputs, k);
      if input.result == "correct" {
        totalCorrect := totalCorrect + 1;
      } else {
        totalIncorrect := totalIncorrect + 1;
      }
      var item := ApplyReview(a[i], input, now);
      a[i] := item;
      results := results + [ResultJson(item, input, rfc3339)];
    }
    assert inputs[..|inputs|] == inputs;
    r := Ok(Progress(a[..], results));
  }

  /**
    `review_items`: load the existing file, run the in-place loop over the
    items, save, answer with the results and totals. It is a method because
    it runs `ReviewLoop` on a buffer; `ReviewItemsOutcome` is the same
    sequence of steps on values, which the lemmas above reason about.
   */
  method ReviewItems(path: string, inputs: seq<ReviewInput>, probe: FileProbe, now: Instant,
                     write: WriteOutcome, rfc3339: Instant -> string) returns (r: Result<Reply>)
    ensures r == ReviewItemsOutcome(path, inputs, probe, now, write, rfc3339)
  {
    var loaded := LoadExisting(path, probe, now);
    if loaded.Err? {
      return Err(loaded.error);
    }
    var db := loaded.value;
    var progress, totalCorrect, totalIncorrect := ReviewLoop(db.items, inputs, now, rfc3339);
    if progress.Err? {
      return Err(progress.error);
    }
    var saved := Save(db.(items := progress.value.items), now, write);
    if saved.Err? {
      return Err(saved.error);
    }
    r := Ok(Reply(saved.value, ReviewResponse(progress.value.results, |inputs|, totalCorrect, totalIncorrect)));
  }

  // ---- cmd_review ----

  /** What the batch mode finds on stdin: a read failure, text that is not a review array, or the array. */
  datatype BatchSource = StdinUnreadable(cause: string) | StdinMalformed(cause: string) | StdinParsed(inputs: seq<ReviewInput>)

  /** `review_single`: one input built from the arguments. */
  method ReviewSingle(path: string, idPrefix: string, result: string, difficulty: Option<string>, probe: FileProbe,
                      now: Instant, write: WriteOutcome, rfc3339: Instant -> string) returns (r: Result<Reply>)
    ensures r == ReviewItemsOutcome(path, [ReviewInput(idPrefix, result, difficulty)], probe, now, write, rfc3339)
  {
    r := ReviewItems(path, [ReviewInput(idPrefix, result, difficulty)], probe, now, write, rfc3339);
  }

  /**
    `review_batch`: a stdin read failure is an I/O error, unparsable input and
    an empty array are `InvalidInput`, all before the data file is touched.
   */
  method ReviewBatch(path: string, stdin: BatchSource, probe: FileProbe, now: Instant,
                     write: WriteOutcome, rfc3339: Instant -> string) returns (r: Result<Reply>)
    ensures stdin.StdinUnreadable? ==> r == Err(IoError(stdin.cause))
    ensures stdin.StdinMalformed? ==> r == Err(InvalidInput("Invalid JSON: " + stdin.cause))
    ensures stdin.StdinParsed? && |stdin.inputs| == 0 ==> r == Err(InvalidInput("Empty review array"))
    ensures stdin.StdinParsed? && |stdin.inputs| > 0 ==> r == ReviewItemsOutcome(path, stdin.inputs, probe, now, write, rfc3339)
  {
    match stdin
    case StdinUnreadable(cause) =>
      return Err(IoError(cause));
    case StdinMalformed(cause) =>
      return Err(InvalidInput("Invalid JSON: " + cause));
    case StdinParsed(inputs) =>
      if |inputs| == 0 {
        return Err(InvalidInput("Empty review array"));
      }
      r := ReviewItems(path, inputs, probe, now, write, rfc3339);
  }

  /** `cmd_review`: single-item mode when both the id and the result are given, batch mode otherwise. */
  method CmdReview(path: string, id: Option<string>, result: Option<string>, difficulty: Option<string>, stdin: BatchSource,
                   probe: FileProbe, now: Instant, write: WriteOutcome, rfc3339: Instant -> string) returns (r: Result<Reply>)
    ensures id.Some? && result.Some? ==>
              r == ReviewItemsOutcome(path, [ReviewInput(id.value, result.value, difficulty)], probe, now, write, rfc3339)
    ensures !(id.Some? && result.Some?) && stdin.StdinParsed? && |stdin.inputs| > 0 ==>
              r == ReviewItemsOutcome(path, stdin.inputs, probe, now, write, rfc3339)
    ensures !(id.Some? && result.Some?) && !(stdin.StdinParsed? && |stdin.inputs| > 0) ==>
              r.Err? && (r.error.IoError? || r.error.InvalidInput?)
  {
    if id.Some? && result.Some? {
      r := ReviewSingle(path, id.value, result.value, difficulty, probe, now, write, rfc3339);
    } else {
      r := ReviewBatch(path, stdin, probe, now, write, rfc3339);
    }
  }

  // ---- cmd_add and its helpers ----

  /**
    `generate_id`: "item_", the date, "_", then the next ordinal (count + 1)
    in decimal, zero-padded to at least three digits and no wider than needed.
   */
  function GenerateId(date: string, existingCount: nat): (id: string)
    ensures |id| >= |date| + 9
    ensures id[..|date| + 6] == "item_" + date + "_"
    ensures Text.AllDigits(id[|date| + 6..]) && Text.DecimalValue(id[|date| + 6..]) == existingCount + 1
    ensures |id| > |date| + 9 ==> id[|date| + 6] != '0'
  {
    var ordinal := Text.ZeroPadded(existingCount + 1, 3);
    var id := "item_" + date + "_" + ordinal;
    assert id[|date| + 6..] == ordinal;
    id
  }

  /** With fifteen items stored, the next one added on 2026-02-06 gets the ordinal 016. */
  lemma GenerateIdExample()
    ensures GenerateId("20260206", 15) == "item_20260206_016"
  {
    assert Text.DigitChar(1) == '1' && Text.DigitChar(6) == '6';
    assert Text.Decimal(16) == Text.Decimal(1) + [Text.DigitChar(6)];
    assert Text.Decimal(16) == "16";
    assert Text.Zeros(1) == "0";
    assert Text.ZeroPadded(16, 3) == "016";
  }

  /** `auto_detect_type`: "word" for at most one whitespace-separated token, "phrase" otherwise. */
  function AutoDetectType(front: string): (itemType: string)
    ensures itemType == "word" || itemType == "phrase"
    ensures itemType == "phrase" <==> Text.HasTwoTokens(front)
  {
    Text.WordCountAtLeastTwo(front);
    if Text.WordCount(front) <= 1 then "word" else "phrase"
  }

  lemma AutoDetectTypeExamples()
    ensures AutoDetectType("implement") == "word"
    ensures AutoDetectType("go shopping") == "phrase"
    ensures AutoDetectType("break the ice") == "phrase"
  {
    assert !Text.IsWhitespace("go shopping"[0]) && Text.IsWhitespace("go shopping"[2]) && !Text.IsWhitespace("go shopping"[3]);
    assert !Text.IsWhitespace("break the ice"[0]) && Text.IsWhitespace("break the ice"[5]) && !Text.IsWhitespace("break the ice"[6]);
    assert forall i :: 0 <= i < |"implement"| ==> !Text.IsWhitespace("implement"[i]);
  }

  /** Some existing front equals `front` ignoring case. */
  predicate HasFront(items: seq<LearningItem>, front: string) {
    exists i :: 0 <= i < |items| && Text.ToLower(items[i].front) == Text.ToLower(front)
  }

  /** The fields of a freshly added item: never quizzed, due one day from now, healthy, with an empty extra bag. */
  function NewItem(id: string, itemType: string, front: string, back: string, context: Option<string>,
                   contextJa: Option<string>, source: Option<string>, now: Instant): (item: LearningItem)
    ensures item.timesQuizzed == 0 && item.lastQuizzed == None && item.nextReview == now + Sm2.SecondsPerDay
    ensures Healthy(item) && Flattened(item) && item.status == DefaultStatus
  {
    Sm2.NextReviewWholeDays(now, 1);
    LearningItem(id, itemType, front, back, context, contextJa, source, now, None,
                 Sm2.NextReview(now, 1.0), 0, 0, DefaultEase, 0.0, DefaultStatus, map[])
  }

  /** The data `cmd_add` prints. */
  function AddedJson(added: LearningItem, total: nat): Json.Value {
    Json.Object(map[
      "id" := Json.Str(added.id),
      "front" := Json.Str(added.front),
      "back" := Json.Str(added.back),
      "type" := Json.Str(added.itemType),
      "total_items" := Json.Number(total as real)])
  }

  const RequiredMessage: string := "'front' and 'back' are required"

  /**
    `cmd_add`: reject a blank front or back before the file is read, load,
    reject a front equal to an existing one ignoring case, append the new
    item, save.
   */
  function CmdAdd(front: string, back: string, itemType: Option<string>, context: Option<string>, contextJa: Option<string>,
                  source: Option<string>, probe: FileProbe, now: Instant, date: string, write: WriteOutcome): (r: Result<Reply>)
    ensures Text.IsBlank(front) || Text.IsBlank(back) ==> r == Err(InvalidInput(RequiredMessage))
    ensures r.Ok? ==> write.Written? && r.value.stored.lastUpdated == Some(now)
  {
    if Text.IsBlank(front) || Text.IsBlank(back) then Err(InvalidInput(RequiredMessage))
    else
      match Load(probe, now)
      case Err(e) => Err(e)
      case Ok(db) => AddToLoaded(db, front, back, itemType, context, contextJa, source, now, date, write)
  }

  /** The part of `cmd_add` after the load: the duplicate check, the push and the save. */
  function AddToLoaded(db: SrsDatabase, front: string, back: string, itemType: Option<string>, context: Option<string>,
                       contextJa: Option<string>, source: Option<string>, now: Instant, date: string, write: WriteOutcome): (r: Result<Reply>)
    ensures HasFront(db.items, front) ==> r == Err(Duplicate(front))
    ensures r.Ok? ==> |r.value.stored.items| == |db.items| + 1 && r.value.stored.items[..|db.items|] == db.items
  {
    if HasFront(db.items, front) then Err(Duplicate(front))
    else
      var resolvedType := if itemType.Some? then itemType.value else AutoDetectType(front);
      var item := NewItem(GenerateId(date, |db.items|), resolvedType, front, back, context, contextJa, source, now);
      var grown := db.(items := db.items + [item]);
      match Save(grown, now, write)
      case Err(e) => Err(e)
      case Ok(stored) => Ok(Reply(stored, SuccessJson(AddedJson(item, |grown.items|))))
  }

  /** The ways `cmd_add` refuses, in the order it checks them, and when it succeeds. */
  lemma AddFailures(front: string, back: string, itemType: Option<string>, context: Option<string>, contextJa: Option<string>,
                    source: Option<string>, probe: FileProbe, now: Instant, date: string, write: WriteOutcome)
    ensures Text.IsBlank(front) || Text.IsBlank(back) ==>
              CmdAdd(front, back, itemType, context, contextJa, source, probe, now, date, write) == Err(InvalidInput(RequiredMessage))
    ensures !Text.IsBlank(front) && !Text.IsBlank(back) && Load(probe, now).Err? ==>
              CmdAdd(front, back, itemType, context, contextJa, source, probe, now, date, write) == Err(Load(probe, now).error)
    ensures !Text.IsBlank(front) && !Text.IsBlank(back) && Load(probe, now).Ok? && HasFront(Load(probe, now).value.items, front) ==>
              CmdAdd(front, back, itemType, context, contextJa, source, probe, now, date, write) == Err(Duplicate(front))
    ensures !Text.IsBlank(front) && !Text.IsBlank(back) && Load(probe, now).Ok? && !HasFront(Load(probe, now).value.items, front)
            && write.WriteFailed? ==>
              CmdAdd(front, back, itemType, context, contextJa, source, probe, now, date, write) == Err(IoError(write.cause))
    ensures CmdAdd(front, back, itemType, context, contextJa, source, probe, now, date, write).Ok? <==>
      !Text.IsBlank(front) && !Text.IsBlank(back) && Load(probe, now).Ok? && !HasFront(Load(probe, now).value.items, front) && write.Written?
  {
    if !Text.IsBlank(front) && !Text.IsBlank(back) && Load(probe, now).Ok? {
      AddAfterLoad(Load(probe, now).value, front, back, itemType, context, contextJa, source, now, date, write);
    }
  }

  /** After the load, a duplicate front is refused, then a failed write; otherwise the add succeeds. */
  lemma AddAfterLoad(db: SrsDatabase, front: string, back: string, itemType: Option<string>, context: Option<string>,
                     contextJa: Option<string>, source: Option<string>, now: Instant, date: string, write: WriteOutcome)
    ensures HasFront(db.items, front) ==>
              AddToLoaded(db, front, back, itemType, context, contextJa, source, now, date, write) == Err(Duplicate(front))
    ensures !HasFront(db.items, front) && write.WriteFailed? ==>
              AddToLoaded(db, front, back, itemType, context, contextJa, source, now, date, write) == Err(IoError(write.cause))
    ensures AddToLoaded(db, front, back, itemType, context, contextJa, source, now, date, write).Ok? <==>
              !HasFront(db.items, front) && write.Written?
  {
  }

  /**
    A successful add appends exactly one item at the end and keeps every
    other item: the new item has the generated id, the given or detected
    type, no quizzes, ease 2.5, interval 0, status "new", is due one day from
    now, and is healthy like the rest.
   */
  lemma AddAppendsOneItem(front: string, back: string, itemType: Option<string>, context: Option<string>, contextJa: Option<string>,
                          source: Option<string>, probe: FileProbe, now: Instant, date: string, write: WriteOutcome)
    requires CmdAdd(front, back, itemType, context, contextJa, source, probe, now, date, write).Ok?
    ensures Load(probe, now).Ok?
    ensures
      var db := Load(probe, now).value;
      var reply := CmdAdd(front, back, itemType, context, contextJa, source, probe, now, date, write).value;
      var stored := reply.stored;
      && |stored.items| == |db.items| + 1
      && stored.items[..|db.items|] == db.items
      && stored.version == db.version && stored.lastUpdated == Some(now)
      && AllHealthy(stored.items)
      && var added := stored.items[|db.items|];
      && added.id == GenerateId(date, |db.items|)
      && added.itemType == (if itemType.Some? then itemType.value else AutoDetectType(front))
      && added.front == front && added.back == back
      && added.context == context && added.contextJa == contextJa && added.source == source
      && added.createdAt == now && added.lastQuizzed == None && added.nextReview == now + Sm2.SecondsPerDay
      && added.timesQuizzed == 0 && added.timesCorrect == 0 && added.easeFactor == 2.5 && added.intervalDays == 0.0
      && added.status == "new" && added.extra == map[]
      && reply.response == SuccessJson(AddedJson(added, |stored.items|))
  {
    var db := Load(probe, now).value;
    var stored := CmdAdd(front, back, itemType, context, contextJa, source, probe, now, date, write).value.stored;
    Sm2.NextReviewWholeDays(now, 1);
    assert Healthy(stored.items[|db.items|]);
    assert stored.items[..|db.items|] == db.items;
  }

  /** No item `cmd_add` stores has a typed key in its extra bag. */
  lemma AddKeepsFlattened(front: string, back: string, itemType: Option<string>, context: Option<string>, contextJa: Option<string>,
                          source: Option<string>, probe: FileProbe, now: Instant, date: string, write: WriteOutcome)
    requires CmdAdd(front, back, itemType, context, contextJa, source, probe, now, date, write).Ok?
    ensures AllFlattened(CmdAdd(front, back, itemType, context, contextJa, source, probe, now, date, write).value.stored.items)
  {
    AddAppendsOneItem(front, back, itemType, context, contextJa, source, probe, now, date, write);
    var db := Load(probe, now).value;
    var stored := CmdAdd(front, back, itemType, context, contextJa, source, probe, now, date, write).value.stored;
    forall i | 0 <= i < |stored.items|
      ensures Flattened(stored.items[i])
    {
      if i < |db.items| {
        assert stored.items[i] == stored.items[..|db.items|][i];
      }
    }
  }

  // ---- cmd_list ----

  /** The `--due` test: the next review is not after now. */
  predicate IsDue(item: LearningItem, now: Instant) {
    item.nextReview <= now
  }

  /** The `--weak` test: quizzed at least twice with an accuracy below 70. */
  predicate IsWeak(item: LearningItem) {
    item.timesQuizzed >= 2 && match Accuracy(item) { case None => false case Some(accuracy) => accuracy < 70.0 }
  }

  /** Weak means quizzed at least twice with fewer than 70 correct answers per 100 quizzes. */
  lemma WeakMeansLowRatio(item: LearningItem)
    ensures IsWeak(item) <==> item.timesQuizzed >= 2 && (item.timesCorrect as real) * 100.0 < 70.0 * (item.timesQuizzed as real)
  {
    if item.timesQuizzed >= 2 {
      var accuracy := Accuracy(item).value;
      assert IsWeak(item) <==> accuracy < 70.0;
      BelowThreshold(accuracy, item.timesQuizzed as real, (item.timesCorrect as real) * 100.0, 70.0);
    }
  }

  /** A ratio `a = c / q` with positive `q` is below `t` exactly when `c` is below `t * q`. */
  lemma BelowThreshold(a: real, q: real, c: real, t: real)
    requires q > 0.0 && a * q == c
    ensures a < t <==> c < t * q
  {
    var d := t - a;
    assert t * q - c == d * q;
    if d > 0.0 {
      assert d * q > 0.0;
    } else {
      assert (-d) * q >= 0.0;
      assert d * q == -((-d) * q);
    }
  }

  /** The order of the due list: earlier next review first, then lower ease. */
  predicate DueOrder(x: LearningItem, y: LearningItem) {
    x.nextReview < y.nextReview || (x.nextReview == y.nextReview && x.easeFactor <= y.easeFactor)
  }

  predicate SortedByDue(s: seq<LearningItem>) {
    forall i, j :: 0 <= i < j < |s| ==> DueOrder(s[i], s[j])
  }

  /** Inserts `x` after every element that sorts before or level with it. */
  function InsertByDue(x: LearningItem, s: seq<LearningItem>): (r: seq<LearningItem>)
    ensures |r| == |s| + 1
    ensures multiset(r) == multiset(s) + multiset{x}
  {
    if |s| == 0 then [x]
    else
      var init, last := s[..|s| - 1], s[|s| - 1];
      assert s == init + [last];
      if DueOrder(last, x) then s + [x]
      else InsertByDue(x, init) + [last]
  }

  /** The stable sort of `sort_by` with the due comparator, as insertion sort. */
  function SortByDue(s: seq<LearningItem>): (r: seq<LearningItem>)
    ensures multiset(r) == multiset(s)
  {
    if |s| == 0 then []
    else
      var init := s[..|s| - 1];
      assert s == init + [s[|s| - 1]];
      InsertByDue(s[|s| - 1], SortByDue(init))
  }

  lemma {:induction false} InsertByDueSorted(x: LearningItem, s: seq<LearningItem>)
    requires SortedByDue(s)
    ensures SortedByDue(InsertByDue(x, s))
  {
    if |s| > 0 {
      var init, last := s[..|s| - 1], s[|s| - 1];
      assert s == init + [last];
      if !DueOrder(last, x) {
        InsertByDueSorted(x, init);
        var r' := InsertByDue(x, init);
        forall k | 0 <= k < |r'|
          ensures DueOrder(r'[k], last)
        {
          var y := r'[k];
          assert multiset(r')[y] > 0;
          if y != x {
            assert y in multiset(init);
            var i :| 0 <= i < |init| && init[i] == y;
          }
        }
      }
    }
  }

  /** The due sort orders by (next review, ease) and is a permutation. */
  lemma {:induction false} SortByDueSorted(s: seq<LearningItem>)
    ensures SortedByDue(SortByDue(s))
    ensures multiset(SortByDue(s)) == multiset(s)
  {
    if |s| > 0 {
      SortByDueSorted(s[..|s| - 1]);
      InsertByDueSorted(s[|s| - 1], SortByDue(s[..|s| - 1]));
    }
  }

  /** The sort key of the due list is this pair. */
  predicate HasDueKey(x: LearningItem, nextReview: Instant, easeFactor: real) {
    x.nextReview == nextReview && x.easeFactor == easeFactor
  }

  /** The items that share one sort key, in their order in `s`. */
  function WithDueKey(s: seq<LearningItem>, nextReview: Instant, easeFactor: real): seq<LearningItem> {
    if |s| == 0 then []
    else WithDueKey(s[..|s| - 1], nextReview, easeFactor) + (if HasDueKey(s[|s| - 1], nextReview, easeFactor) then [s[|s| - 1]] else [])
  }

  lemma {:induction false} InsertByDueStable(x: LearningItem, s: seq<LearningItem>, nextReview: Instant, easeFactor: real)
    ensures WithDueKey(InsertByDue(x, s), nextReview, easeFactor)
         == WithDueKey(s, nextReview, easeFactor) + (if HasDueKey(x, nextReview, easeFactor) then [x] else [])
  {
    if |s| == 0 {
      assert [x][..0] == [];
    } else if DueOrder(s[|s| - 1], x) {
      assert (s + [x])[..|s|] == s;
    } else {
      InsertByDueStable(x, s[..|s| - 1], nextReview, easeFactor);
      InsertBehindStable(x, s, nextReview, easeFactor);
    }
  }

  /** The step of the stability proof where `x` goes before the last element. */
  lemma InsertBehindStable(x: LearningItem, s: seq<LearningItem>, nextReview: Instant, easeFactor: real)
    requires |s| > 0 && !DueOrder(s[|s| - 1], x)
    requires WithDueKey(InsertByDue(x, s[..|s| - 1]), nextReview, easeFactor)
          == WithDueKey(s[..|s| - 1], nextReview, easeFactor) + (if HasDueKey(x, nextReview, easeFactor) then [x] else [])
    ensures WithDueKey(InsertByDue(x, s), nextReview, easeFactor)
         == WithDueKey(s, nextReview, easeFactor) + (if HasDueKey(x, nextReview, easeFactor) then [x] else [])
  {
    var init, last := s[..|s| - 1], s[|s| - 1];
    var r' := InsertByDue(x, init);
    var kept := WithDueKey(init, nextReview, easeFactor);
    var keptX := if HasDueKey(x, nextReview, easeFactor) then [x] else [];
    var keptLast := if HasDueKey(last, nextReview, easeFactor) then [last] else [];
    assert WithDueKey(InsertByDue(x, s), nextReview, easeFactor) == (kept + keptX) + keptLast by {
      assert InsertByDue(x, s) == r' + [last];
      assert (r' + [last])[..|r'|] == r';
    }
    assert WithDueKey(s, nextReview, easeFactor) == kept + keptLast;
    assert keptX == [] || keptLast == [];
    Iter.SwapPastEmpty(kept, keptX, keptLast);
  }

  /** The due sort is stable: items with equal keys keep their relative order. */
  lemma {:induction false} SortByDueStable(s: seq<LearningItem>, nextReview: Instant, easeFactor: real)
    ensures WithDueKey(SortByDue(s), nextReview, easeFactor) == WithDueKey(s, nextReview, easeFactor)
  {
    if |s| > 0 {
      var init := s[..|s| - 1];
      SortByDueStable(init, nextReview, easeFactor);
      InsertByDueStable(s[|s| - 1], SortByDue(init), nextReview, easeFactor);
    }
  }

  /** The `--due` test as a filter predicate. */
  function DueAt(now: Instant): LearningItem -> bool {
    (x: LearningItem) => IsDue(x, now)
  }

  /** The `--status` test as a filter predicate. */
  function StatusIs(status: string): LearningItem -> bool {
    (x: LearningItem) => x.status == status
  }

  /** The sort keeps exactly the elements it was given. */
  lemma SortByDueMembers(s: seq<LearningItem>)
    ensures forall x :: x in SortByDue(s) <==> x in s
  {
    forall x
      ensures x in SortByDue(s) <==> x in s
    {
      assert x in SortByDue(s) <==> multiset(SortByDue(s))[x] > 0;
    }
  }

  /** The `--due` listing before the limit: the due items, sorted by (next review, ease). */
  function DueItems(items: seq<LearningItem>, now: Instant): (due: seq<LearningItem>)
    ensures SortedByDue(due)
    ensures forall x :: x in due ==> x in items && IsDue(x, now)
  {
    var dueItems := Iter.Filter(items, DueAt(now));
    Iter.FilterMembers(items, DueAt(now));
    SortByDueSorted(dueItems);
    SortByDueMembers(dueItems);
    SortByDue(dueItems)
  }

  /** The filter of `cmd_list`: `--due` wins over `--weak`, which wins over `--status`. */
  function ChosenItems(items: seq<LearningItem>, now: Instant, due: bool, weak: bool, status: Option<string>): (chosen: seq<LearningItem>)
    ensures forall x :: x in chosen ==> x in items
    ensures due ==> SortedByDue(chosen) && forall x :: x in chosen ==> IsDue(x, now)
    ensures !due && weak ==> forall x :: x in chosen ==> IsWeak(x)
    ensures !due && !weak && status.Some? ==> forall x :: x in chosen ==> x.status == status.value
    ensures !due && !weak && status.None? ==> chosen == items
  {
    if due then DueItems(items, now)
    else if weak then
      Iter.FilterMembers(items, IsWeak);
      Iter.Filter(items, IsWeak)
    else if status.Some? then
      Iter.FilterMembers(items, StatusIs(status.value));
      Iter.Filter(items, StatusIs(status.value))
    else items
  }

  /** A prefix of a sorted listing is sorted. */
  lemma PrefixSorted(s: seq<LearningItem>, n: nat)
    ensures SortedByDue(s) ==> SortedByDue(Iter.Truncate(s, n))
  {
  }

  /**
    The item selection of `cmd_list`: the filter, then `--limit` keeps a
    prefix. Every listed item is stored; each filter's test holds of every
    listed item; no filter and no limit lists everything in stored order.
   */
  function ListSelection(items: seq<LearningItem>, now: Instant, due: bool, weak: bool, status: Option<string>, limit: Option<nat>): (selected: seq<LearningItem>)
    ensures limit.Some? ==> |selected| <= limit.value
    ensures forall x :: x in selected ==> x in items
    ensures due ==> SortedByDue(selected) && forall x :: x in selected ==> IsDue(x, now)
    ensures !due && weak ==> forall x :: x in selected ==> IsWeak(x)
    ensures !due && !weak && status.Some? ==> forall x :: x in selected ==> x.status == status.value
    ensures !due && !weak && status.None? && limit.None? ==> selected == items
  {
    var chosen := ChosenItems(items, now, due, weak, status);
    if limit.Some? then
      PrefixSorted(chosen, limit.value);
      Iter.Truncate(chosen, limit.value)
    else chosen
  }

  /**
    Without a limit, `--due` lists exactly the due items, each as often as it
    occurs, sorted by (next review, ease), ties in their stored order.
   */
  lemma DueListing(items: seq<LearningItem>, now: Instant, weak: bool, status: Option<string>, x: LearningItem, nextReview: Instant, easeFactor: real)
    ensures multiset(ListSelection(items, now, true, weak, status, None))[x] == if IsDue(x, now) then multiset(items)[x] else 0
    ensures WithDueKey(ListSelection(items, now, true, weak, status, None), nextReview, easeFactor)
         == WithDueKey(Iter.Filter(items, DueAt(now)), nextReview, easeFactor)
  {
    var dueItems := Iter.Filter(items, DueAt(now));
    SortByDueSorted(dueItems);
    Iter.FilterCounts(items, DueAt(now), x);
    SortByDueStable(dueItems, nextReview, easeFactor);
  }

  /**
    Without a limit and without `--due`, `--weak` lists exactly the weak
    items in stored order, each as often as it is stored.
   */
  lemma WeakListing(items: seq<LearningItem>, now: Instant, status: Option<string>, x: LearningItem)
    ensures ListSelection(items, now, false, true, status, None) == Iter.Filter(items, IsWeak)
    ensures x in ListSelection(items, now, false, true, status, None) <==> x in items && IsWeak(x)
    ensures multiset(ListSelection(items, now, false, true, status, None))[x] == if IsWeak(x) then multiset(items)[x] else 0
  {
    Iter.FilterMembers(items, IsWeak);
    Iter.FilterCounts(items, IsWeak, x);
  }

  /**
    Without a limit and without `--due` or `--weak`, `--status s` lists
    exactly the items whose status is `s`, in stored order, each as often as
    it is stored.
   */
  lemma StatusListing(items: seq<LearningItem>, now: Instant, status: string, x: LearningItem)
    ensures ListSelection(items, now, false, false, Some(status), None) == Iter.Filter(items, StatusIs(status))
    ensures x in ListSelection(items, now, false, false, Some(status), None) <==> x in items && x.status == status
    ensures multiset(ListSelection(items, now, false, false, Some(status), None))[x]
         == if x.status == status then multiset(items)[x] else 0
  {
    Iter.FilterMembers(items, StatusIs(status));
    Iter.FilterCounts(items, StatusIs(status), x);
  }

  /** `--limit n` keeps the first n items of the unlimited listing, in order. */
  lemma LimitKeepsPrefix(items: seq<LearningItem>, now: Instant, due: bool, weak: bool, status: Option<string>, n: nat)
    ensures ListSelection(items, now, due, weak, status, Some(n)) <= ListSelection(items, now, due, weak, status, None)
    ensures |ListSelection(items, now, due, weak, status, Some(n))|
         == if n < |ListSelection(items, now, due, weak, status, None)| then n else |ListSelection(items, now, due, weak, status, None)|
  {
  }

  /** An optional string as printed: null when absent. */
  function OptionalStr(s: Option<string>): Json.Value {
    match s
    case None => Json.Null
    case Some(v) => Json.Str(v)
  }

  function ListedJson(item: LearningItem): Json.Value {
    Json.Object(map[
      "id" := Json.Str(item.id),
      "front" := Json.Str(item.front),
      "back" := Json.Str(item.back),
      "type" := Json.Str(item.itemType),
      "context" := OptionalStr(item.context),
      "context_ja" := OptionalStr(item.contextJa)])
  }

  /** The data `cmd_list` prints: the number of selected items and their summaries, in order. */
  function ListData(selected: seq<LearningItem>): (data: Json.Value)
    ensures data.Object? && data.fields.Keys == {"count", "items"}
    ensures data.fields["count"] == Json.Number(|selected| as real)
    ensures data.fields["items"].Array? && |data.fields["items"].elements| == |selected|
    ensures forall i :: 0 <= i < |selected| ==> data.fields["items"].elements[i] == ListedJson(selected[i])
  {
    var listed := seq(|selected|, i requires 0 <= i < |selected| => ListedJson(selected[i]));
    Json.Object(map["count" := Json.Number(|listed| as real), "items" := Json.Array(listed)])
  }

  /**
    `cmd_list`: the data file must exist; the envelope carries the selected
    items and their count.
   */
  function CmdList(path: string, probe: FileProbe, now: Instant, due: bool, weak: bool, status: Option<string>, limit: Option<nat>): (r: Result<Json.Value>)
    ensures probe.Missing? ==> r == Err(NoDataFile(path))
    ensures r.Err? <==> LoadExisting(path, probe, now).Err?
    ensures r.Err? ==> r.error == LoadExisting(path, probe, now).error
    ensures r.Ok? ==> r.value == SuccessJson(ListData(ListSelection(LoadExisting(path, probe, now).value.items, now, due, weak, status, limit)))
  {
    match LoadExisting(path, probe, now)
    case Err(e) => Err(e)
    case Ok(db) => Ok(SuccessJson(ListData(ListSelection(db.items, now, due, weak, status, limit))))
  }
}
