/**
  The SM-2 variant scheduler: the next interval and ease after a review, the
  next review instant, and the status derived from an item's counters.
  Ease, interval and accuracy are exact reals; instants are whole seconds.
 */
module Sm2 {
  import opened Wrappers

  /** The floor of the ease factor, everywhere in the system. */
  const MinEase: real := 1.3
  const SecondsPerDay: int := 86400

  /** The pair `(new_interval_days, new_ease_factor)` returned by both review rules. */
  datatype Schedule = Schedule(intervalDays: real, easeFactor: real)

  function Max(x: real, y: real): real {
    if x >= y then x else y
  }

  /**
    `review_correct`. The ease never drops below the floor when it started at
    or above it, the interval of a first or second success is positive, and
    later the interval grows geometrically, so it never shrinks once ease >= 1.
   */
  function ReviewCorrect(timesQuizzed: nat, intervalDays: real, easeFactor: real, difficulty: string): (next: Schedule)
    ensures easeFactor >= MinEase ==> next.easeFactor >= MinEase
    ensures easeFactor - 0.15 <= next.easeFactor && (next.easeFactor <= easeFactor + 0.15 || next.easeFactor == MinEase)
    ensures timesQuizzed < 2 ==> next.intervalDays >= 1.0
    ensures timesQuizzed >= 2 && intervalDays >= 0.0 && easeFactor >= 1.0 ==> next.intervalDays >= intervalDays
  {
    var newInterval :=
      if timesQuizzed == 0 then 1.0
      else if timesQuizzed == 1 then 3.0
      else intervalDays * easeFactor;
    var newEase :=
      if difficulty == "easy" then easeFactor + 0.15
      else if difficulty == "hard" then Max(easeFactor - 0.15, MinEase)
      else easeFactor;
    GrowthNeverShrinks(intervalDays, easeFactor);
    Schedule(newInterval, newEase)
  }

  /** With a non-negative interval and an ease of at least 1, multiplying never shrinks the interval. */
  lemma GrowthNeverShrinks(intervalDays: real, easeFactor: real)
    ensures intervalDays >= 0.0 && easeFactor >= 1.0 ==> intervalDays * easeFactor >= intervalDays
  {
    if intervalDays >= 0.0 && easeFactor >= 1.0 {
      assert intervalDays * easeFactor - intervalDays == intervalDays * (easeFactor - 1.0);
      assert intervalDays * (easeFactor - 1.0) >= 0.0;
    }
  }

  /**
    `review_incorrect`: the interval resets to one day and the ease loses 0.2,
    floored at 1.3.
   */
  function ReviewIncorrect(easeFactor: real): (next: Schedule)
    ensures next.intervalDays == 1.0
    ensures next.easeFactor >= MinEase && next.easeFactor >= easeFactor - 0.2
    ensures next.easeFactor == MinEase || next.easeFactor == easeFactor - 0.2
  {
    Schedule(1.0, Max(easeFactor - 0.2, MinEase))
  }

  /** The `as i64` cast of a float: truncation toward zero. */
  function TruncateTowardZero(x: real): (t: int)
    ensures x >= 0.0 ==> t as real <= x < t as real + 1.0
    ensures x < 0.0 ==> t as real - 1.0 < x <= t as real
  {
    if x >= 0.0 then x.Floor else -((-x).Floor)
  }

  /**
    `next_review`: now plus the interval converted to whole seconds, the
    fraction of a second dropped toward zero.
   */
  function NextReview(now: int, intervalDays: real): (at: int)
    ensures intervalDays >= 0.0 ==> now <= at
    ensures intervalDays >= 0.0 ==> (at - now) as real <= intervalDays * 86400.0 < (at - now + 1) as real
    ensures intervalDays < 0.0 ==> (at - now - 1) as real < intervalDays * 86400.0 <= (at - now) as real
  {
    now + TruncateTowardZero(intervalDays * (SecondsPerDay as real))
  }

  /**
    `compute_status`, a first-match chain: a zero interval is "new"; a long
    interval with high accuracy (absent accuracy counting as 0) after at
    least five quizzes is "mastered"; an interval of a week or more is
    "reviewing"; anything else is "learning". The clock arguments are unused.
   */
  function ComputeStatus(intervalDays: real, accuracy: Option<real>, timesQuizzed: nat, now: int, nextReview: int): (status: string)
    ensures status in {"new", "learning", "reviewing", "mastered"}
    ensures status == "new" <==> intervalDays == 0.0
    ensures status == "mastered" <==> intervalDays >= 30.0 && accuracy.UnwrapOr(0.0) >= 90.0 && timesQuizzed >= 5
    ensures status == "reviewing" <==> intervalDays >= 7.0 && !(accuracy.UnwrapOr(0.0) >= 90.0 && timesQuizzed >= 5 && intervalDays >= 30.0)
    ensures accuracy.None? ==> status != "mastered"
  {
    if intervalDays == 0.0 then "new"
    else if intervalDays >= 30.0 && accuracy.UnwrapOr(0.0) >= 90.0 && timesQuizzed >= 5 then "mastered"
    else if intervalDays >= 7.0 then "reviewing"
    else "learning"
  }

  // ---- properties of the scheduler ----

  /** A first success schedules one day, a second three days, whatever the prior interval and ease. */
  lemma EarlySuccessesHaveFixedSteps(intervalDays: real, easeFactor: real, intervalDays': real, easeFactor': real, difficulty: string)
    ensures ReviewCorrect(0, intervalDays, easeFactor, difficulty).intervalDays == 1.0
    ensures ReviewCorrect(1, intervalDays, easeFactor, difficulty).intervalDays == 3.0
    ensures ReviewCorrect(0, intervalDays, easeFactor, difficulty).intervalDays
         == ReviewCorrect(0, intervalDays', easeFactor', difficulty).intervalDays
  {
  }

  /** From the third success on, the interval is the prior interval times the prior ease (3.0 with 2.5 gives 7.5). */
  lemma LaterSuccessesGrowGeometrically(timesQuizzed: nat, intervalDays: real, easeFactor: real, difficulty: string)
    requires timesQuizzed >= 2
    ensures ReviewCorrect(timesQuizzed, intervalDays, easeFactor, difficulty).intervalDays == intervalDays * easeFactor
    ensures ReviewCorrect(2, 3.0, 2.5, "good") == Schedule(7.5, 2.5)
  {
  }

  /**
    "easy" adds exactly 0.15 with no ceiling, "hard" subtracts 0.15 floored at
    1.3, and every other difficulty string (including "good") keeps the ease.
   */
  lemma DifficultyAdjustsEase(timesQuizzed: nat, intervalDays: real, easeFactor: real, difficulty: string)
    ensures ReviewCorrect(timesQuizzed, intervalDays, easeFactor, "easy").easeFactor == easeFactor + 0.15
    ensures ReviewCorrect(timesQuizzed, intervalDays, easeFactor, "hard").easeFactor == Max(easeFactor - 0.15, MinEase)
    ensures difficulty != "easy" && difficulty != "hard" ==>
              ReviewCorrect(timesQuizzed, intervalDays, easeFactor, difficulty).easeFactor == easeFactor
    ensures ReviewCorrect(timesQuizzed, intervalDays, easeFactor, difficulty).intervalDays
         == ReviewCorrect(timesQuizzed, intervalDays, easeFactor, "good").intervalDays
  {
  }

  /** A miss from 1.3 or 1.4 lands on the floor; from 2.5 it gives 2.3. */
  lemma IncorrectFloorExamples()
    ensures ReviewIncorrect(1.3) == Schedule(1.0, 1.3)
    ensures ReviewIncorrect(1.4) == Schedule(1.0, 1.3)
    ensures ReviewIncorrect(2.5) == Schedule(1.0, 2.3)
  {
  }

  /** Whole days convert to exactly that many days of seconds (3 days is 3 * 86400 s). */
  lemma {:induction false} NextReviewWholeDays(now: int, days: nat)
    ensures NextReview(now, days as real) == now + days * SecondsPerDay
  {
    assert (days as real) * (SecondsPerDay as real) == (days * SecondsPerDay) as real;
  }

  /** The status does not depend on the clock arguments. */
  lemma ComputeStatusIgnoresClock(intervalDays: real, accuracy: Option<real>, timesQuizzed: nat, now: int, nextReview: int, now': int, nextReview': int)
    ensures ComputeStatus(intervalDays, accuracy, timesQuizzed, now, nextReview)
         == ComputeStatus(intervalDays, accuracy, timesQuizzed, now', nextReview')
  {
  }

  /** The boundary cases of the chain: each threshold met exactly, and just missed. */
  lemma ComputeStatusBoundaries(now: int)
    ensures ComputeStatus(0.0, Some(100.0), 10, now, now) == "new"
    ensures ComputeStatus(30.0, Some(90.0), 5, now, now) == "mastered"
    ensures ComputeStatus(30.0, Some(89.9), 5, now, now) == "reviewing"
    ensures ComputeStatus(30.0, Some(95.0), 4, now, now) == "reviewing"
    ensures ComputeStatus(7.0, None, 0, now, now) == "reviewing"
    ensures ComputeStatus(6.99, Some(50.0), 2, now, now) == "learning"
  {
  }

  /** The status cases the scheduler's own tests check. */
  lemma ComputeStatusExamples(now: int)
    ensures ComputeStatus(0.0, None, 0, now, now) == "new"
    ensures ComputeStatus(3.0, Some(50.0), 2, now, now) == "learning"
    ensures ComputeStatus(10.0, Some(75.0), 4, now, now) == "reviewing"
    ensures ComputeStatus(30.0, Some(95.0), 6, now, now) == "mastered"
    ensures ComputeStatus(30.0, Some(80.0), 6, now, now) == "reviewing"
    ensures ComputeStatus(30.0, Some(95.0), 4, now, now) == "reviewing"
  {
  }

  /** The end-to-end case: ease 2.5, interval 3, quizzed twice, answered correctly and "hard". */
  lemma HardThirdReviewExample(now: int)
    ensures ReviewCorrect(2, 3.0, 2.5, "hard") == Schedule(7.5, 2.35)
    ensures ComputeStatus(7.5, Some(100.0), 3, now, now) == "reviewing"
  {
  }
}
