/**
  The store: the two load modes, the repair pass run on every load, and the
  save step. The file system is abstracted: what `load` finds at the path is
  a `FileProbe`, and whether the atomic write succeeded is a `WriteOutcome`.
 */
module Storage {
  import opened Wrappers
  import opened Errors
  import opened Models
  import Sm2

  /** What reading the data file gives: no file, a read failure, a parse failure, or the parsed document. */
  datatype FileProbe = Missing | Unreadable(cause: string) | Malformed(cause: string) | Parsed(raw: RawDatabase)

  /** Whether the backup, temporary-file write and rename of `save` went through. */
  datatype WriteOutcome = Written | WriteFailed(cause: string)

  /** The status an item's counters call for (the clock arguments of `compute_status` are unused). */
  function DerivedStatus(item: LearningItem): string {
    Sm2.ComputeStatus(item.intervalDays, Accuracy(item), item.timesQuizzed, item.nextReview, item.nextReview)
  }

  /** The invariants the repair pass establishes and every command keeps. */
  predicate Healthy(item: LearningItem) {
    && item.easeFactor >= Sm2.MinEase
    && item.timesCorrect <= item.timesQuizzed
    && item.status == DerivedStatus(item)
  }

  predicate AllHealthy(items: seq<LearningItem>) {
    forall i :: 0 <= i < |items| ==> Healthy(items[i])
  }

  /**
    The repair of one item (the body of the `self_heal` loop): ease clamped up
    to 1.3, the correct count clamped down to the quiz count, the status
    recomputed from the clamped fields. Nothing else changes.
   */
  function HealItem(item: LearningItem, now: Instant): (healed: LearningItem)
    ensures Healthy(healed)
    ensures healed.easeFactor == if item.easeFactor < Sm2.MinEase then Sm2.MinEase else item.easeFactor
    ensures healed.timesCorrect == if item.timesCorrect > item.timesQuizzed then item.timesQuizzed else item.timesCorrect
    ensures healed.(easeFactor := item.easeFactor, timesCorrect := item.timesCorrect, status := item.status) == item
  {
    var ease := if item.easeFactor < Sm2.MinEase then Sm2.MinEase else item.easeFactor;
    var correct := if item.timesCorrect > item.timesQuizzed then item.timesQuizzed else item.timesCorrect;
    var clamped := item.(easeFactor := ease, timesCorrect := correct);
    clamped.(status := Sm2.ComputeStatus(clamped.intervalDays, Accuracy(clamped), clamped.timesQuizzed, now, clamped.nextReview))
  }

  /** A healthy item is left exactly as it is. */
  lemma HealItemFixesHealthy(item: LearningItem, now: Instant)
    requires Healthy(item)
    ensures HealItem(item, now) == item
  {
  }

  /** The repair pass over the whole collection, as a value. */
  function HealAll(items: seq<LearningItem>, now: Instant): (healed: seq<LearningItem>)
    ensures |healed| == |items| && AllHealthy(healed)
  {
    seq(|items|, i requires 0 <= i < |items| => HealItem(items[i], now))
  }

  /**
    `self_heal`: repairs every item in place, one slot at a time, and touches
    nothing but the three repaired fields of each item.
   */
  method SelfHeal(a: array<LearningItem>, now: Instant)
    modifies a
    ensures a[..] == HealAll(old(a[..]), now)
  {
    var i := 0;
    while i < a.Length
      invariant 0 <= i <= a.Length
      invariant forall j :: 0 <= j < i ==> a[j] == HealItem(old(a[j]), now)
      invariant forall j :: i <= j < a.Length ==> a[j] == old(a[j])
    {
      var item := a[i];
      if item.easeFactor < Sm2.MinEase {
        item := item.(easeFactor := Sm2.MinEase);
      }
      if item.timesCorrect > item.timesQuizzed {
        item := item.(timesCorrect := item.timesQuizzed);
      }
      item := item.(status := Sm2.ComputeStatus(item.intervalDays, Accuracy(item), item.timesQuizzed, now, item.nextReview));
      a[i] := item;
      i := i + 1;
    }
  }

  /**
    After the repair pass the collection has the same length and order, every
    item is healthy, items whose ease was already >= 1.3 keep it, a correct
    count above the quiz count becomes the quiz count, and every other field
    (identity, text, interval, counters, instants, extras) is untouched.
   */
  lemma HealAllRepairs(items: seq<LearningItem>, now: Instant)
    ensures |HealAll(items, now)| == |items|
    ensures AllHealthy(HealAll(items, now))
    ensures forall i :: 0 <= i < |items| && items[i].easeFactor >= Sm2.MinEase ==>
              HealAll(items, now)[i].easeFactor == items[i].easeFactor
    ensures forall i :: 0 <= i < |items| && items[i].timesCorrect > items[i].timesQuizzed ==>
              HealAll(items, now)[i].timesCorrect == items[i].timesQuizzed
    ensures forall i :: 0 <= i < |items| ==>
              HealAll(items, now)[i].(easeFactor := items[i].easeFactor, timesCorrect := items[i].timesCorrect, status := items[i].status) == items[i]
  {
  }

  /** Repairing a healthy collection changes nothing. */
  lemma HealAllFixesHealthy(items: seq<LearningItem>, now: Instant)
    requires AllHealthy(items)
    ensures HealAll(items, now) == items
  {
    forall i | 0 <= i < |items|
      ensures HealAll(items, now)[i] == items[i]
    {
      HealItemFixesHealthy(items[i], now);
    }
  }

  /** The repair pass is idempotent, whatever instants the two runs use. */
  lemma HealAllIdempotent(items: seq<LearningItem>, now: Instant, now': Instant)
    ensures HealAll(HealAll(items, now), now') == HealAll(items, now)
  {
    HealAllRepairs(items, now);
    HealAllFixesHealthy(HealAll(items, now), now');
  }

  /** `load`: a missing file is first use and gives the empty database; otherwise read, parse, repair. */
  function Load(probe: FileProbe, now: Instant): (r: Result<SrsDatabase>)
    ensures probe.Missing? ==> r == Ok(NewDatabase(now))
    ensures probe.Unreadable? ==> r == Err(IoError(probe.cause))
    ensures probe.Malformed? ==> r == Err(JsonError(probe.cause))
    ensures probe.Parsed? ==> r.Ok? && r.value.version == DatabaseFromRaw(probe.raw).version
    ensures probe.Parsed? ==> r.Ok? && r.value.lastUpdated == probe.raw.lastUpdated
    ensures probe.Parsed? ==> r.Ok? && r.value.items == HealAll(DatabaseFromRaw(probe.raw).items, now)
    ensures r.Ok? ==> AllHealthy(r.value.items) && AllFlattened(r.value.items)
  {
    match probe
    case Missing => Ok(NewDatabase(now))
    case Unreadable(cause) => Err(IoError(cause))
    case Malformed(cause) => Err(JsonError(cause))
    case Parsed(raw) =>
      var db := DatabaseFromRaw(raw);
      HealAllRepairs(db.items, now);
      Ok(db.(items := HealAll(db.items, now)))
  }

  /** `load_existing`: a missing file is `NoDataFile`; otherwise exactly `load`. */
  function LoadExisting(path: string, probe: FileProbe, now: Instant): (r: Result<SrsDatabase>)
    ensures probe.Missing? ==> r == Err(NoDataFile(path))
    ensures !probe.Missing? ==> r == Load(probe, now)
    ensures r.Ok? ==> AllHealthy(r.value.items) && AllFlattened(r.value.items)
  {
    if probe.Missing? then Err(NoDataFile(path)) else Load(probe, now)
  }

  /**
    `save`, as far as the database is concerned: it is stamped with the
    current instant and stored whole; a failed write is an `IoError`.
   */
  function Save(db: SrsDatabase, now: Instant, outcome: WriteOutcome): (r: Result<SrsDatabase>)
    ensures outcome.WriteFailed? ==> r == Err(IoError(outcome.cause))
    ensures outcome.Written? ==> r.Ok? && r.value.(lastUpdated := db.lastUpdated) == db
    ensures outcome.Written? ==> r.value.lastUpdated == Some(now)
  {
    match outcome
    case Written => Ok(db.(lastUpdated := Some(now)))
    case WriteFailed(cause) => Err(IoError(cause))
  }

  /**
    Saving a database of healthy items whose extra bags hold no typed key
    (every loaded database is one) and loading the file again gives back
    exactly what was stored: every field of every item, in order, extras
    included, whichever loader is used.
   */
  lemma SaveThenLoadRoundTrip(path: string, db: SrsDatabase, now: Instant, later: Instant)
    requires AllHealthy(db.items) && AllFlattened(db.items)
    ensures Save(db, now, Written).Ok?
    ensures Load(Parsed(RawOfDatabase(Save(db, now, Written).value)), later) == Save(db, now, Written)
    ensures LoadExisting(path, Parsed(RawOfDatabase(Save(db, now, Written).value)), later) == Save(db, now, Written)
  {
    var stored := Save(db, now, Written).value;
    DatabaseRoundTrip(stored);
    HealAllFixesHealthy(stored.items, later);
  }
}
