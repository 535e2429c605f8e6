/**
  The records of the store: a learning item, the database that holds the
  items, and one element of a batch review. Parsing is abstracted: a
  `RawItem` is an item object as found in the file, with `None` for every
  defaulted key that is absent, and `ItemFromRaw` applies the defaults.
 */
module Models {
  import opened Wrappers
  import Json

  /** An instant, in whole seconds since the Unix epoch (UTC). */
  type Instant = int

  const DefaultEase: real := 2.5
  const DefaultStatus: string := "new"
  const DefaultVersion: string := "1.0"

  /** The JSON keys of the typed fields; every other key of an item object lands in `extra`. */
  const ItemKeys: set<string> :=
    {"id", "type", "front", "back", "context", "context_ja", "source", "created_at",
     "last_quizzed", "next_review", "times_quizzed", "times_correct", "ease_factor",
     "interval_days", "status"}

  datatype LearningItem = LearningItem(
    id: string,
    itemType: string,
    front: string,
    back: string,
    context: Option<string>,
    contextJa: Option<string>,
    source: Option<string>,
    createdAt: Instant,
    lastQuizzed: Option<Instant>,
    nextReview: Instant,
    timesQuizzed: nat,
    timesCorrect: nat,
    easeFactor: real,
    intervalDays: real,
    status: string,
    extra: map<string, Json.Value>)

  /**
    `LearningItem::accuracy`: absent exactly when the item was never quizzed,
    otherwise the percentage of correct answers, within [0, 100] as long as
    the correct count does not exceed the quiz count.
   */
  function Accuracy(item: LearningItem): (accuracy: Option<real>)
    ensures accuracy.None? <==> item.timesQuizzed == 0
    ensures accuracy.Some? ==> accuracy.value * (item.timesQuizzed as real) == (item.timesCorrect as real) * 100.0
    ensures accuracy.Some? && item.timesCorrect <= item.timesQuizzed ==> 0.0 <= accuracy.value <= 100.0
  {
    if item.timesQuizzed == 0 then None
    else
      var q := item.timesQuizzed as real;
      var c := item.timesCorrect as real;
      PercentBounds(c, q);
      Some(c / q * 100.0)
  }

  lemma PercentBounds(c: real, q: real)
    requires q > 0.0 && c >= 0.0
    ensures c / q * 100.0 * q == c * 100.0
    ensures c <= q ==> 0.0 <= c / q * 100.0 <= 100.0
  {
    assert c / q * q == c;
  }

  datatype SrsDatabase = SrsDatabase(version: string, lastUpdated: Option<Instant>, items: seq<LearningItem>)

  /** `SrsDatabase::new`: version "1.0", stamped with the current instant, no items. */
  function NewDatabase(now: Instant): (db: SrsDatabase)
    ensures db.version == DefaultVersion && db.lastUpdated == Some(now) && |db.items| == 0
  {
    SrsDatabase(DefaultVersion, Some(now), [])
  }

  /** One element of the batch-review array; `difficulty` may be missing. */
  datatype ReviewInput = ReviewInput(id: string, result: string, difficulty: Option<string>)

  // ---- the file form and its defaults ----

  /**
    An item object as parsed from the file. Required keys are plain fields;
    the keys with a serde default are `None` when absent. Optional strings
    and `last_quizzed` are `None` both when absent and when null. `fields`
    holds the object's other key/value pairs. It may also hold pairs under
    typed keys, whose values are read into the typed fields above; `flatten`
    keeps only the pairs under keys that are not typed.
   */
  datatype RawItem = RawItem(
    id: string,
    itemType: string,
    front: string,
    back: string,
    context: Option<string>,
    contextJa: Option<string>,
    source: Option<string>,
    createdAt: Instant,
    lastQuizzed: Option<Instant>,
    nextReview: Instant,
    timesQuizzed: Option<nat>,
    timesCorrect: Option<nat>,
    easeFactor: Option<real>,
    intervalDays: Option<real>,
    status: Option<string>,
    fields: map<string, Json.Value>)

  datatype RawDatabase = RawDatabase(version: Option<string>, lastUpdated: Option<Instant>, items: Option<seq<RawItem>>)

  /** `#[serde(flatten)]` never puts a key of a typed field into the extra bag. */
  predicate Flattened(item: LearningItem) {
    item.extra.Keys !! ItemKeys
  }

  predicate AllFlattened(items: seq<LearningItem>) {
    forall i :: 0 <= i < |items| ==> Flattened(items[i])
  }

  /**
    `#[serde(flatten)] extra`: the keys of an item object that are not typed
    fields, with their values untouched.
   */
  function UnknownFields(fields: map<string, Json.Value>): (extra: map<string, Json.Value>)
    ensures extra.Keys == fields.Keys - ItemKeys
    ensures forall k :: k in extra ==> extra[k] == fields[k]
  {
    map k | k in fields && k !in ItemKeys :: fields[k]
  }

  /**
    The serde defaults of an item: 0 quizzes, 0 correct, ease 2.5, interval
    0 and status "new" for missing keys; present keys are taken as they are.
   */
  function ItemFromRaw(raw: RawItem): (item: LearningItem)
    ensures raw.timesQuizzed.None? ==> item.timesQuizzed == 0
    ensures raw.timesCorrect.None? ==> item.timesCorrect == 0
    ensures raw.easeFactor.None? ==> item.easeFactor == DefaultEase
    ensures raw.intervalDays.None? ==> item.intervalDays == 0.0
    ensures raw.status.None? ==> item.status == DefaultStatus
    ensures raw.timesQuizzed.Some? ==> item.timesQuizzed == raw.timesQuizzed.value
    ensures raw.timesCorrect.Some? ==> item.timesCorrect == raw.timesCorrect.value
    ensures raw.easeFactor.Some? ==> item.easeFactor == raw.easeFactor.value
    ensures raw.intervalDays.Some? ==> item.intervalDays == raw.intervalDays.value
    ensures raw.status.Some? ==> item.status == raw.status.value
    ensures item.id == raw.id && item.itemType == raw.itemType && item.front == raw.front && item.back == raw.back
    ensures item.context == raw.context && item.contextJa == raw.contextJa && item.source == raw.source
    ensures item.createdAt == raw.createdAt && item.lastQuizzed == raw.lastQuizzed && item.nextReview == raw.nextReview
    ensures item.extra == UnknownFields(raw.fields) && Flattened(item)
  {
    LearningItem(
      raw.id, raw.itemType, raw.front, raw.back, raw.context, raw.contextJa, raw.source,
      raw.createdAt, raw.lastQuizzed, raw.nextReview,
      raw.timesQuizzed.UnwrapOr(0), raw.timesCorrect.UnwrapOr(0),
      raw.easeFactor.UnwrapOr(DefaultEase), raw.intervalDays.UnwrapOr(0.0),
      raw.status.UnwrapOr(DefaultStatus), UnknownFields(raw.fields))
  }

  /**
    An item as it is written back: every defaulted key present. The typed
    keys are written from the typed fields, so `fields` is the extra bag alone.
   */
  function RawOfItem(item: LearningItem): RawItem {
    RawItem(
      item.id, item.itemType, item.front, item.back, item.context, item.contextJa, item.source,
      item.createdAt, item.lastQuizzed, item.nextReview,
      Some(item.timesQuizzed), Some(item.timesCorrect), Some(item.easeFactor),
      Some(item.intervalDays), Some(item.status), item.extra)
  }

  /**
    Writing an item and reading it back gives the same item, its `extra` bag
    included, as long as no extra key collides with a typed key.
   */
  lemma ItemRoundTrip(item: LearningItem)
    requires Flattened(item)
    ensures ItemFromRaw(RawOfItem(item)) == item
  {
    assert UnknownFields(item.extra) == item.extra;
  }

  /** The database defaults: version "1.0", no `last_updated`, no items. */
  function DatabaseFromRaw(raw: RawDatabase): (db: SrsDatabase)
    ensures db.version == raw.version.UnwrapOr(DefaultVersion)
    ensures db.lastUpdated == raw.lastUpdated
    ensures raw.items.None? ==> db.items == []
    ensures raw.items.Some? ==> |db.items| == |raw.items.value|
    ensures raw.items.Some? ==> forall i :: 0 <= i < |db.items| ==> db.items[i] == ItemFromRaw(raw.items.value[i])
    ensures AllFlattened(db.items)
  {
    var rawItems := raw.items.UnwrapOr([]);
    SrsDatabase(raw.version.UnwrapOr(DefaultVersion), raw.lastUpdated, seq(|rawItems|, i requires 0 <= i < |rawItems| => ItemFromRaw(rawItems[i])))
  }

  /** A database as it is written back. */
  function RawOfDatabase(db: SrsDatabase): RawDatabase {
    RawDatabase(Some(db.version), db.lastUpdated, Some(seq(|db.items|, i requires 0 <= i < |db.items| => RawOfItem(db.items[i]))))
  }

  /** Writing a database and reading it back gives the same database, item order and extras included. */
  lemma DatabaseRoundTrip(db: SrsDatabase)
    requires AllFlattened(db.items)
    ensures DatabaseFromRaw(RawOfDatabase(db)) == db
  {
    var back := DatabaseFromRaw(RawOfDatabase(db));
    assert |back.items| == |db.items|;
    forall i | 0 <= i < |db.items|
      ensures back.items[i] == db.items[i]
    {
      ItemRoundTrip(db.items[i]);
    }
  }
}
