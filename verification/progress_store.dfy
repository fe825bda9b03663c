/**
 * The learner's progress records: the record `updateProgress` writes after a
 * grading, and what importing a progress file does to the store.
 */
module ProgressStore {
  import opened Wrappers
  import opened Catalog

  /** `state.progress[id]`, absent when there is no record. */
  function Lookup(progress: Progress, id: string): (r: Option<ProgressItem>)
    ensures r.Some? <==> id in progress
    ensures r.Some? ==> r.value == progress[id]
  {
    if id in progress then Some(progress[id]) else None
  }

  /**
   * The counters of a record are consistent: no more passes than attempts,
   * and a record whose last attempt passed has at least one pass.
   */
  predicate WellFormed(item: ProgressItem) {
    item.passes <= item.attempts && (item.passed ==> item.passes >= 1)
  }

  /**
   * The record written after an attempt: one more attempt, one more pass if
   * it passed, the attempt's code and verdict, and the attempt's time.
   */
  function NextRecord(existing: Option<ProgressItem>, code: string, passed: bool, now: int): (r: ProgressItem)
    ensures r.attempts == (if existing.Some? then existing.value.attempts else 0) + 1
    ensures r.passes == (if existing.Some? then existing.value.passes else 0) + (if passed then 1 else 0)
    ensures r.code == code && r.passed == passed && r.updatedAt == Some(now)
  {
    var attempts := if existing.Some? then existing.value.attempts else 0;
    var passes := if existing.Some? then existing.value.passes else 0;
    ProgressItem(code, attempts + 1, passes + if passed then 1 else 0, passed, Some(now))
  }

  /**
   * An attempt keeps a record well formed (a first attempt makes one), never
   * lowers a counter, and raises the pass count exactly when it passed.
   */
  lemma NextRecordKeepsCounters(existing: Option<ProgressItem>, code: string, passed: bool, now: int)
    requires existing.Some? ==> WellFormed(existing.value)
    ensures WellFormed(NextRecord(existing, code, passed, now))
    ensures existing.Some? ==> NextRecord(existing, code, passed, now).attempts > existing.value.attempts
    ensures existing.Some? ==>
              (NextRecord(existing, code, passed, now).passes > existing.value.passes <==> passed)
  {
  }

  /** A store whose every record is well formed. */
  predicate AllWellFormed(progress: Progress) {
    forall id :: id in progress ==> WellFormed(progress[id])
  }

  /** Recording an attempt keeps every record of a store well formed. */
  lemma AttemptKeepsStoreWellFormed(progress: Progress, id: string, code: string, passed: bool, now: int)
    requires AllWellFormed(progress)
    ensures AllWellFormed(progress[id := NextRecord(Lookup(progress, id), code, passed, now)])
  {
    NextRecordKeepsCounters(Lookup(progress, id), code, passed, now);
  }

  /**
   * What reading a progress file gives: text that is not JSON, a JSON value
   * that is not an object (or is `null`), or an object of records.
   */
  datatype Parsed = Unparsable | NotAnObject | Records(entries: Progress)

  /** The two alerts that end an import. */
  datatype ImportOutcome = Loaded | InvalidFormat | ParseFailed

  /**
   * The store after an import: an object replaces it wholesale, anything
   * else leaves it as it was.
   */
  function Imported(current: Progress, doc: Parsed): (r: (Progress, ImportOutcome))
    ensures doc.Records? ==> r.0 == doc.entries && r.1 == Loaded
    ensures !doc.Records? ==> r.0 == current && r.1 != Loaded
    ensures r.1 == ParseFailed <==> doc.Unparsable?
  {
    match doc
    case Unparsable => (current, ParseFailed)
    case NotAnObject => (current, InvalidFormat)
    case Records(entries) => (entries, Loaded)
  }

  /**
   * `loadProgress`: the stored object of records, or an empty store when
   * nothing is stored, the text is not JSON or it is not an object.
   */
  function LoadProgress(stored: Option<Parsed>): (r: Progress)
    ensures stored.Some? && stored.value.Records? ==> r == stored.value.entries
    ensures !(stored.Some? && stored.value.Records?) ==> r == map[]
  {
    match stored
    case Some(Records(entries)) => entries
    case _ => map[]
  }
}
