/**
 * The event-record history: the "undo" buffer of one event-generation run.
 * It maps a processing step to a snapshot of the event record taken after
 * that step ran; key -1 holds the record as it was before any step ran.
 *
 * The event record itself is opaque here (the type parameter R). Where a
 * record is stored, R is declared R(!new): it holds no references to the
 * heap, so a stored record is an independent copy that no later change to
 * a live object can reach.
 * A possibly-null record pointer is an Option<R>.
 */
module RecordHistory {
  import opened Options

  /** The key of the snapshot taken before any processing step ran. */
  const BeforeAnyStep: int := -1

  /** Every entry of `older` is still in `newer`, holding the same record. */
  ghost predicate KeepsEntries<R>(older: map<int, R>, newer: map<int, R>)
  {
    forall k | k in older :: k in newer && newer[k] == older[k]
  }

  /**
   * The buffer after one AddSnapshot(step, record) on `buffer`: a disabled
   * history, a null record and an already used step change nothing (the
   * first snapshot of a step wins); otherwise the record is stored under
   * `step` and nothing else is touched.
   */
  function Added<R>(buffer: map<int, R>, enabled: bool, step: int, record: Option<R>): (r: map<int, R>)
    ensures KeepsEntries(buffer, r)
    ensures r.Keys <= buffer.Keys + {step}
    ensures step in r <==> step in buffer || (enabled && record.Some?)
    ensures enabled && record.Some? && step !in buffer ==> r[step] == record.value
  {
    if !enabled then buffer
    else if record.None? then buffer
    else if step in buffer then buffer
    else buffer[step := record.value]
  }

  /**
   * The buffer after PurgeRecentHistory(start): a start below -1 is refused
   * and changes nothing; -1 purges the whole buffer; a start of 0 or more
   * drops exactly the snapshots of steps >= start and keeps the others as
   * they were.
   */
  function RecentPurged<R>(buffer: map<int, R>, start: int): (r: map<int, R>)
    ensures KeepsEntries(r, buffer)
    ensures start < BeforeAnyStep ==> r == buffer
    ensures start == BeforeAnyStep ==> r == map[]
    ensures start >= BeforeAnyStep ==> forall k | k in r :: k < start
    ensures start >= 0 ==> forall k | k in buffer && k < start :: k in r
  {
    if start < BeforeAnyStep then buffer
    else if start == BeforeAnyStep then map[]
    else map k | k in buffer && k < start :: buffer[k]
  }

  /** The buffer after the AddSnapshot calls `calls`, made one after the other. */
  function Replayed<R>(buffer: map<int, R>, enabled: bool, calls: seq<(int, Option<R>)>): map<int, R>
    decreases |calls|
  {
    if calls == [] then buffer
    else Replayed(Added(buffer, enabled, calls[0].0, calls[0].1), enabled, calls[1..])
  }

  /** A disabled history ignores every AddSnapshot call, whatever the step and the record. */
  lemma {:induction false} DisabledHistoryIgnoresSnapshots<R>(buffer: map<int, R>, calls: seq<(int, Option<R>)>)
    ensures Replayed(buffer, false, calls) == buffer
    decreases |calls|
  {
    if calls != [] {
      var next := Added(buffer, false, calls[0].0, calls[0].1);
      assert next == buffer;
      DisabledHistoryIgnoresSnapshots(next, calls[1..]);
    }
  }

  /** No sequence of AddSnapshot calls removes or overwrites a stored snapshot. */
  lemma {:induction false} SnapshotsAreNeverOverwritten<R>(buffer: map<int, R>, enabled: bool, calls: seq<(int, Option<R>)>)
    ensures KeepsEntries(buffer, Replayed(buffer, enabled, calls))
    decreases |calls|
  {
    if calls != [] {
      var next := Added(buffer, enabled, calls[0].0, calls[0].1);
      SnapshotsAreNeverOverwritten(next, enabled, calls[1..]);
    }
  }

  /**
   * The first snapshot added for a step is the one kept: after
   * AddSnapshot(step, first) on an enabled history without `step`, any later
   * calls (another record for the same step included) leave `first` there.
   */
  lemma FirstWriterWins<R>(buffer: map<int, R>, step: int, first: R, later: seq<(int, Option<R>)>)
    requires step !in buffer
    ensures var r := Replayed(buffer, true, [(step, Some(first))] + later);
            step in r && r[step] == first
  {
    var calls := [(step, Some(first))] + later;
    assert calls[1..] == later;
    SnapshotsAreNeverOverwritten(Added(buffer, true, step, Some(first)), true, later);
  }

  /**
   * Purging from step s and then from step t (both at least -1) leaves the
   * same buffer as one purge from the smaller of the two.
   */
  lemma RecentPurgesCompose<R>(buffer: map<int, R>, s: int, t: int)
    requires s >= BeforeAnyStep && t >= BeforeAnyStep
    ensures RecentPurged(RecentPurged(buffer, s), t) == RecentPurged(buffer, if s <= t then s else t)
  {
  }

  /**
   * Rolling back to step s (PurgeRecentHistory(s)) frees step s, so the
   * step can be re-run and snapshotted anew; for s >= 0 the steps before s
   * keep their snapshots (s == -1 purges everything, keys below -1 too).
   */
  lemma RerunAfterRollback<R>(buffer: map<int, R>, s: int, record: R)
    requires s >= BeforeAnyStep
    ensures var r := Added(RecentPurged(buffer, s), true, s, Some(record));
            && s in r && r[s] == record
            && forall k | k in buffer && 0 <= s && k < s :: k in r && r[k] == buffer[k]
  {
  }

  /** A non-empty set of steps has a member to pick. */
  lemma NonEmptyHasKey(keys: set<int>)
    requires keys != {}
    ensures exists k :: k in keys
  {
    if forall k :: k !in keys {
      assert false;
    }
  }

  /** The live event record, which the processing steps change in place. */
  class EventRecord<R(!new)> {
    var state: R

    constructor (state: R)
      ensures this.state == state
    {
      this.state := state;
    }
  }

  /** The snapshot buffer of one generation run. */
  class GHepRecordHistory<R(!new)> {
    /** Whether the history is kept at all, fixed when the history is made. */
    const enabled: bool
    /** The stored snapshots, keyed by processing step. */
    var snapshots: map<int, R>

    /** An empty history; `enabled` stands for the environment toggle read at construction. */
    constructor (enabled: bool)
      ensures this.enabled == enabled && snapshots == map[]
    {
      this.enabled := enabled;
      snapshots := map[];
    }

    /** A copy of `other`: its snapshots, when this history is enabled. */
    constructor Copied(enabled: bool, other: GHepRecordHistory<R>)
      ensures this.enabled == enabled
      ensures snapshots == if enabled then other.snapshots else map[]
    {
      this.enabled := enabled;
      snapshots := map[];
      new;
      Copy(other);
    }

    /** Stores a copy of `record` under `step`, unless disabled, null or `step` already taken. */
    method AddSnapshot(step: int, record: Option<R>)
      modifies this
      ensures snapshots == Added(old(snapshots), enabled, step, record)
    {
      if !enabled {
        return;
      }
      if record.None? {
        // the null record is reported and ignored
        return;
      }
      if step !in snapshots {
        snapshots := snapshots[step := record.value];
      } else {
        // the existing snapshot is reported and kept
      }
    }

    /** Drops every snapshot. */
    method PurgeHistory()
      modifies this
      ensures snapshots == map[]
    {
      snapshots := map[];
    }

    /**
     * Drops the snapshots of steps >= start: the keys to drop are selected
     * from a snapshot of the key set, then erased one by one.
     */
    method PurgeRecentHistory(start: int)
      modifies this
      ensures snapshots == RecentPurged(old(snapshots), start)
    {
      if start < BeforeAnyStep {
        // the invalid start is reported and ignored
        return;
      }
      if start == BeforeAnyStep {
        PurgeHistory();
        return;
      }
      // select the keys to erase, then erase them
      var doomed := set k | k in snapshots && k >= start;
      ghost var before, selected := snapshots, doomed;
      while doomed != {}
        invariant doomed <= selected
        invariant snapshots == before - (selected - doomed)
        decreases doomed
      {
        NonEmptyHasKey(doomed);
        var step :| step in doomed;
        snapshots := snapshots - {step};
        doomed := doomed - {step};
      }
    }

    /**
     * Refills this history from `other`, by AddSnapshot on every entry of
     * `other`. When `other` is this history itself, the purge that comes
     * first has already emptied it, and nothing is copied.
     */
    method Copy(other: GHepRecordHistory<R>)
      modifies this
      ensures other != this ==> snapshots == if enabled then old(other.snapshots) else map[]
      ensures other == this ==> snapshots == map[]
    {
      PurgeHistory();
      var source := other.snapshots;
      var pending := source.Keys;
      while pending != {}
        invariant pending <= source.Keys
        invariant enabled ==> snapshots == source - pending
        invariant !enabled ==> snapshots == map[]
        decreases pending
      {
        NonEmptyHasKey(pending);
        var step :| step in pending;
        AddSnapshot(step, Some(source[step]));
        pending := pending - {step};
      }
    }

    /**
     * Copy as its loop is written: after the purge it walks this
     * history instead of `other`, which is what the intended Copy does when
     * handed this history itself, so nothing is ever copied. Copy above is
     * the intended form, and the one the rest of the model uses.
     */
    method CopyAsWritten(other: GHepRecordHistory<R>)
      modifies this
      ensures snapshots == map[]
    {
      Copy(this);
    }
  }

  /**
   * The loop as written loses the history: copying an enabled history that
   * holds one snapshot yields an empty history.
   */
  method CopyAsWrittenDropsSnapshots<R(!new)>(record: R) returns (original: map<int, R>, copied: map<int, R>)
    ensures original == map[0 := record]
    ensures copied == map[] && copied != original
  {
    var history := new GHepRecordHistory<R>(true);
    history.AddSnapshot(0, Some(record));
    var copy := new GHepRecordHistory<R>(true);
    copy.CopyAsWritten(history);
    original, copied := history.snapshots, copy.snapshots;
  }

  /**
   * A snapshot is an independent copy: after the live record is snapshotted
   * under a new step and then changed in place, the snapshot still holds the
   * record as it was when it was taken.
   */
  method SnapshotThenChange<R(!new)>(history: GHepRecordHistory<R>, live: EventRecord<R>, step: int, changed: R)
    requires history.enabled && step !in history.snapshots
    modifies history, live
    ensures live.state == changed
    ensures history.snapshots == old(history.snapshots)[step := old(live.state)]
  {
    history.AddSnapshot(step, Some(live.state));
    live.state := changed;
  }
}
