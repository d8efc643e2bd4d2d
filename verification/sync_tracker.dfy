/**
 The marker of the data-model sync currently running: an id, or the empty
 string when none is.
 */
module SyncTracker {
  import opened RouterState

  /** `MarkSyncInProgress(trackerId)`: the given sync becomes the current one. */
  function MarkSyncInProgress(m: Manager, trackerId: string): (r: Manager)
    ensures r.currentSync == trackerId
    ensures r.(currentSync := m.currentSync) == m
  {
    m.(currentSync := trackerId)
  }

  /** `MarkSyncStopped(trackerId)`: clears the marker only if that sync is the current one. */
  function MarkSyncStopped(m: Manager, trackerId: string): (r: Manager)
    ensures m.currentSync == trackerId ==> r.currentSync == ""
    ensures m.currentSync != trackerId ==> r == m
    ensures r.(currentSync := m.currentSync) == m
  {
    if m.currentSync == trackerId then m.(currentSync := "") else m
  }

  /** `IsSyncInProgress()` as its name promises: true exactly when a sync id is set. */
  function IsSyncInProgressFixed(m: Manager): (b: bool)
    ensures b <==> m.currentSync != ""
  {
    m.currentSync != ""
  }

  /** `IsSyncInProgress()` as written: the opposite of the intended answer, in every state. */
  function IsSyncInProgress(m: Manager): (b: bool)
    ensures b <==> !IsSyncInProgressFixed(m)
  {
    m.currentSync == ""
  }

  /**
   As written, a sync just marked in progress is reported as not in
   progress, and once stopped it is reported as in progress.
   */
  lemma SyncReportInverted(m: Manager, id: string)
    requires id != ""
    ensures !IsSyncInProgress(MarkSyncInProgress(m, id))
    ensures IsSyncInProgress(MarkSyncStopped(MarkSyncInProgress(m, id), id))
  {
  }

  /**
   With the corrected query: a marked sync is in progress until that same
   sync stops; a stale stop for another id leaves it in progress.
   */
  lemma SyncLifecycle(m: Manager, id: string, other: string)
    requires id != "" && other != id
    ensures IsSyncInProgressFixed(MarkSyncInProgress(m, id))
    ensures IsSyncInProgressFixed(MarkSyncStopped(MarkSyncInProgress(m, id), other))
    ensures !IsSyncInProgressFixed(MarkSyncStopped(MarkSyncInProgress(m, id), id))
  {
  }

  /** Stopping is idempotent: a second stop of the same id changes nothing. */
  lemma StopIdempotent(m: Manager, id: string)
    ensures MarkSyncStopped(MarkSyncStopped(m, id), id) == MarkSyncStopped(m, id)
  {
  }
}
