/** Task attributes that several components share. */
module TaskStates {
  type Priority = p: nat | p <= 3

  datatype Lifecycle = Open | Reopened | Completed | NotPlanned {
    predicate IsOpen() {
      Open? || Reopened?
    }
  }

  datatype SyncState = LocalOnly | Staged | Synced | DirtyLocal | DirtyRemote | Conflict

  /** Flagging a conflict; the states that do not admit it stay. */
  function MarkConflicted(s: SyncState): (r: SyncState)
    ensures s in {DirtyLocal, DirtyRemote, Synced} ==> r == Conflict
    ensures s in {LocalOnly, Staged, Conflict} ==> r == s
  {
    if s.DirtyLocal? || s.DirtyRemote? || s.Synced? then Conflict else s
  }
}
