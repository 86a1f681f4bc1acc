/** The bookkeeping of git worktrees (`SandboxWorktree`). Git itself is a yes or no from outside. */
module SandboxWorktree {
  import opened Common
  import WD = WorktreeDiff

  /** `committed` is what the branch holds beyond its base; no step of the program commits anything.
      `branchDeleted` says that a deletion of the branch has been asked for. */
  datatype Handle = Handle(branch: string, files: seq<string>, cleanedUp: bool, branchDeleted: bool,
                           committed: seq<WD.Change>)

  type Handles = map<string, Handle>

  datatype Error = AlreadyActive | GitFailed | UnknownRun | AlreadyCleanedUp

  function BranchOf(runId: string): string {
    "autodev/" + runId
  }

  function Created(h: Handles, runId: string, gitOk: bool): Result<Handles, Error> {
    if runId in h then Err(AlreadyActive)
    else if !gitOk then Err(GitFailed)
    else Ok(h[runId := Handle(BranchOf(runId), [], false, false, [])])
  }

  /** `capture_diff`: `diff` is what git prints, or nothing when it fails. */
  function Captured(h: Handles, runId: string, diff: Option<seq<string>>): Result<Handles, Error> {
    if runId !in h then Err(UnknownRun)
    else if h[runId].cleanedUp then Err(AlreadyCleanedUp)
    else if diff.None? then Err(GitFailed)
    else Ok(h[runId := h[runId].(files := WD.FilesOf(diff.value))])
  }

  function Cleaned(h: Handles, runId: string, keepBranch: bool): Handles {
    if runId !in h || h[runId].cleanedUp then h
    else h[runId := h[runId].(cleanedUp := true, branchDeleted := !keepBranch)]
  }

  /** Cleaning up again changes nothing, whatever it is asked to keep. */
  lemma CleanupIsIdempotent(h: Handles, runId: string, first: bool, second: bool)
    ensures Cleaned(Cleaned(h, runId, first), runId, second) == Cleaned(h, runId, first)
  {
  }

  class WorktreeHandle {
    const branch: string
    var files: seq<string>
    var cleanedUp: bool
    var branchDeleted: bool
    ghost const committed: seq<WD.Change> := []

    ghost function View(): Handle
      reads this
    {
      Handle(branch, files, cleanedUp, branchDeleted, committed)
    }

    constructor (branch: string)
      ensures View() == Handle(branch, [], false, false, [])
    {
      this.branch, files, cleanedUp, branchDeleted := branch, [], false, false;
    }
  }

  class SandboxWorktree {
    var active: map<string, WorktreeHandle>

    ghost predicate Valid()
      reads this
    {
      forall i, j :: i in active && j in active && active[i] == active[j] ==> i == j
    }

    ghost function View(): Handles
      reads this, active.Values
    {
      map id | id in active :: active[id].View()
    }

    constructor ()
      ensures Valid() && View() == map[]
    {
      active := map[];
    }

    method Create(runId: string, gitOk: bool) returns (r: Result<WorktreeHandle, Error>)
      requires Valid()
      modifies this
      ensures Valid() && fresh(active.Values - old(active.Values))
      ensures var s := Created(old(View()), runId, gitOk);
        if s.Ok? then runId in active && View() == s.value && active == old(active)[runId := active[runId]] && r == Ok(active[runId])
        else r == Err(s.error) && View() == old(View()) && active == old(active)
    {
      if runId in active {
        return Err(AlreadyActive);
      }
      if !gitOk {
        return Err(GitFailed);
      }
      var handle := new WorktreeHandle(BranchOf(runId));
      active := active[runId := handle];
      r := Ok(handle);
    }

    method CaptureDiff(runId: string, diff: Option<seq<string>>) returns (r: Result<(), Error>)
      requires Valid()
      modifies active.Values
      ensures Valid()
      ensures var s := Captured(old(View()), runId, diff);
        if s.Ok? then r == Ok(()) && View() == s.value else r == Err(s.error) && View() == old(View())
    {
      if runId !in active {
        return Err(UnknownRun);
      }
      var handle := active[runId];
      if handle.cleanedUp {
        return Err(AlreadyCleanedUp);
      }
      if diff.None? {
        return Err(GitFailed);
      }
      var files := WD.ParseModifiedFiles(diff.value);
      handle.files := files;
      r := Ok(());
    }

    /** Safe to call again: nothing happens to a worktree that is cleaned up already. */
    method Cleanup(runId: string, keepBranch: bool)
      requires Valid()
      modifies active.Values
      ensures Valid() && View() == Cleaned(old(View()), runId, keepBranch)
    {
      if runId !in active || active[runId].cleanedUp {
        return;
      }
      var handle := active[runId];
      handle.branchDeleted := !keepBranch;
      handle.cleanedUp := true;
    }
  }
}
