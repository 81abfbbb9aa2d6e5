/** Snapshot installation by directory renames: the swap, its in-process rollback, recovery on
    reopen, and a crash between any two file-system operations of any of them. Renames are
    atomic and ordered; removing or building a directory tree is not atomic. */
module SnapshotSwap {
  import opened Basics

  /** A directory tree holding a complete shard state, or one caught half built or half removed. */
  datatype Tree<T> = Whole(content: T) | Torn

  /** The shard root and its three workspaces. */
  datatype Dirs<T> = Dirs(root: Option<Tree<T>>, stage: Option<Tree<T>>, backup: Option<Tree<T>>, failed: Option<Tree<T>>)

  /** Where the replica process stands. `Recover` carries whether an installation follows it. */
  datatype Pc =
    | Serving | Down
    | RecoverBackup(installing: bool) | RecoverDropBackup(installing: bool)
    | RecoverStage(installing: bool) | RecoverFailed(installing: bool)
    | MakeStage | Build | SwapOut | SwapIn | Verify
    | Rollback | RollbackIn | DropFailed | DropBackup
    | CleanStage(installed: bool)

  /** How the latest installation ended, as seen once the shard serves again. */
  datatype Ending = Returned | Raised | Interrupted

  datatype State<T> = State(dirs: Dirs<T>, pc: Pc, before: T, after: T, ending: Ending)

  datatype Step<T> =
    | Serve(content: T)        // commits change the open shard in place
    | Begin(snapshot: T)       // install_snapshot is called
    | Advance                  // the next file-system operation succeeds
    | Fail                     // it raises, where the code catches the exception
    | RemoveSome               // a recursive removal has removed part of its tree
    | Crash
    | Reopen

  function CleanDirs<T>(content: T): Dirs<T> {
    Dirs(Some(Whole(content)), None, None, None)
  }

  predicate Enabled<T(==)>(s: State<T>, step: Step<T>) {
    match step
    case Serve(_) => s.pc.Serving?
    case Begin(_) => s.pc.Serving? && s.dirs.root.Some? && s.dirs.root.value.Whole?
    case Advance => !s.pc.Serving? && !s.pc.Down?
    case Fail => s.pc.Build? || s.pc.SwapOut? || s.pc.SwapIn? || s.pc.Verify?
    case RemoveSome =>
      s.pc.RecoverDropBackup? || s.pc.RecoverStage? || s.pc.RecoverFailed? || s.pc.DropFailed? || s.pc.DropBackup? || s.pc.CleanStage?
    case Crash => !s.pc.Down?
    case Reopen => s.pc.Down?
  }

  function Next<T>(s: State<T>, step: Step<T>): State<T>
    requires Enabled(s, step)
  {
    match step
    case Serve(c) => s.(dirs := s.dirs.(root := Some(Whole(c))), before := c, after := c, ending := Interrupted)
    case Begin(c) => s.(pc := RecoverBackup(true), before := s.dirs.root.value.content, after := c, ending := Interrupted)
    case Advance => NextAdvance(s)
    case Fail =>
      s.(pc := if s.pc.Build? || s.pc.SwapOut? then CleanStage(false) else Rollback)
    case RemoveSome => s.(dirs := Tear(s.dirs, s.pc))
    case Crash => s.(pc := Down, ending := Interrupted)
    case Reopen => s.(pc := RecoverBackup(false))
  }

  function TearTree<T>(t: Option<Tree<T>>): Option<Tree<T>> {
    if t.Some? then Some(Torn) else None
  }

  function Tear<T>(d: Dirs<T>, pc: Pc): Dirs<T> {
    match pc
    case RecoverDropBackup(_) => d.(backup := TearTree(d.backup))
    case DropBackup => d.(backup := TearTree(d.backup))
    case RecoverStage(_) => d.(stage := TearTree(d.stage))
    case CleanStage(_) => d.(stage := TearTree(d.stage))
    case RecoverFailed(_) => d.(failed := TearTree(d.failed))
    case DropFailed => d.(failed := TearTree(d.failed))
    case _ => d
  }

  /** One file-system operation of the code, in program order. */
  function NextAdvance<T>(s: State<T>): State<T>
  {
    var d := s.dirs;
    match s.pc
    // _recover_snapshot_workspaces
    case RecoverBackup(i) =>
      if d.backup.None? then s.(pc := RecoverStage(i))
      else if d.root.Some? then s.(pc := RecoverDropBackup(i))
      else s.(dirs := d.(root := d.backup, backup := None), pc := RecoverStage(i))
    case RecoverDropBackup(i) => s.(dirs := d.(backup := None), pc := RecoverStage(i))
    case RecoverStage(i) => s.(dirs := d.(stage := None), pc := RecoverFailed(i))
    case RecoverFailed(i) => s.(dirs := d.(failed := None), pc := if i then MakeStage else Serving, ending := Interrupted)
    // install_snapshot
    case MakeStage => s.(dirs := d.(stage := Some(Torn)), pc := Build)
    case Build => s.(dirs := d.(stage := Some(Whole(s.after))), pc := SwapOut)
    case SwapOut => s.(dirs := d.(backup := d.root, root := None), pc := SwapIn)
    case SwapIn => s.(dirs := d.(root := d.stage, stage := None), pc := Verify)
    case Verify => s.(pc := DropBackup)
    case DropBackup => s.(dirs := d.(backup := None), pc := CleanStage(true))
    // rollback
    case Rollback =>
      s.(dirs := if d.root.Some? then d.(failed := d.root, root := None) else d, pc := RollbackIn)
    case RollbackIn => s.(dirs := d.(root := d.backup, backup := None), pc := DropFailed)
    case DropFailed => s.(dirs := d.(failed := None), pc := CleanStage(false))
    case CleanStage(installed) =>
      s.(dirs := d.(stage := None), pc := Serving, ending := if installed then Returned else Raised)
    case Serving => s
    case Down => s
  }

  // ---------------------------------------------------------------- invariant

  /** The complete state a reopen would serve is the one before or the one being installed. */
  predicate Recoverable<T(==)>(s: State<T>) {
    var kept := Kept(s.dirs);
    kept == Some(Whole(s.before)) || kept == Some(Whole(s.after))
  }

  predicate Inv<T(==)>(s: State<T>) {
    var d := s.dirs;
    var prior, snapshot := Some(Whole(s.before)), Some(Whole(s.after));
    match s.pc
    case Serving =>
      && (d == CleanDirs(s.before) || d == CleanDirs(s.after))
      && (s.ending.Returned? ==> d == CleanDirs(s.after)) && (s.ending.Raised? ==> d == CleanDirs(s.before))
    case Down => Recoverable(s)
    case RecoverBackup(i) => Recoverable(s) && (i ==> d == CleanDirs(s.before))
    case RecoverDropBackup(i) => Recoverable(s) && d.root.Some? && !i
    case RecoverStage(i) => Recoverable(s) && d.backup.None? && (i ==> d == CleanDirs(s.before))
    case RecoverFailed(i) => Recoverable(s) && d.backup.None? && d.stage.None? && (i ==> d == CleanDirs(s.before))
    case MakeStage => d == CleanDirs(s.before)
    case Build => d == Dirs(prior, Some(Torn), None, None)
    case SwapOut => d == Dirs(prior, snapshot, None, None)
    case SwapIn => d == Dirs(None, snapshot, prior, None)
    case Verify => d == Dirs(snapshot, None, prior, None)
    case Rollback => d == Dirs(None, snapshot, prior, None) || d == Dirs(snapshot, None, prior, None)
    case RollbackIn => d == Dirs(None, d.stage, prior, d.failed)
    case DropFailed => d == Dirs(prior, d.stage, None, d.failed)
    case DropBackup => d == Dirs(snapshot, None, d.backup, None)
    case CleanStage(installed) => d == Dirs(if installed then snapshot else prior, d.stage, None, None)
  }

  lemma StepKeepsInv<T>(s: State<T>, step: Step<T>)
    requires Inv(s) && Enabled(s, step)
    ensures Inv(Next(s, step))
  {
  }

  ghost predicate Run<T(!new)>(run: seq<State<T>>) {
    && |run| > 0
    && (exists c :: run[0].dirs == CleanDirs(c) && run[0].before == c) && run[0].pc == Serving && run[0].ending == Interrupted
    && forall i, j :: 0 <= i < |run| && j == i + 1 && j < |run| ==> Follows(run[i], run[j])
  }

  ghost predicate Follows<T(!new)>(s: State<T>, t: State<T>) {
    exists step :: Enabled(s, step) && t == Next(s, step)
  }

  lemma {:induction false} ReachableInv<T(!new)>(run: seq<State<T>>, i: nat)
    requires Run(run) && i < |run|
    ensures Inv(run[i])
  {
    if i > 0 {
      ReachableInv(run, i - 1);
      assert Follows(run[i - 1], run[i]);
      var step :| Enabled(run[i - 1], step) && run[i] == Next(run[i - 1], step);
      StepKeepsInv(run[i - 1], step);
    }
  }

  /** Crash-atomicity over every run: whenever the shard serves, no workspace is left over and
      its root is one complete state, the one before the latest installation or the installed
      snapshot; an installation that returned left the snapshot, one that raised left the old
      state. */
  lemma InstallationIsCrashAtomic<T(!new)>(run: seq<State<T>>, i: nat)
    requires Run(run) && i < |run| && run[i].pc.Serving?
    ensures run[i].dirs == CleanDirs(run[i].before) || run[i].dirs == CleanDirs(run[i].after)
    ensures run[i].ending.Returned? ==> run[i].dirs == CleanDirs(run[i].after)
    ensures run[i].ending.Raised? ==> run[i].dirs == CleanDirs(run[i].before)
  {
    ReachableInv(run, i);
  }

  /** What a reopen would serve. */
  function Kept<T>(d: Dirs<T>): Option<Tree<T>> {
    if d.root.Some? then d.root else d.backup
  }

  /** Outside an installation nothing changes what is kept: neither crashes nor any part of a
      recovery. */
  lemma StepKeepsServed<T>(s: State<T>, step: Step<T>)
    requires Inv(s) && Enabled(s, step) && !step.Serve? && !step.Begin? && Outside(s.pc)
    ensures Outside(Next(s, step).pc) && Kept(Next(s, step).dirs) == Kept(s.dirs)
  {
  }

  /** The process serves, is down, or recovers after a reopen. */
  predicate Outside(pc: Pc) {
    pc.Serving? || pc.Down? || pc == RecoverBackup(false) || pc == RecoverDropBackup(false) || pc == RecoverStage(false) || pc == RecoverFailed(false)
  }

  ghost predicate Undisturbed<T(!new)>(s: State<T>, t: State<T>) {
    exists step: Step<T> :: Enabled(s, step) && t == Next(s, step) && !step.Serve? && !step.Begin?
  }

  /** The outcome of an installation is decided once: two moments of service with neither a commit
      nor another installation between them have the same directories, through any number of
      crashes and reopens. */
  lemma {:induction false} OutcomeIsDecidedOnce<T(!new)>(run: seq<State<T>>, i: nat, j: nat)
    requires Run(run) && i <= j < |run| && run[i].pc.Serving? && run[j].pc.Serving?
    requires forall k, l :: i <= k < j && l == k + 1 ==> Undisturbed(run[k], run[l])
    ensures run[j].dirs == run[i].dirs
  {
    StaysOutside(run, i, j);
    ReachableInv(run, i);
    ReachableInv(run, j);
  }

  lemma {:induction false} StaysOutside<T(!new)>(run: seq<State<T>>, i: nat, j: nat)
    requires Run(run) && i <= j < |run| && run[i].pc.Serving?
    requires forall k, l :: i <= k < j && l == k + 1 ==> Undisturbed(run[k], run[l])
    ensures Outside(run[j].pc) && Kept(run[j].dirs) == Kept(run[i].dirs)
    decreases j
  {
    if i < j {
      StaysOutside(run, i, j - 1);
      ReachableInv(run, j - 1);
      assert Undisturbed(run[j - 1], run[j]);
      var step: Step<T> :| Enabled(run[j - 1], step) && run[j] == Next(run[j - 1], step) && !step.Serve? && !step.Begin?;
      StepKeepsServed(run[j - 1], step);
    }
  }

  /** Between the call and the next moment of service, `before` and `after` stay what they were
      when `install_snapshot` was called, through any number of crashes and reopens. */
  lemma {:induction false} EndpointsAreFixed<T(!new)>(run: seq<State<T>>, i: nat, j: nat)
    requires Run(run) && i <= j < |run|
    requires forall k :: i <= k < j ==> !run[k].pc.Serving?
    ensures run[j].before == run[i].before && run[j].after == run[i].after
    decreases j
  {
    if i < j {
      EndpointsAreFixed(run, i, j - 1);
      assert Follows(run[j - 1], run[j]);
      var step :| Enabled(run[j - 1], step) && run[j] == Next(run[j - 1], step);
    }
  }

  // ---------------------------------------------------------------- how a call ends

  /** The steps that led from state to state. */
  ghost predicate Took<T(!new)>(run: seq<State<T>>, steps: seq<Step<T>>) {
    && |run| == |steps| + 1
    && forall k, l :: 0 <= k < |steps| && l == k + 1 ==> Takes(run[k], steps[k], run[l])
  }

  predicate Takes<T(==)>(s: State<T>, step: Step<T>, t: State<T>) { Enabled(s, step) && t == Next(s, step) }

  /** One uncrashed call of `install_snapshot`, from the moment of service in which it begins to the
      next one. */
  ghost predicate WholeCall<T(!new)>(run: seq<State<T>>, steps: seq<Step<T>>, c: T) {
    && Took(run, steps) && |steps| > 0 && Inv(run[0]) && steps[0] == Begin(c)
    && (forall k :: 1 <= k < |steps| ==> !run[k].pc.Serving? && !steps[k].Crash?)
    && run[|steps|].pc.Serving?
  }

  /** Where an uncrashed call can stand before an operation has failed, and after. */
  predicate Unfailed(pc: Pc) {
    || pc == RecoverBackup(true) || pc == RecoverDropBackup(true) || pc == RecoverStage(true) || pc == RecoverFailed(true)
    || pc.MakeStage? || pc.Build? || pc.SwapOut? || pc.SwapIn? || pc.Verify? || pc.DropBackup? || pc == CleanStage(true)
  }

  predicate Failed(pc: Pc) {
    pc.Rollback? || pc.RollbackIn? || pc.DropFailed? || pc == CleanStage(false)
  }

  lemma CallStep<T>(s: State<T>, step: Step<T>)
    requires Inv(s) && Enabled(s, step) && !step.Crash? && (Unfailed(s.pc) || Failed(s.pc))
    ensures var t := Next(s, step);
      && t.before == s.before && t.after == s.after
      && (if t.pc.Serving? then
            (Unfailed(s.pc) && !step.Fail? && t.ending.Returned?) || (Failed(s.pc) && !step.Fail? && t.ending.Raised?)
          else if Failed(s.pc) || step.Fail? then Failed(t.pc)
          else Unfailed(t.pc))
  {
  }

  lemma {:induction false} CallStands<T(!new)>(run: seq<State<T>>, steps: seq<Step<T>>, c: T, k: nat)
    requires WholeCall(run, steps, c) && 1 <= k < |steps|
    ensures Inv(run[k]) && Some(Whole(run[k].before)) == run[0].dirs.root && run[k].after == c
    ensures if exists j :: 1 <= j < k && steps[j].Fail? then Failed(run[k].pc) else Unfailed(run[k].pc)
  {
    if k == 1 {
      assert Takes(run[0], steps[0], run[1]);
      StepKeepsInv(run[0], steps[0]);
    } else {
      CallStands(run, steps, c, k - 1);
      assert Takes(run[k - 1], steps[k - 1], run[k]);
      hide Inv;
      StepKeepsInv(run[k - 1], steps[k - 1]);
      CallStep(run[k - 1], steps[k - 1]);
    }
  }

  lemma CallBeginsServing<T(!new)>(run: seq<State<T>>, steps: seq<Step<T>>, c: T)
    requires WholeCall(run, steps, c)
    ensures run[0].pc.Serving? && run[1].pc == RecoverBackup(true) && |steps| > 1
  {
    assert Takes(run[0], steps[0], run[1]);
  }

  /** An uncrashed call raises if and only if one of its operations failed, and then leaves the
      directories as they were; otherwise it returns and the root is the snapshot. */
  lemma UncrashedCallEnds<T(!new)>(run: seq<State<T>>, steps: seq<Step<T>>, c: T)
    requires WholeCall(run, steps, c)
    ensures var t := run[|steps|];
      if exists j :: 1 <= j < |steps| && steps[j].Fail? then t.ending.Raised? && t.dirs == run[0].dirs
      else t.ending.Returned? && t.dirs == CleanDirs(c)
  {
    var n := |steps|;
    CallBeginsServing(run, steps, c);
    CallStands(run, steps, c, n - 1);
    assert Takes(run[n - 1], steps[n - 1], run[n]);
    StepKeepsInv(run[n - 1], steps[n - 1]);
    CallStep(run[n - 1], steps[n - 1]);
    assert run[0].dirs == Dirs(run[0].dirs.root, None, None, None);
    assert run[n].ending.Raised? ==> run[n].dirs == CleanDirs(run[n - 1].before);
  }

  /** How far an undisturbed call still has to go. */
  function Rank(pc: Pc): nat {
    match pc
    case RecoverBackup(_) => 12
    case RecoverDropBackup(_) => 11
    case RecoverStage(_) => 10
    case RecoverFailed(_) => 9
    case MakeStage => 8
    case Build => 7
    case SwapOut => 6
    case SwapIn => 5
    case Verify => 4
    case DropBackup => 3
    case CleanStage(_) => 2
    case _ => 0
  }

  lemma {:induction false} GoesThrough<T(!new)>(s: State<T>) returns (run: seq<State<T>>, steps: seq<Step<T>>)
    requires Inv(s) && Unfailed(s.pc)
    ensures Took(run, steps) && |steps| > 0 && run[0] == s && run[|steps|].pc.Serving?
    ensures forall k :: 0 <= k < |steps| ==> !run[k].pc.Serving? && steps[k] == Step<T>.Advance
    decreases Rank(s.pc)
  {
    var t := Next(s, Advance);
    StepKeepsInv(s, Advance);
    if t.pc.Serving? {
      run, steps := [s, t], [Advance];
    } else {
      var later, taken := GoesThrough(t);
      run, steps := [s] + later, [Step<T>.Advance] + taken;
      forall k, l | 0 <= k < |steps| && l == k + 1 ensures Takes(run[k], steps[k], run[l]) {
        if k > 0 { assert run[k] == later[k - 1] && run[l] == later[k] && steps[k] == taken[k - 1]; }
      }
    }
  }

  /** From every moment of service, when nothing fails and nothing crashes, a call to install any
      snapshot returns and has installed it. */
  lemma InstallationSucceeds<T(!new)>(s: State<T>, c: T) returns (run: seq<State<T>>, steps: seq<Step<T>>)
    requires Inv(s) && s.pc.Serving?
    ensures WholeCall(run, steps, c) && run[0] == s && forall k :: 1 <= k < |steps| ==> steps[k] == Step<T>.Advance
    ensures run[|steps|].ending.Returned? && run[|steps|].dirs == CleanDirs(c)
  {
    var t := Next(s, Begin(c));
    StepKeepsInv(s, Begin(c));
    var later, taken := GoesThrough(t);
    run, steps := [s] + later, [Begin(c)] + taken;
    forall k, l | 0 <= k < |steps| && l == k + 1 ensures Takes(run[k], steps[k], run[l]) {
      if k > 0 { assert run[k] == later[k - 1] && run[l] == later[k] && steps[k] == taken[k - 1]; }
    }
    forall k | 1 <= k < |steps| ensures !run[k].pc.Serving? && steps[k] == Step<T>.Advance { assert run[k] == later[k - 1]; }
    assert run[|steps|] == later[|taken|];
    UncrashedCallEnds(run, steps, c);
  }

  // ---------------------------------------------------------------- recovery as it runs

  /** The parent directory of one shard. */
  class Workspaces<T> {
    var dirs: Dirs<T>

    constructor (dirs: Dirs<T>)
      ensures this.dirs == dirs
    {
      this.dirs := dirs;
    }

    /** `_recover_snapshot_workspaces`, uninterrupted. */
    method Recover()
      modifies this
      ensures dirs == Dirs(if old(dirs).root.Some? then old(dirs).root else old(dirs).backup, None, None, None)
    {
      if dirs.backup.Some? {
        if dirs.root.Some? {
          dirs := dirs.(backup := None);
        } else {
          dirs := dirs.(root := dirs.backup, backup := None);
        }
      }
      dirs := dirs.(stage := None);
      dirs := dirs.(failed := None);
    }
  }

  /** From any point at which the process may die, one uninterrupted recovery leaves exactly one
      complete state. */
  lemma RecoveryIsComplete<T>(s: State<T>)
    requires Inv(s)
    ensures var d := Dirs(if s.dirs.root.Some? then s.dirs.root else s.dirs.backup, None, None, None);
      d == CleanDirs(s.before) || d == CleanDirs(s.after)
  {
  }
}
