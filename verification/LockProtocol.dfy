/**
 * The lock file protocol.  The world holds the directory entry of one lock path, the descriptor tables that
 * `/proc` shows, and the `Lockfile` objects of all processes.  `lock` and `unlock` do not await, so they are
 * single steps; a process may die anywhere, also inside `lock`.
 */
module LockProtocol {
  import opened Prelude

  type Pid = nat
  type Fd = nat
  type Inode = nat
  type LockId = nat

  /** What the lock file says: nothing yet, `/proc/<pid>/fd/<fd>`, or a text that is no such path. */
  datatype Text = Blank | Proc(pid: Pid, fd: Fd) | Foreign

  datatype File = File(inode: Inode, text: Text)

  datatype World = World(
    file: Option<File>,             // what the lock path leads to
    open: map<(Pid, Fd), Inode>,    // /proc/<pid>/fd/<fd>
    owner: map<LockId, Pid>,        // the process of each Lockfile object
    handle: map<LockId, Fd>)        // `self.lockfile`, for the objects where it is not None

  datatype Outcome = Acquired | AlreadyHeld | Refused

  datatype Event =
    | Create(lock: LockId, pid: Pid)
    | Lock(lock: LockId, fd: Fd, inode: Inode)
    | Unlock(lock: LockId)
    | Crash(pid: Pid)
    | CrashInLock(lock: LockId, inode: Inode)      // after open(), before write()
    | Open(pid: Pid, fd: Fd, inode: Inode)         // some other file
    | Close(pid: Pid, fd: Fd)

  // ---------------------------------------------------------------- lock and unlock

  /** The test of lines 59 to 65: the descriptor the file names is open on this very file. */
  predicate Claimed(w: World, f: File) {
    f.text.Proc? && (f.text.pid, f.text.fd) in w.open && w.open[(f.text.pid, f.text.fd)] == f.inode
  }

  function LockOutcome(w: World, l: LockId): Outcome {
    if l in w.handle then AlreadyHeld
    else if w.file.Some? && Claimed(w, w.file.value) then Refused
    else Acquired
  }

  /** A created file has an inode that is in use nowhere; taking a stale file over keeps its inode. */
  function LockInode(w: World, inode: Inode): Inode {
    if w.file.Some? then w.file.value.inode else inode
  }

  predicate FreshChoice(w: World, l: LockId, fd: Fd, inode: Inode) {
    l in w.owner && (w.owner[l], fd) !in w.open && (w.file.None? ==> inode !in w.open.Values)
  }

  function Locked(w: World, l: LockId, fd: Fd, inode: Inode): World
    requires l in w.owner
  {
    if LockOutcome(w, l) != Acquired then w
    else
      var i := LockInode(w, inode);
      w.(file := Some(File(i, Proc(w.owner[l], fd))), open := w.open[(w.owner[l], fd) := i],
         handle := w.handle[l := fd])
  }

  function Unlocked(w: World, l: LockId): World
    requires l in w.owner && l in w.handle
  {
    w.(file := None, open := w.open - {(w.owner[l], w.handle[l])}, handle := w.handle - {l})
  }

  function LocksOf(w: World, pid: Pid): set<LockId> {
    set l | l in w.owner && w.owner[l] == pid
  }

  function FdsOf(w: World, pid: Pid): set<(Pid, Fd)> {
    set k | k in w.open && k.0 == pid
  }

  function Crashed(w: World, pid: Pid): World {
    w.(open := w.open - FdsOf(w, pid), owner := w.owner - LocksOf(w, pid), handle := w.handle - LocksOf(w, pid))
  }

  function Next(w: World, e: Event): Option<World> {
    match e
    case Create(l, pid) => if l !in w.owner && l !in w.handle then Some(w.(owner := w.owner[l := pid])) else None
    case Lock(l, fd, inode) => if FreshChoice(w, l, fd, inode) then Some(Locked(w, l, fd, inode)) else None
    case Unlock(l) =>
      if l !in w.owner then None
      else if l !in w.handle then Some(w)     // raises LockNotHeldError
      else Some(Unlocked(w, l))
    case Crash(pid) => Some(Crashed(w, pid))
    case CrashInLock(l, inode) =>
      if l in w.owner && LockOutcome(w, l) == Acquired && (w.file.None? ==> inode !in w.open.Values)
      then Some(Crashed(w.(file := Some(File(LockInode(w, inode), Blank))), w.owner[l])) else None
    case Open(pid, fd, inode) =>
      if (pid, fd) !in w.open && (w.file.Some? ==> inode != w.file.value.inode)
      then Some(w.(open := w.open[(pid, fd) := inode])) else None
    case Close(pid, fd) =>
      if forall l | l in w.handle && l in w.owner :: (w.owner[l], w.handle[l]) != (pid, fd)
      then Some(w.(open := w.open - {(pid, fd)})) else None
  }

  /** At first nobody has the lock path open; a stale file may have been left behind. */
  predicate Initial(w: World) {
    w.owner == map[] && w.handle == map[] && (w.file.Some? ==> w.file.value.inode !in w.open.Values)
  }

  ghost predicate IsRun(run: seq<World>, events: seq<Event>) {
    |run| == |events| + 1 && Initial(run[0])
    && forall i | 0 <= i < |events| :: Next(run[i], events[i]) == Some(run[i + 1])
  }

  // ---------------------------------------------------------------- the invariant

  /** `l` holds the lock: the path leads to the file it has open, and that file names it. */
  ghost predicate Holds(w: World, l: LockId) {
    l in w.handle && l in w.owner
    && var k := (w.owner[l], w.handle[l]);
       k in w.open && w.file == Some(File(w.open[k], Proc(k.0, k.1)))
  }

  /** The descriptor belongs to a held Lockfile object. */
  ghost predicate Backed(w: World, k: (Pid, Fd)) {
    exists l | l in w.handle && l in w.owner :: (w.owner[l], w.handle[l]) == k
  }

  /** There is at most one holder, and only the holder has the lock file open. */
  ghost predicate Safe(w: World) {
    && (forall l | l in w.handle :: Holds(w, l))
    && (forall l, l' | l in w.handle && l' in w.handle :: l == l')
    && (forall k | k in w.open && w.file.Some? && w.open[k] == w.file.value.inode :: Backed(w, k))
  }

  /** The staleness test is exact: the file is claimed if and only if some object holds the lock. */
  lemma ClaimedIffHeld(w: World)
    requires Safe(w)
    ensures w.file.Some? && Claimed(w, w.file.value) <==> w.handle != map[]
    ensures w.file.Some? && w.handle == map[] ==> w.file.value.inode !in w.open.Values
  {
    if w.handle != map[] {
      var l :| l in w.handle;
      assert Holds(w, l);
    } else if w.file.Some? {
      var f := w.file.value;
      forall k | k in w.open ensures w.open[k] != f.inode {
        assert w.open[k] == f.inode ==> Backed(w, k);
      }
    }
  }

  lemma LockSafe(w: World, l: LockId, fd: Fd, inode: Inode)
    requires Safe(w) && FreshChoice(w, l, fd, inode)
    ensures Safe(Locked(w, l, fd, inode))
  {
    if LockOutcome(w, l) == Acquired {
      var w' := Locked(w, l, fd, inode);
      ClaimedIffHeld(w);
      forall k | k in w'.open && w'.open[k] == w'.file.value.inode ensures Backed(w', k) {
        assert k == (w'.owner[l], w'.handle[l]);
      }
    }
  }

  lemma CrashSafe(w: World, pid: Pid)
    requires Safe(w)
    ensures Safe(Crashed(w, pid))
  {
    var w' := Crashed(w, pid);
    forall l | l in w'.handle ensures Holds(w', l) { assert Holds(w, l); }
    forall k | k in w'.open && w'.file.Some? && w'.open[k] == w'.file.value.inode ensures Backed(w', k) {
      assert Backed(w, k);
      var l :| l in w.handle && l in w.owner && (w.owner[l], w.handle[l]) == k;
      assert l in w'.handle && (w'.owner[l], w'.handle[l]) == k;
    }
  }

  /** Dying between opening the file and writing to it leaves a blank, unclaimed file. */
  lemma CrashInLockSafe(w: World, l: LockId, inode: Inode)
    requires Safe(w) && l in w.owner && LockOutcome(w, l) == Acquired
    requires w.file.None? ==> inode !in w.open.Values
    ensures Safe(w.(file := Some(File(LockInode(w, inode), Blank))))
  {
    ClaimedIffHeld(w);
  }

  lemma StepSafe(w: World, e: Event)
    requires Safe(w) && Next(w, e).Some?
    ensures Safe(Next(w, e).value)
  {
    var w' := Next(w, e).value;
    match e
    case Lock(l, fd, inode) => LockSafe(w, l, fd, inode);
    case Crash(pid) => CrashSafe(w, pid);
    case CrashInLock(l, inode) =>
      CrashInLockSafe(w, l, inode);
      CrashSafe(w.(file := Some(File(LockInode(w, inode), Blank))), w.owner[l]);
    case Unlock(l) =>
    case _ =>
      assert forall l | l in w'.handle :: Holds(w, l) && Holds(w', l);
      forall k | k in w'.open && w'.file.Some? && w'.open[k] == w'.file.value.inode ensures Backed(w', k) {
        assert Backed(w, k);
        var l :| l in w.handle && l in w.owner && (w.owner[l], w.handle[l]) == k;
        assert (w'.owner[l], w'.handle[l]) == k;
      }
  }

  // ---------------------------------------------------------------- theorems

  lemma {:induction false} RunSafe(run: seq<World>, events: seq<Event>, i: nat)
    requires IsRun(run, events) && i < |run|
    ensures Safe(run[i])
  {
    if i > 0 {
      RunSafe(run, events, i - 1);
      assert Next(run[i - 1], events[i - 1]) == Some(run[i]);
      StepSafe(run[i - 1], events[i - 1]);
    }
  }

  /** At most one live Lockfile holds the path; the path is its open inode and the file names it. */
  lemma MutualExclusion(run: seq<World>, events: seq<Event>, i: nat, l: LockId, l': LockId)
    requires IsRun(run, events) && i < |run| && l in run[i].handle
    ensures Holds(run[i], l)
    ensures l' in run[i].handle ==> l' == l
  {
    RunSafe(run, events, i);
  }

  /**
   * After any history, crashes and reused process and descriptor numbers included, `lock` raises if and only
   * if another object holds the lock, and then it changes nothing; otherwise the caller holds it afterwards.
   */
  lemma LockSucceedsIffFree(run: seq<World>, events: seq<Event>, i: nat, l: LockId, fd: Fd, inode: Inode)
    requires IsRun(run, events) && i < |run| && FreshChoice(run[i], l, fd, inode)
    ensures var w, w' := run[i], Locked(run[i], l, fd, inode);
            && (LockOutcome(w, l) == Refused <==> exists l' | l' in w.handle :: l' != l)
            && (LockOutcome(w, l) == Refused ==> w' == w)
            && (LockOutcome(w, l) != Refused ==> Holds(w', l))
            && (LockOutcome(w, l) == Acquired && w.file.Some? ==>
                  w'.file.Some? && w'.file.value.inode == w.file.value.inode)
            && (forall k | k in w.open :: k in w'.open && w'.open[k] == w.open[k])
            && (LockOutcome(w, l) == Acquired ==> w'.open.Keys == w.open.Keys + {(w.owner[l], fd)})
  {
    RunSafe(run, events, i);
    ClaimedIffHeld(run[i]);
    LockSafe(run[i], l, fd, inode);
    if run[i].handle != map[] { var l' :| l' in run[i].handle; }
  }

  /** Once the holder's process has died, anywhere, the next `lock` of anybody takes the file over. */
  lemma CrashRecovery(run: seq<World>, events: seq<Event>, i: nat, holder: LockId, l: LockId)
    requires IsRun(run, events) && i < |run| && holder in run[i].handle
    ensures holder in run[i].owner
    ensures LockOutcome(Crashed(run[i], run[i].owner[holder]), l) == Acquired
  {
    RunSafe(run, events, i);
    var w := Crashed(run[i], run[i].owner[holder]);
    CrashSafe(run[i], run[i].owner[holder]);
    ClaimedIffHeld(w);
    assert w.handle == map[];
  }

  /** `unlock` of the holder frees the lock: the path is gone and any `lock` succeeds. */
  lemma UnlockFrees(run: seq<World>, events: seq<Event>, i: nat, l: LockId, l': LockId)
    requires IsRun(run, events) && i < |run| && l in run[i].handle
    ensures l in run[i].owner
    ensures var w := Unlocked(run[i], l); w.file.None? && w.handle == map[] && LockOutcome(w, l') == Acquired
    ensures var k := (run[i].owner[l], run[i].handle[l]);
            k in run[i].open && Unlocked(run[i], l).open == run[i].open - {k}
  {
    RunSafe(run, events, i);
    assert Holds(run[i], l);
  }
}
