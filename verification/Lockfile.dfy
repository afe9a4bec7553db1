/** The `Lockfile` and `LockRetry` objects of one machine, in the form of lockfile.py. */
module Lockfile {
  import opened Prelude
  import opened LockProtocol

  class Machine {
    var file: Option<File>
    var open: map<(Pid, Fd), Inode>
    var owner: map<LockId, Pid>
    var handle: map<LockId, Fd>

    function View(): World
      reads this
    {
      World(file, open, owner, handle)
    }

    /** The system gives out the lowest free descriptor. */
    method FreeFd(pid: Pid) returns (fd: Fd)
      ensures (pid, fd) !in open && forall n | 0 <= n < fd :: (pid, n) in open
    {
      fd := 0;
      while (pid, fd) in open
        invariant forall n | 0 <= n < fd :: (pid, n) in open
        decreases set k | k in open && k.0 == pid && k.1 >= fd
      {
        ghost var rest := set k | k in open && k.0 == pid && k.1 >= fd;
        assert (pid, fd) in rest;
        fd := fd + 1;
        assert (set k | k in open && k.0 == pid && k.1 >= fd) <= rest - {(pid, fd - 1)};
      }
    }

    /** `Lockfile.lock`; `Refused` stands for LockHeldError. */
    method Lock(l: LockId, inode: Inode) returns (outcome: Outcome, ghost fd: Fd)
      requires Safe(View()) && l in owner && (file.None? ==> inode !in open.Values)
      modifies this
      ensures outcome == LockOutcome(old(View()), l)
      ensures FreshChoice(old(View()), l, fd, inode) && View() == Locked(old(View()), l, fd, inode)
      ensures Safe(View()) && (outcome != Refused ==> Holds(View(), l))
    {
      var pid := owner[l];
      var n := FreeFd(pid);
      fd := n;
      ClaimedIffHeld(View());
      LockSafe(View(), l, n, inode);
      if l in handle { return AlreadyHeld, n; }
      if file.None? {
        file := Some(File(inode, Blank));
        open := open[(pid, n) := inode];
      } else {
        var there := file.value;
        if there.text.Proc? {
          var target := (there.text.pid, there.text.fd);
          if target in open && open[target] == there.inode { return Refused, n; }
        }
        file := Some(File(there.inode, Blank));
        open := open[(pid, n) := there.inode];
      }
      handle := handle[l := n];
      file := Some(File(file.value.inode, Proc(pid, n)));
      outcome := Acquired;
    }

    /** `Lockfile.unlock`; false stands for LockNotHeldError. */
    method Unlock(l: LockId) returns (released: bool)
      requires Safe(View()) && l in owner
      modifies this
      ensures released == (l in old(handle)) && l !in handle && Safe(View())
      ensures View() == if released then Unlocked(old(View()), l) else old(View())
      ensures released ==> file.None? && handle == map[]
    {
      if l !in handle { return false; }
      StepSafe(View(), Event.Unlock(l));
      assert Holds(View(), l);
      file := None;
      open := open - {(owner[l], handle[l])};
      handle := handle - {l};
      released := true;
    }

    /** What other processes do meanwhile; they neither touch `l` nor kill its process. */
    method Meanwhile(l: LockId, events: seq<Event>)
      requires Safe(View()) && l in owner && l !in handle
      modifies this
      ensures Safe(View()) && l in owner && l !in handle
    {
      for i := 0 to |events|
        invariant Safe(View()) && l in owner && l !in handle
      {
        var next := Next(View(), events[i]);
        if next.Some? {
          StepSafe(View(), events[i]);
          var w := next.value;
          if l in w.owner && l !in w.handle {
            file, open, owner, handle := w.file, w.open, w.owner, w.handle;
          }
        }
      }
    }

    /**
     * `LockRetry.__enter__`; false stands for the LockHeldError of the last attempt.  With at least one
     * attempt it returns normally exactly when the lock is held afterwards; with none it does nothing.
     */
    method Enter(l: LockId, attempts: nat, meanwhile: nat -> seq<Event>)
      returns (entered: bool, ghost refused: seq<World>)
      requires Safe(View()) && l in owner
      modifies this
      ensures Safe(View())
      ensures attempts > 0 ==> (entered <==> l in handle) && (entered ==> Holds(View(), l))
      ensures attempts > 0 && !entered ==> exists l' | l' in handle :: l' != l
      ensures attempts == 0 ==> entered && View() == old(View())
      ensures forall w | w in refused :: l in w.owner && LockOutcome(w, l) == Refused
      ensures if entered then attempts > 0 ==> |refused| < attempts else |refused| == attempts
    {
      refused := [];
      for i := 0 to attempts
        invariant Safe(View()) && l in owner
        invariant i == 0 ==> View() == old(View())
        invariant i == attempts > 0 ==> l in handle
        invariant i > 0 ==> if l in handle then |refused| < i else |refused| == i
        invariant i == 0 ==> refused == []
        invariant forall w | w in refused :: l in w.owner && LockOutcome(w, l) == Refused
      {
        var inode := FreeInode();
        var before := View();
        var outcome, _ := Lock(l, inode);
        if outcome == Refused {
          refused := refused + [before];
          if i + 1 == attempts {
            assert View() == before;
            ClaimedIffHeld(before);
            return false, refused;
          }
          Meanwhile(l, meanwhile(i));
        }
      }
      entered := true;
    }

    method FreeInode() returns (inode: Inode)
      ensures inode !in open.Values
    {
      inode := 0;
      while inode in open.Values
        decreases set n | n in open.Values && n >= inode
      {
        ghost var rest := set n | n in open.Values && n >= inode;
        assert inode in rest;
        inode := inode + 1;
        assert (set n | n in open.Values && n >= inode) <= rest - {inode - 1};
      }
    }
  }
}
