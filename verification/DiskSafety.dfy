// What holds of persistent disks in every run, however slots are filled: a
// disk never has two machines as owners, and no virtual machine is removed
// with a persistent disk attached.
module DiskSafety {
  import opened DiskWorld

  predicate OneOwner(d: Disk) {
    forall a, b :: a in d.owners && b in d.owners ==> a == b
  }

  /** The slot of a drive is filled, in the machine as in a pass over it, and a deletion pass knows of the drive. */
  predicate Slotted(x: Machine, i: nat) {
    && x.hasVM && DiskAt(x.slots, i).Some?
    && match x.pass
       case Idle => true
       case Normal(slots, _) => DiskAt(slots, i).Some?
       case Deleting(slots, luns) => i in luns && DiskAt(slots, i).Some?
  }

  predicate Safe(w: World) {
    && (forall d :: d in w.disks ==> OneOwner(w.disks[d]))
    && (forall k :: k in w.drives ==> k.0 in w.machines && Slotted(w.machines[k.0], k.1))
  }

  /** Claims and releases: the owners stay within one machine, and a slot is cleared only without a drive. */
  lemma DiskSteps(w: World, s: Step)
    requires Safe(w) && Enabled(w, s)
    requires s.Claim? || s.Make? || s.Release? || s.Collect? || s.RemoveDisk?
    ensures Safe(After(w, s))
  {
    var u := After(w, s);
    if s.Claim? {
      assert w.disks[s.d].owners + {s.m} == {s.m};
    }
    forall k | k in u.drives
      ensures k.0 in u.machines && Slotted(u.machines[k.0], k.1)
    {
      assert Slotted(w.machines[k.0], k.1);
    }
  }

  /** Passes begin and end, drives come and go. */
  lemma DriveSteps(w: World, s: Step)
    requires Safe(w) && Enabled(w, s)
    requires !s.Claim? && !s.Make? && !s.Release? && !s.Collect? && !s.RemoveDisk?
    ensures Safe(After(w, s))
  {
    hide OneOwner, HasRoom, Free;
    var u := After(w, s);
    forall k | k in u.drives
      ensures k.0 in u.machines && Slotted(u.machines[k.0], k.1)
    {
      if k in w.drives {
        assert Slotted(w.machines[k.0], k.1);
        assert k.1 in Luns(w, k.0);
      }
    }
  }

  lemma {:induction false} RunIsSafe(run: seq<World>, n: nat)
    requires IsRun(run) && n < |run|
    ensures Safe(run[n])
  {
    hide Enabled, After, Safe;
    if n == 0 {
      NothingYet(run[0]);
    } else {
      RunIsSafe(run, n - 1);
      assert IsStep(run[n - 1], run[n - 1 + 1]);
      var s :| Enabled(run[n - 1], s) && run[n] == After(run[n - 1], s);
      if s.Claim? || s.Make? || s.Release? || s.Collect? || s.RemoveDisk? {
        DiskSteps(run[n - 1], s);
      } else {
        DriveSteps(run[n - 1], s);
      }
    }
  }

  lemma NothingYet(w: World)
    ensures w == Init(w.limits) ==> Safe(w)
  {
  }

  /**
   * In every state of every run, careful or not: a disk has at most one
   * machine among its owners, and RemoveVM is sent only for a virtual machine
   * without persistent disks.
   */
  lemma EveryRunIsSafe(run: seq<World>, n: nat)
    requires IsRun(run) && n < |run|
    ensures forall d, a, b :: d in run[n].disks && a in run[n].disks[d].owners && b in run[n].disks[d].owners ==> a == b
    ensures forall m :: Enabled(run[n], RemoveVM(m)) ==> Luns(run[n], m) == {}
  {
    var w := run[n];
    RunIsSafe(run, n);
    forall d | d in w.disks
      ensures forall a, b :: a in w.disks[d].owners && b in w.disks[d].owners ==> a == b
    {
      assert OneOwner(w.disks[d]);
    }
    forall m | Enabled(w, RemoveVM(m))
      ensures Luns(w, m) == {}
    {
      forall k | k in w.drives
        ensures k.0 != m
      {
        assert Slotted(w.machines[k.0], k.1);
      }
    }
  }
}
