// No disk is ever attached to the virtual machines of two machines, and no
// virtual machine is removed with a disk attached.
module DiskExclusion {
  import opened Wrappers
  import opened DiskWorld
  import DiskClaim

  // ----- the invariant ------------------------------------------------------------------------

  /** Every disk in the slots exists, is owned by the machine, and is of the slot's pool. */
  predicate Owns(disks: map<string, Disk>, m: string, slots: seq<Slot>) {
    forall i :: 0 <= i < |slots| && DiskAt(slots, i).Some? ==> OwnsOne(disks, m, slots[i].pool, DiskAt(slots, i).value)
  }

  predicate OwnsOne(disks: map<string, Disk>, m: string, pool: string, d: string) {
    d in disks && m in disks[d].owners && disks[d].pool == pool
  }

  predicate Distinct(slots: seq<Slot>) {
    forall i, j :: 0 <= i < j < |slots| && DiskAt(slots, i).Some? ==> DiskAt(slots, i) != DiskAt(slots, j)
  }

  /** `less` is `slots` with some disks taken out. */
  predicate Within(less: seq<Slot>, slots: seq<Slot>) {
    && |less| == |slots|
    && forall i :: 0 <= i < |less| && DiskAt(less, i).Some? ==> DiskAt(slots, i) == DiskAt(less, i)
  }

  /** A slot that was open when the pass began. */
  predicate WasOpen(slots: seq<Slot>, seen: set<string>, i: nat) {
    i < |slots| && slots[i].Persistent? && (slots[i].disk.Some? ==> slots[i].disk.value !in seen)
  }

  /** No two of them are of one pool. */
  predicate OneOpen(slots: seq<Slot>, seen: set<string>) {
    forall i, j :: 0 <= i < j < |slots| && WasOpen(slots, seen, i) && WasOpen(slots, seen, j) ==> slots[i].pool != slots[j].pool
  }

  predicate PassOk(disks: map<string, Disk>, m: string, x: Machine) {
    match x.pass
    case Idle => true
    case Normal(slots, seen) =>
      && x.phase in {Alive, Dying}
      && Within(x.slots, slots) && Owns(disks, m, slots) && Distinct(slots) && OneOpen(slots, seen)
    case Deleting(slots, luns) => x.phase == Going && Within(slots, x.slots)
  }

  predicate MachineOk(disks: map<string, Disk>, m: string, x: Machine) {
    && Distinct(x.slots)
    && (x.phase in {Alive, Dying} ==> Owns(disks, m, x.slots))
    && (x.phase == Gone ==> !x.hasVM)
    && PassOk(disks, m, x)
  }

  predicate DiskOk(machines: map<string, Machine>, d: Disk) {
    && (forall o :: o in d.owners ==> o in machines)
    && (forall a, b :: a in d.owners && b in d.owners ==> a == b)
  }

  /** An attached disk is owned by the machine, in the slot of its LUN, and in the LUNs a deletion pass knows of. */
  predicate DriveOk(disks: map<string, Disk>, m: string, i: nat, d: string, x: Machine) {
    && x.hasVM && d in disks && m in disks[d].owners && DiskAt(x.slots, i) == Some(d)
    && match x.pass
       case Idle => true
       case Normal(slots, _) => DiskAt(slots, i) == Some(d)
       case Deleting(slots, luns) => i in luns && DiskAt(slots, i) == Some(d)
  }

  predicate Inv(w: World) {
    && (forall m :: m in w.machines ==> MachineOk(w.disks, m, w.machines[m]))
    && (forall d :: d in w.disks ==> DiskOk(w.machines, w.disks[d]))
    && (forall k :: k in w.drives ==> k.0 in w.machines && DriveOk(w.disks, k.0, k.1, w.drives[k], w.machines[k.0]))
  }

  // ----- what a step leaves alone -------------------------------------------------------------

  /** Disks owned by machines other than `m` are as they were. */
  predicate DisksKept(was: map<string, Disk>, now: map<string, Disk>, m: string) {
    forall d, o :: d in was && o in was[d].owners && o != m ==> d in now && o in now[d].owners && now[d].pool == was[d].pool
  }

  lemma OwnsKept(was: map<string, Disk>, now: map<string, Disk>, m: string, n: string, slots: seq<Slot>)
    requires DisksKept(was, now, m) && n != m && Owns(was, n, slots)
    ensures Owns(now, n, slots)
  {
    forall i | 0 <= i < |slots| && DiskAt(slots, i).Some?
      ensures OwnsOne(now, n, slots[i].pool, DiskAt(slots, i).value)
    {
      assert OwnsOne(was, n, slots[i].pool, DiskAt(slots, i).value);
    }
  }

  lemma OtherMachineKept(was: map<string, Disk>, now: map<string, Disk>, m: string, n: string, x: Machine)
    requires DisksKept(was, now, m) && n != m && MachineOk(was, n, x)
    ensures MachineOk(now, n, x)
  {
    hide Owns, Distinct, OneOpen, Within, DisksKept;
    if x.phase in {Alive, Dying} {
      OwnsKept(was, now, m, n, x.slots);
    }
    if x.pass.Normal? {
      OwnsKept(was, now, m, n, x.pass.slots);
    }
  }

  /** A step that changes machine `m`, its drives, and disks no other machine owns keeps the invariant if it does so there. */
  lemma ChangeKeepsInv(w: World, u: World, m: string)
    requires Inv(w) && DisksKept(w.disks, u.disks, m)
    requires w.machines.Keys <= u.machines.Keys <= w.machines.Keys + {m}
    requires forall n :: n in w.machines && n != m ==> u.machines[n] == w.machines[n]
    requires forall k :: k in u.drives && k.0 != m ==> k in w.drives && u.drives[k] == w.drives[k]
    requires forall k :: k in u.drives && k.0 == m ==> m in u.machines && DriveOk(u.disks, m, k.1, u.drives[k], u.machines[m])
    requires m in u.machines ==> MachineOk(u.disks, m, u.machines[m])
    requires forall d :: d in u.disks ==> DiskOk(u.machines, u.disks[d])
    ensures Inv(u)
  {
    hide MachineOk, DiskOk, DisksKept;
    forall n | n in u.machines
      ensures MachineOk(u.disks, n, u.machines[n])
    {
      if n != m {
        OtherMachineKept(w.disks, u.disks, m, n, u.machines[n]);
      }
    }
    forall k | k in u.drives
      ensures k.0 in u.machines && DriveOk(u.disks, k.0, k.1, u.drives[k], u.machines[k.0])
    {
      if k.0 != m {
        OwnerKept(w.disks, u.disks, m, k.0, u.drives[k]);
      }
    }
  }

  lemma OwnerKept(was: map<string, Disk>, now: map<string, Disk>, m: string, n: string, d: string)
    requires DisksKept(was, now, m) && n != m && d in was && n in was[d].owners
    ensures d in now && n in now[d].owners
  {
  }

  // ----- the steps ----------------------------------------------------------------------------

  predicate OneOpenOfEachPool(slots: seq<Slot>) {
    forall i, j :: 0 <= i < j < |slots| && IsOpen(slots, i) && IsOpen(slots, j) ==> slots[i].pool != slots[j].pool
  }

  /**
   * The condition on runs: a pass that may claim disks begins with at most one
   * open slot of each pool.
   */
  predicate Careful(w: World, s: Step) {
    s.BeginNormal? && s.m in w.machines ==> OneOpenOfEachPool(w.machines[s.m].slots)
  }

  lemma {:induction false} Begins(w: World, s: Step)
    requires Inv(w) && Enabled(w, s) && Careful(w, s) && (s.BeginNormal? || s.BeginDelete?)
    ensures Inv(After(w, s))
  {
    hide DiskOk, Distinct, Owns, OneOpen;
    var u, m := After(w, s), s.m;
    assert MachineOk(w.disks, m, w.machines[m]);
    if s.BeginNormal? {
      StartIsOneOpen(w, s);
    }
    forall k | k in u.drives && k.0 == m
      ensures DriveOk(u.disks, m, k.1, u.drives[k], u.machines[m])
    {
      assert DriveOk(w.disks, m, k.1, w.drives[k], w.machines[m]);
      if s.BeginDelete? {
        assert k.1 in Luns(w, m);
      }
    }
    DiskOkKept(w, u);
    ChangeKeepsInv(w, u, m);
  }

  lemma {:induction false} Ends(w: World, s: Step)
    requires Inv(w) && Enabled(w, s) && (s.Patch? || s.Drop? || s.MarkDeleted? || s.Finish? || s.Detach?)
    ensures Inv(After(w, s))
  {
    hide DiskOk, Owns, OneOpen;
    var u, m := After(w, s), s.m;
    assert MachineOk(w.disks, m, w.machines[m]);
    forall k | k in u.drives && k.0 == m
      ensures DriveOk(u.disks, m, k.1, u.drives[k], u.machines[m])
    {
      assert DriveOk(w.disks, m, k.1, w.drives[k], w.machines[m]);
    }
    DiskOkKept(w, u);
    ChangeKeepsInv(w, u, m);
  }

  lemma StartIsOneOpen(w: World, s: Step)
    requires Enabled(w, s) && Careful(w, s) && s.BeginNormal?
    ensures OneOpen(w.machines[s.m].slots, DisksIn(w.machines[s.m].slots))
  {
    var slots := w.machines[s.m].slots;
    forall i | 0 <= i < |slots|
      ensures DiskAt(slots, i).Some? ==> DiskAt(slots, i).value in DisksIn(slots)
    {
    }
    assert forall i :: 0 <= i < |slots| && WasOpen(slots, DisksIn(slots), i) ==> DiskAt(slots, i) == None;
    assert forall i :: 0 <= i < |slots| && WasOpen(slots, DisksIn(slots), i) ==> IsOpen(slots, i);
  }

  lemma DiskOkKept(w: World, u: World)
    requires Inv(w) && u.disks == w.disks && w.machines.Keys <= u.machines.Keys
    ensures forall d :: d in u.disks ==> DiskOk(u.machines, u.disks[d])
  {
  }

  lemma {:induction false} NewSlots(w: World, s: Step)
    requires Inv(w) && Enabled(w, s) && (s.CreateMachine? || s.AddSlot?)
    ensures Inv(After(w, s))
  {
    hide DiskOk;
    var u, m := After(w, s), s.m;
    if s.AddSlot? {
      var was, now := w.machines[m].slots, u.machines[m].slots;
      assert MachineOk(w.disks, m, w.machines[m]);
      assert forall i :: 0 <= i < |was| ==> now[i] == was[i] && DiskAt(now, i) == DiskAt(was, i);
      assert DiskAt(now, |was|) == None;
      forall k | k in u.drives && k.0 == m
        ensures DriveOk(u.disks, m, k.1, u.drives[k], u.machines[m])
      {
        assert DriveOk(w.disks, m, k.1, w.drives[k], w.machines[m]);
      }
    }
    DiskOkKept(w, u);
    ChangeKeepsInv(w, u, m);
  }

  // ----- claiming -----------------------------------------------------------------------------

  /** What a claim does to the disks: `d` is now the machine's, and was nobody else's. */
  predicate TakesOne(was: map<string, Disk>, now: map<string, Disk>, m: string, pool: string, d: string) {
    && now == was[d := Disk(pool, {m})]
    && (d in was ==> was[d].pool == pool && forall o :: o in was[d].owners ==> o == m)
  }

  lemma {:induction false} FilledOwns(was: map<string, Disk>, now: map<string, Disk>, m: string, slots: seq<Slot>, i: nat, d: string)
    requires IsOpen(slots, i) && TakesOne(was, now, m, slots[i].pool, d) && Owns(was, m, slots)
    ensures Owns(now, m, Fill(slots, i, d)) && Within(slots, Fill(slots, i, d))
  {
    var filled := Fill(slots, i, d);
    forall j | 0 <= j < |filled| && DiskAt(filled, j).Some?
      ensures OwnsOne(now, m, filled[j].pool, DiskAt(filled, j).value)
    {
      if j != i {
        assert OwnsOne(was, m, slots[j].pool, DiskAt(slots, j).value);
      }
    }
  }

  /** The claimed disk is in no other slot: those filled before the pass are in `seen`, those filled in it are of other pools. */
  lemma {:induction false} FilledDistinct(disks: map<string, Disk>, m: string, slots: seq<Slot>, seen: set<string>, i: nat, d: string)
    requires IsOpen(slots, i) && Owns(disks, m, slots) && Distinct(slots) && OneOpen(slots, seen)
    requires d in disks ==> disks[d].pool == slots[i].pool && (m in disks[d].owners ==> d !in seen)
    ensures Distinct(Fill(slots, i, d)) && OneOpen(Fill(slots, i, d), seen)
  {
    var filled := Fill(slots, i, d);
    assert WasOpen(slots, seen, i);
    forall j | 0 <= j < |slots| && j != i
      ensures DiskAt(slots, j) != Some(d)
      ensures filled[j] == slots[j] && DiskAt(filled, j) == DiskAt(slots, j)
    {
      var open := WasOpen(slots, seen, j);
      assert DiskAt(slots, j).Some? ==> OwnsOne(disks, m, slots[j].pool, DiskAt(slots, j).value);
    }
    forall j, k | 0 <= j < k < |filled| && WasOpen(filled, seen, j) && WasOpen(filled, seen, k)
      ensures filled[j].pool != filled[k].pool
    {
      assert WasOpen(slots, seen, j) && WasOpen(slots, seen, k);
    }
  }

  lemma {:induction false} Claims(w: World, s: Step)
    requires Inv(w) && Enabled(w, s) && (s.Claim? || s.Make?)
    ensures Inv(After(w, s))
  {
    hide Distinct, Owns, OneOpen;
    var u, m, i, d := After(w, s), s.m, s.i, s.d;
    var slots, seen := w.machines[m].pass.slots, w.machines[m].pass.seen;
    assert MachineOk(w.disks, m, w.machines[m]);
    assert TakesOne(w.disks, u.disks, m, slots[i].pool, d) by {
      if s.Claim? {
        assert w.disks[d].owners + {m} == {m};
      }
    }
    FilledOwns(w.disks, u.disks, m, slots, i, d);
    FilledDistinct(w.disks, m, slots, seen, i, d);
    StoredOwns(w.disks, u.disks, m, w.machines[m].slots, slots[i].pool, d);
    forall k | k in u.drives && k.0 == m
      ensures DriveOk(u.disks, m, k.1, u.drives[k], u.machines[m])
    {
      assert DriveOk(w.disks, m, k.1, w.drives[k], w.machines[m]);
    }
    assert forall e :: e in w.disks ==> DiskOk(w.machines, w.disks[e]);
    ChangeKeepsInv(w, u, m);
  }

  lemma StoredOwns(was: map<string, Disk>, now: map<string, Disk>, m: string, slots: seq<Slot>, pool: string, d: string)
    requires TakesOne(was, now, m, pool, d) && Owns(was, m, slots)
    ensures Owns(now, m, slots)
  {
    forall j | 0 <= j < |slots| && DiskAt(slots, j).Some?
      ensures OwnsOne(now, m, slots[j].pool, DiskAt(slots, j).value)
    {
      assert OwnsOne(was, m, slots[j].pool, DiskAt(slots, j).value);
    }
  }

  /** A disk claimPersistentDisk has chosen can be claimed, if its update passes the version check. */
  lemma ChosenCanBeClaimed(w: World, m: string, i: nat, listing: set<DiskClaim.Disk>, maxDisks: int, d: DiskClaim.Disk)
    requires m in w.machines && w.machines[m].pass.Normal? && IsOpen(w.machines[m].pass.slots, i)
    requires DiskClaim.Chooses(listing, m, w.machines[m].pass.seen, maxDisks, DiskClaim.Claim(d))
    requires d.name in w.disks && w.disks[d.name] == Disk(w.machines[m].pass.slots[i].pool, d.owners)
    ensures Enabled(w, Claim(m, i, d.name))
  {
  }

  /** And where a listed disk can be claimed, is not being deleted and is within the limit, one of no higher index is chosen. */
  lemma ClaimableIsChosen(w: World, m: string, i: nat, listing: set<DiskClaim.Disk>, maxDisks: int, d: DiskClaim.Disk, r: DiskClaim.Choice)
    requires m in w.machines && w.machines[m].pass.Normal? && IsOpen(w.machines[m].pass.slots, i)
    requires d in listing && !d.deleting && (maxDisks > 0 ==> d.index <= maxDisks)
    requires d.name in w.disks && w.disks[d.name] == Disk(w.machines[m].pass.slots[i].pool, d.owners)
    requires Enabled(w, Claim(m, i, d.name))
    requires DiskClaim.Chooses(listing, m, w.machines[m].pass.seen, maxDisks, r)
    ensures r.Claim? && r.disk.index <= d.index
  {
    DiskClaim.ChoiceMeans(listing, m, w.machines[m].pass.seen, maxDisks, r);
    hide DiskClaim.Chooses;
  }

  // ----- attaching, detaching and releasing ---------------------------------------------------

  lemma {:induction false} Attaches(w: World, s: Step)
    requires Inv(w) && Enabled(w, s) && s.Attach?
    ensures Inv(After(w, s))
  {
    hide DiskOk, Distinct, OneOpen;
    var u, m := After(w, s), s.m;
    var slots := w.machines[m].pass.slots;
    assert MachineOk(w.disks, m, w.machines[m]);
    forall k | k in u.drives && k.0 == m
      ensures DriveOk(u.disks, m, k.1, u.drives[k], u.machines[m])
    {
      if k.1 in s.luns {
        assert u.drives[k] == DiskAt(slots, k.1).value;
        assert OwnsOne(w.disks, m, slots[k.1].pool, DiskAt(slots, k.1).value);
      } else {
        assert DriveOk(w.disks, m, k.1, w.drives[k], w.machines[m]);
      }
    }
    DiskOkKept(w, u);
    ChangeKeepsInv(w, u, m);
  }

  /** A disk that is released is attached nowhere. */
  lemma ReleasedIsDetached(w: World, m: string, i: nat)
    requires Inv(w) && Enabled(w, Release(m, i))
    ensures var d := DiskAt(w.machines[m].pass.slots, i).value;
      m in w.disks[d].owners ==> forall k :: k in w.drives ==> w.drives[k] != d
  {
    hide Owns, OneOpen;
    var x, d := w.machines[m], DiskAt(w.machines[m].pass.slots, i).value;
    assert MachineOk(w.disks, m, x);
    assert DiskOk(w.machines, w.disks[d]);
    forall k | k in w.drives && m in w.disks[d].owners
      ensures w.drives[k] != d
    {
      assert DriveOk(w.disks, k.0, k.1, w.drives[k], w.machines[k.0]);
    }
  }

  lemma {:induction false} Releases(w: World, s: Step)
    requires Inv(w) && Enabled(w, s) && s.Release?
    ensures Inv(After(w, s))
  {
    hide DiskOk, Distinct, OneOpen, Owns;
    var u, m := After(w, s), s.m;
    assert MachineOk(w.disks, m, w.machines[m]);
    ReleasedIsDetached(w, m, s.i);
    forall k | k in u.drives && k.0 == m
      ensures DriveOk(u.disks, m, k.1, u.drives[k], u.machines[m])
    {
      assert DriveOk(w.disks, m, k.1, w.drives[k], w.machines[m]);
    }
    LostOwner(w, u, m);
    ChangeKeepsInv(w, u, m);
  }

  lemma LostOwner(w: World, u: World, m: string)
    requires Inv(w) && w.machines.Keys <= u.machines.Keys && u.disks.Keys <= w.disks.Keys
    requires forall d :: d in u.disks ==> u.disks[d].owners <= w.disks[d].owners
    ensures forall d :: d in u.disks ==> DiskOk(u.machines, u.disks[d])
  {
    hide MachineOk, DriveOk;
    forall d | d in u.disks
      ensures DiskOk(u.machines, u.disks[d])
    {
      assert DiskOk(w.machines, w.disks[d]);
    }
  }

  lemma {:induction false} Removes(w: World, s: Step)
    requires Inv(w) && Enabled(w, s) && (s.JobDone? || s.RemoveVM?)
    ensures Inv(After(w, s))
  {
    hide DiskOk, Distinct, OneOpen, Owns;
    var u, m := After(w, s), s.m;
    assert MachineOk(w.disks, m, w.machines[m]);
    forall k | k in u.drives && k.0 == m
      ensures DriveOk(u.disks, m, k.1, u.drives[k], u.machines[m])
    {
      assert DriveOk(w.disks, m, k.1, w.drives[k], w.machines[m]);
    }
    DiskOkKept(w, u);
    ChangeKeepsInv(w, u, m);
  }

  lemma {:induction false} Collects(w: World, s: Step)
    requires Inv(w) && Enabled(w, s) && s.Collect?
    ensures Inv(After(w, s))
  {
    hide DiskOk, Distinct, OneOpen, Owns;
    var u, m := After(w, s), s.m;
    assert MachineOk(w.disks, m, w.machines[m]);
    forall k | k in u.drives
      ensures k.0 != m
    {
      assert DriveOk(w.disks, k.0, k.1, w.drives[k], w.machines[k.0]);
    }
    LostOwner(w, u, m);
    ChangeKeepsInv(w, u, m);
  }

  lemma {:induction false} RemovesDisk(w: World, s: Step)
    requires Inv(w) && Enabled(w, s) && s.RemoveDisk?
    ensures Inv(After(w, s))
  {
    hide DiskOk, MachineOk;
    var u := After(w, s);
    LostOwner(w, u, "");
    if "" in w.machines {
      OtherMachineKept(w.disks, u.disks, "-", "", w.machines[""]);
    }
    ChangeKeepsInv(w, u, "");
  }

  lemma {:induction false} StepKeepsInv(w: World, s: Step)
    requires Inv(w) && Enabled(w, s) && Careful(w, s)
    ensures Inv(After(w, s))
  {
    hide Inv, After, Careful;
    match s
    case CreateMachine(_, _) => NewSlots(w, s);
    case AddSlot(_, _) => NewSlots(w, s);
    case BeginNormal(_) => Begins(w, s);
    case BeginDelete(_) => Begins(w, s);
    case Claim(_, _, _) => Claims(w, s);
    case Make(_, _, _) => Claims(w, s);
    case Attach(_, _) => Attaches(w, s);
    case Release(_, _) => Releases(w, s);
    case JobDone(_, _) => Removes(w, s);
    case RemoveVM(_) => Removes(w, s);
    case Collect(_, _) => Collects(w, s);
    case RemoveDisk(_) => RemovesDisk(w, s);
    case _ => Ends(w, s);
  }

  // ----- runs ---------------------------------------------------------------------------------

  ghost predicate IsCarefulStep(w: World, u: World) {
    exists s :: Enabled(w, s) && Careful(w, s) && u == After(w, s)
  }

  ghost predicate IsCarefulRun(run: seq<World>) {
    run != [] && run[0] == Init(run[0].limits) && forall i :: 0 <= i < |run| - 1 ==> IsCarefulStep(run[i], run[i + 1])
  }

  lemma {:induction false} RunKeepsInv(run: seq<World>, n: nat)
    requires IsCarefulRun(run) && n < |run|
    ensures Inv(run[n])
  {
    hide Enabled, After, Careful;
    if n > 0 {
      RunKeepsInv(run, n - 1);
      assert IsCarefulStep(run[n - 1], run[n - 1 + 1]);
      var s :| Enabled(run[n - 1], s) && Careful(run[n - 1], s) && run[n] == After(run[n - 1], s);
      StepKeepsInv(run[n - 1], s);
    }
  }

  /** No disk is attached twice. */
  predicate Exclusive(drives: map<(string, nat), string>) {
    forall k, l :: k in drives && l in drives && drives[k] == drives[l] ==> k == l
  }

  lemma InvIsExclusive(w: World)
    requires Inv(w)
    ensures Exclusive(w.drives)
    ensures forall k :: k in w.drives ==> w.drives[k] in w.disks && k.0 in w.disks[w.drives[k]].owners
  {
    hide Owns, OneOpen;
    forall k, l | k in w.drives && l in w.drives && w.drives[k] == w.drives[l]
      ensures k == l
    {
      assert DriveOk(w.disks, k.0, k.1, w.drives[k], w.machines[k.0]) && DriveOk(w.disks, l.0, l.1, w.drives[l], w.machines[l.0]);
      assert DiskOk(w.machines, w.disks[w.drives[k]]) && MachineOk(w.disks, k.0, w.machines[k.0]);
    }
  }

  /** The disk a release is about has no drive anywhere. */
  predicate ReleasesDetached(w: World, m: string, i: nat)
    requires Enabled(w, Release(m, i))
  {
    var d := DiskAt(w.machines[m].pass.slots, i).value;
    m in w.disks[d].owners ==> forall k :: k in w.drives ==> w.drives[k] != d
  }

  /**
   * In every state of every careful run, an attached disk is owned by the
   * machine whose virtual machine it is attached to, no disk is attached
   * twice, and an owner reference goes only when the disk is attached nowhere.
   */
  lemma DisksAreExclusive(run: seq<World>, n: nat)
    requires IsCarefulRun(run) && n < |run|
    ensures forall k :: k in run[n].drives ==> run[n].drives[k] in run[n].disks && k.0 in run[n].disks[run[n].drives[k]].owners
    ensures Exclusive(run[n].drives)
    ensures forall m, i :: Enabled(run[n], Release(m, i)) ==> ReleasesDetached(run[n], m, i)
  {
    hide Inv, Exclusive;
    RunKeepsInv(run, n);
    InvIsExclusive(run[n]);
    forall m, i | Enabled(run[n], Release(m, i))
      ensures ReleasesDetached(run[n], m, i)
    {
      ReleasedIsDetached(run[n], m, i);
    }
  }
}
