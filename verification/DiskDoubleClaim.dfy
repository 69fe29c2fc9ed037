// A pass that begins with two open slots of one pool: exactly then can the
// world go on, carefully, until one disk is attached to two virtual machines.
module DiskDoubleClaim {
  import opened Wrappers
  import opened DiskWorld
  import opened DiskExclusion

  /** Where the steps lead, if each of them can be taken and is careful. */
  function Final(w: World, steps: seq<Step>): Option<World> {
    if steps == [] then Some(w)
    else
      match Final(w, steps[..|steps| - 1])
      case None => None
      case Some(u) =>
        var s := steps[|steps| - 1];
        if Enabled(u, s) && Careful(u, s) then Some(After(u, s)) else None
  }

  predicate Leads(w: World, steps: seq<Step>, u: World) {
    Final(w, steps) == Some(u)
  }

  lemma Extend(w: World, steps: seq<Step>, u: World, s: Step)
    requires Leads(w, steps, u) && Enabled(u, s) && Careful(u, s)
    ensures Leads(w, steps + [s], After(u, s))
  {
    hide Enabled, After, Careful;
    assert (steps + [s])[..|steps|] == steps;
  }

  /** `w` with machine `a`, the disks and the drives replaced. */
  function Put(w: World, a: string, x: Machine, disks: map<string, Disk>, drives: map<(string, nat), string>): World {
    World(w.limits, w.machines[a := x], disks, drives, w.jobs)
  }

  /** A machine that can begin a pass. */
  predicate Ready(w: World, m: string) {
    m in w.machines && w.machines[m].phase == Alive && w.machines[m].pass == Idle
  }

  predicate OpenFor(slots: seq<Slot>, i: nat, pool: string) {
    IsOpen(slots, i) && slots[i].pool == pool
  }

  // ----- first, a pass with two open slots of a pool ------------------------------------------

  lemma BeginStep(w: World, a: string)
    requires Ready(w, a)
    ensures Enabled(w, BeginNormal(a))
    ensures var x := w.machines[a];
      After(w, BeginNormal(a)) == Put(w, a, x.(pass := Normal(x.slots, DisksIn(x.slots))), w.disks, w.drives)
  {
  }

  lemma MakeStep(w: World, a: string, x: Machine, disks: map<string, Disk>, drives: map<(string, nat), string>, i: nat, d: string)
    requires x.pass.Normal? && IsOpen(x.pass.slots, i) && d !in disks
    requires HasRoom(Put(w, a, x, disks, drives), x.pass.slots[i].pool)
    ensures var u, y := Put(w, a, x, disks, drives), x.(pass := Normal(Fill(x.pass.slots, i, d), x.pass.seen));
      Enabled(u, Make(a, i, d)) && After(u, Make(a, i, d)) == Put(w, a, y, disks[d := Disk(x.pass.slots[i].pool, {a})], drives)
  {
  }

  lemma ClaimStep(w: World, a: string, x: Machine, disks: map<string, Disk>, drives: map<(string, nat), string>, i: nat, d: string)
    requires x.pass.Normal? && IsOpen(x.pass.slots, i) && d in disks && disks[d].pool == x.pass.slots[i].pool
    requires disks[d].owners == {} || (disks[d].owners == {a} && d !in x.pass.seen)
    ensures var u, y := Put(w, a, x, disks, drives), x.(pass := Normal(Fill(x.pass.slots, i, d), x.pass.seen));
      Enabled(u, Claim(a, i, d)) && After(u, Claim(a, i, d)) == Put(w, a, y, disks[d := disks[d].(owners := {a})], drives)
  {
    assert disks[d].owners + {a} == {a};
  }

  lemma AttachStep(w: World, a: string, x: Machine, disks: map<string, Disk>, drives: map<(string, nat), string>, i: nat)
    requires x.pass.Normal? && DiskAt(x.pass.slots, i).Some? && (a, i) !in drives
    ensures var u, y := Put(w, a, x, disks, drives), x.(slots := x.pass.slots, hasVM := true);
      && Enabled(u, Attach(a, {i}))
      && After(u, Attach(a, {i})) == Put(w, a, y, disks, drives[(a, i) := DiskAt(x.pass.slots, i).value])
  {
    var slots := x.pass.slots;
    assert drives + NewDrives(a, slots, {i}) == drives[(a, i) := DiskAt(slots, i).value];
  }

  lemma PatchStep(w: World, a: string, x: Machine, disks: map<string, Disk>, drives: map<(string, nat), string>)
    requires x.pass != Idle
    ensures var u, y := Put(w, a, x, disks, drives), x.(slots := x.pass.slots, pass := Idle);
      Enabled(u, Patch(a)) && After(u, Patch(a)) == Put(w, a, y, disks, drives)
  {
  }

  /** The pool has a disk the machine can claim, or room for another. */
  predicate Supplied(w: World, a: string, pool: string)
    requires a in w.machines
  {
    HasRoom(w, pool) || exists d :: d in w.disks && Claimable(w, a, pool, d)
  }

  predicate Claimable(w: World, a: string, pool: string, d: string)
    requires a in w.machines
  {
    Free(w, a, DisksIn(w.machines[a].slots), d) && w.disks[d].pool == pool
  }

  /** A disk for the first slot: any that can be claimed, or a new one. */
  lemma {:induction false} FirstSlot(w: World, a: string, x: Machine, i: nat, pool: string, d: string) returns (steps: seq<Step>)
    requires Inv(w) && Ready(w, a) && OpenFor(w.machines[a].slots, i, pool)
    requires var slots := w.machines[a].slots; x == w.machines[a].(pass := Normal(slots, DisksIn(slots)))
    requires Claimable(w, a, pool, d) || (d !in w.disks && HasRoom(w, pool))
    ensures Leads(Put(w, a, x, w.disks, w.drives), steps,
                  Put(w, a, x.(pass := Normal(Fill(x.slots, i, d), DisksIn(x.slots))), w.disks[d := Disk(pool, {a})], w.drives))
    ensures d !in DisksIn(x.slots)
  {
    hide Inv, Final, Leads, Enabled, After, DisksIn;
    var u := Put(w, a, x, w.disks, w.drives);
    FinalStart(u);
    if d !in w.disks {
      NotInSlots(w, a, d);
      MakeStep(w, a, x, w.disks, w.drives, i, d);
      Extend(u, [], u, Make(a, i, d));
      steps := [] + [Make(a, i, d)];
    } else {
      FreeNotInSlots(w, a, d);
      OnlyOwner(w, a, d);
      ClaimStep(w, a, x, w.disks, w.drives, i, d);
      Extend(u, [], u, Claim(a, i, d));
      steps := [] + [Claim(a, i, d)];
      assert w.disks[d].(owners := {a}) == Disk(pool, {a});
    }
  }

  /** The disk of one slot is claimed for the other as well, and attached for that. */
  lemma {:induction false} PassDoubles(w: World, a: string, x: Machine, i: nat, j: nat, pool: string, d: string)
    returns (steps: seq<Step>, y: Machine)
    requires Inv(w) && Ready(w, a) && i != j
    requires OpenFor(w.machines[a].slots, i, pool) && OpenFor(w.machines[a].slots, j, pool)
    requires var slots := w.machines[a].slots; x == w.machines[a].(pass := Normal(slots, DisksIn(slots)))
    requires Claimable(w, a, pool, d) || (d !in w.disks && HasRoom(w, pool))
    ensures Leads(Put(w, a, x, w.disks, w.drives), steps, Put(w, a, y, w.disks[d := Disk(pool, {a})], w.drives[(a, j) := d]))
    ensures y.phase == Alive && y.pass == Idle && DiskAt(y.slots, i) == Some(d) && i < |y.slots|
    ensures (a, i) !in w.drives
  {
    hide Inv, Final, Enabled, After, DisksIn, Put, Leads, Claimable, HasRoom;
    NoDriveAtOpen(w, a, i);
    NoDriveAtOpen(w, a, j);
    var u, disks := Put(w, a, x, w.disks, w.drives), w.disks[d := Disk(pool, {a})];
    var x2 := x.(pass := Normal(Fill(x.slots, i, d), DisksIn(x.slots)));
    var x3 := x2.(pass := Normal(Fill(Fill(x.slots, i, d), j, d), DisksIn(x.slots)));
    var x4 := x3.(slots := x3.pass.slots, hasVM := true);
    y := x4.(pass := Idle);
    steps := FirstSlot(w, a, x, i, pool, d);
    ClaimStep(w, a, x2, disks, w.drives, j, d);
    assert disks[d := disks[d].(owners := {a})] == disks;
    Extend(u, steps, Put(w, a, x2, disks, w.drives), Claim(a, j, d));
    steps := steps + [Claim(a, j, d)];
    AttachStep(w, a, x3, disks, w.drives, j);
    Extend(u, steps, Put(w, a, x3, disks, w.drives), Attach(a, {j}));
    steps := steps + [Attach(a, {j})];
    PatchStep(w, a, x4, disks, w.drives[(a, j) := d]);
    Extend(u, steps, Put(w, a, x4, disks, w.drives[(a, j) := d]), Patch(a));
    steps := steps + [Patch(a)];
  }

  lemma FinalStart(w: World)
    ensures Leads(w, [], w)
  {
  }

  /** A disk the machine can claim is in none of its slots. */
  lemma {:induction false} FreeNotInSlots(w: World, m: string, d: string)
    requires Inv(w) && Ready(w, m) && Free(w, m, DisksIn(w.machines[m].slots), d)
    ensures d !in DisksIn(w.machines[m].slots)
  {
    var slots := w.machines[m].slots;
    assert MachineOk(w.disks, m, w.machines[m]);
    forall i | 0 <= i < |slots| && DiskAt(slots, i) == Some(d)
      ensures d !in DisksIn(slots)
    {
      assert OwnsOne(w.disks, m, slots[i].pool, d);
    }
  }

  lemma OnlyOwner(w: World, m: string, d: string)
    requires m in w.machines && Free(w, m, DisksIn(w.machines[m].slots), d)
    ensures w.disks[d].owners == {} || w.disks[d].owners == {m}
  {
    if w.disks[d].owners != {} {
      var o :| o in w.disks[d].owners;
      assert w.disks[d].owners == {m};
    }
  }

  lemma NoDriveAtOpen(w: World, m: string, i: nat)
    requires Inv(w) && m in w.machines && IsOpen(w.machines[m].slots, i)
    ensures (m, i) !in w.drives
  {
    assert (m, i) in w.drives ==> DriveOk(w.disks, m, i, w.drives[(m, i)], w.machines[m]);
  }

  lemma NotInSlots(w: World, m: string, d: string)
    requires Inv(w) && Ready(w, m) && d !in w.disks
    ensures d !in DisksIn(w.machines[m].slots)
  {
    var slots := w.machines[m].slots;
    assert MachineOk(w.disks, m, w.machines[m]);
    forall i | 0 <= i < |slots| && DiskAt(slots, i).Some?
      ensures DiskAt(slots, i).value != d
    {
      assert OwnsOne(w.disks, m, slots[i].pool, DiskAt(slots, i).value);
    }
  }

  // ----- then the deletion of that machine, and a claim of another ----------------------------

  lemma MarkStep(w: World, a: string, x: Machine, disks: map<string, Disk>, drives: map<(string, nat), string>)
    requires x.phase == Alive
    ensures var u := Put(w, a, x, disks, drives);
      Enabled(u, MarkDeleted(a)) && After(u, MarkDeleted(a)) == Put(w, a, x.(phase := Dying), disks, drives)
  {
  }

  lemma BeginDeleteStep(w: World, a: string, x: Machine, disks: map<string, Disk>, drives: map<(string, nat), string>)
    returns (luns: set<nat>)
    requires x.phase == Dying && x.pass == Idle
    ensures forall i :: i in luns <==> (a, i) in drives
    ensures var u, y := Put(w, a, x, disks, drives), x.(phase := Going, pass := Deleting(x.slots, luns));
      Enabled(u, BeginDelete(a)) && After(u, BeginDelete(a)) == Put(w, a, y, disks, drives)
  {
    luns := Luns(Put(w, a, x, disks, drives), a);
    forall i
      ensures i in luns <==> (a, i) in drives
    {
      if i in luns {
        var k :| k in drives && k.0 == a && k.1 == i;
        assert k == (a, i);
      }
      if (a, i) in drives {
        assert (a, i).1 in luns;
      }
    }
  }

  lemma ReleaseStep(w: World, a: string, x: Machine, disks: map<string, Disk>, drives: map<(string, nat), string>, i: nat, d: string)
    requires x.pass.Deleting? && i !in x.pass.luns && DiskAt(x.pass.slots, i) == Some(d) && d in disks && disks[d].owners == {a}
    ensures var u, y := Put(w, a, x, disks, drives), x.(pass := Deleting(Clear(x.pass.slots, i), x.pass.luns));
      Enabled(u, Release(a, i)) && After(u, Release(a, i)) == Put(w, a, y, disks[d := disks[d].(owners := {})], drives)
  {
    assert disks[d].owners - {a} == {};
  }

  /** The first slot is released while the disk is attached for the second. */
  lemma {:induction false} DeletionFrees(u: World, was: seq<Step>, w: World, a: string, y: Machine, disks: map<string, Disk>,
                                         drives: map<(string, nat), string>, i: nat, d: string)
    returns (steps: seq<Step>, z: Machine)
    requires Leads(u, was, Put(w, a, y, disks, drives)) && y.phase == Alive && y.pass == Idle && DiskAt(y.slots, i) == Some(d)
    requires d in disks && disks[d].owners == {a} && (a, i) !in drives
    ensures Leads(u, steps, Put(w, a, z, disks[d := disks[d].(owners := {})], drives))
  {
    hide Final, Enabled, After, DisksIn, Put, Leads;
    MarkStep(w, a, y, disks, drives);
    var y1 := y.(phase := Dying);
    Extend(u, was, Put(w, a, y, disks, drives), MarkDeleted(a));
    steps := was + [MarkDeleted(a)];
    var luns := BeginDeleteStep(w, a, y1, disks, drives);
    var y2 := y1.(phase := Going, pass := Deleting(y1.slots, luns));
    Extend(u, steps, Put(w, a, y1, disks, drives), BeginDelete(a));
    steps := steps + [BeginDelete(a)];
    ReleaseStep(w, a, y2, disks, drives, i, d);
    Extend(u, steps, Put(w, a, y2, disks, drives), Release(a, i));
    steps := steps + [Release(a, i)];
    z := y2.(pass := Deleting(Clear(y2.pass.slots, i), luns));
  }

  /** A machine with an open slot of the pool takes a disk nobody owns and attaches it. */
  lemma {:induction false} RivalTakes(w: World, was: seq<Step>, v: World, b: string, l: nat, pool: string, d: string)
    returns (steps: seq<Step>, u: World)
    requires Leads(w, was, v) && Ready(v, b) && OpenFor(v.machines[b].slots, l, pool) && OneOpenOfEachPool(v.machines[b].slots)
    requires d in v.disks && v.disks[d] == Disk(pool, {}) && (b, l) !in v.drives
    ensures Leads(w, steps, u) && u.drives == v.drives[(b, l) := d]
  {
    hide Final, Enabled, After, DisksIn, Leads;
    var x := v.machines[b];
    BeginStep(v, b);
    Extend(w, was, v, BeginNormal(b));
    steps := was + [BeginNormal(b)];
    var x1 := x.(pass := Normal(x.slots, DisksIn(x.slots)));
    ClaimStep(v, b, x1, v.disks, v.drives, l, d);
    Extend(w, steps, Put(v, b, x1, v.disks, v.drives), Claim(b, l, d));
    steps := steps + [Claim(b, l, d)];
    var x2, disks := x1.(pass := Normal(Fill(x.slots, l, d), DisksIn(x.slots))), v.disks[d := v.disks[d].(owners := {b})];
    AttachStep(v, b, x2, disks, v.drives, l);
    Extend(w, steps, Put(v, b, x2, disks, v.drives), Attach(b, {l}));
    u := After(Put(v, b, x2, disks, v.drives), Attach(b, {l}));
    steps := steps + [Attach(b, {l})];
  }

  lemma {:induction false} FreshName(names: set<string>) returns (d: string)
    ensures forall x :: x in names ==> |x| < |d|
  {
    if names == {} {
      d := "";
    } else {
      var x :| x in names;
      var e := FreshName(names - {x});
      d := e + x + "-";
    }
  }

  lemma {:induction false} RivalAppears(w: World, was: seq<Step>, v: World, b: string, pool: string) returns (steps: seq<Step>, u: World)
    requires Leads(w, was, v) && b !in v.machines
    ensures Leads(w, steps, u) && Ready(u, b) && OpenFor(u.machines[b].slots, 0, pool) && OneOpenOfEachPool(u.machines[b].slots)
    ensures u.disks == v.disks && u.drives == v.drives
  {
    hide Final, Leads;
    var s := CreateMachine(b, [Persistent(pool, None)]);
    Extend(w, was, v, s);
    steps, u := was + [s], After(v, s);
  }

  predicate AttachedTo(w: World, d: string, m: string, lun: nat) {
    (m, lun) in w.drives && w.drives[(m, lun)] == d
  }

  /**
   * Two open slots of a pool that can supply a disk: whatever disk of the pool
   * the pass claims, or a new one, the world can go on to that disk attached
   * to the virtual machines of two machines. All steps after the start of the
   * pass are careful.
   */
  lemma CarelessPassBreaksExclusion(w: World, a: string, i: nat, j: nat, pool: string, d: string)
    requires Inv(w) && Ready(w, a) && i != j
    requires OpenFor(w.machines[a].slots, i, pool) && OpenFor(w.machines[a].slots, j, pool)
    requires Claimable(w, a, pool, d) || (d !in w.disks && HasRoom(w, pool))
    ensures exists steps, u, b :: Leads(After(w, BeginNormal(a)), steps, u) && b != a && AttachedTo(u, d, a, j) && AttachedTo(u, d, b, 0)
  {
    hide Inv, Final, Leads, After, HasRoom, Claimable;
    var slots := w.machines[a].slots;
    var x := w.machines[a].(pass := Normal(slots, DisksIn(slots)));
    BeginStep(w, a);
    var start := Put(w, a, x, w.disks, w.drives);
    var b := FreshName(w.machines.Keys);
    assert b !in w.machines.Keys;
    NoDriveOfNew(w, b);
    var s1, y := PassDoubles(w, a, x, i, j, pool, d);
    var disks, drives := w.disks[d := Disk(pool, {a})], w.drives[(a, j) := d];
    var s2, z := DeletionFrees(start, s1, w, a, y, disks, drives, i, d);
    var v := Put(w, a, z, disks[d := disks[d].(owners := {})], drives);
    var s3, t := RivalAppears(start, s2, v, b, pool);
    var s4, u := RivalTakes(start, s3, t, b, 0, pool, d);
    assert Leads(After(w, BeginNormal(a)), s4, u) && AttachedTo(u, d, a, j) && AttachedTo(u, d, b, 0);
  }

  lemma NoDriveOfNew(w: World, b: string)
    requires Inv(w) && b !in w.machines
    ensures forall k :: k in w.drives ==> k.0 != b
  {
    hide MachineOk, DriveOk, DiskOk;
  }

  lemma {:induction false} CarefulKeepsInv(w: World, steps: seq<Step>, u: World)
    requires Inv(w) && Leads(w, steps, u)
    ensures Inv(u)
  {
    hide Inv, Enabled, After, Careful;
    if steps != [] {
      var front, s := steps[..|steps| - 1], steps[|steps| - 1];
      var v := Final(w, front).value;
      CarefulKeepsInv(w, front, v);
      StepKeepsInv(v, s);
    }
  }

  /** Whatever follows the steps, no disk is attached to the virtual machines of two machines. */
  ghost predicate StaysExclusive(w: World) {
    forall steps, u :: Leads(w, steps, u) ==> ApartFor(u.drives)
  }

  predicate ApartFor(drives: map<(string, nat), string>) {
    forall k, l :: k in drives && l in drives && drives[k] == drives[l] ==> k.0 == l.0
  }

  /** Two open slots of a pool that can supply a disk. */
  predicate TwoOpenSupplied(w: World, a: string)
    requires a in w.machines
  {
    var slots := w.machines[a].slots;
    exists i, j :: 0 <= i < j < |slots| && IsOpen(slots, i) && IsOpen(slots, j) && slots[i].pool == slots[j].pool
      && Supplied(w, a, slots[i].pool)
  }

  /**
   * Exactly when a pass is safe to begin: no careful continuation of it
   * attaches a disk to the virtual machines of two machines, if and only if it
   * begins with at most one open slot of each pool. Left aside is a pass all
   * of whose pools with several open slots can supply no disk at its start.
   */
  lemma ExclusiveExactly(w: World, a: string)
    requires Inv(w) && Ready(w, a)
    requires OneOpenOfEachPool(w.machines[a].slots) || TwoOpenSupplied(w, a)
    ensures StaysExclusive(After(w, BeginNormal(a))) <==> OneOpenOfEachPool(w.machines[a].slots)
  {
    hide Inv, Final, Leads, After, Supplied, ApartFor;
    var slots, start := w.machines[a].slots, After(w, BeginNormal(a));
    if OneOpenOfEachPool(slots) {
      StepKeepsInv(w, BeginNormal(a));
      forall steps, u | Leads(start, steps, u)
        ensures ApartFor(u.drives)
      {
        CarefulKeepsInv(start, steps, u);
        InvIsExclusive(u);
        ApartIfExclusive(u.drives);
      }
    } else {
      var i, j :| 0 <= i < j < |slots| && IsOpen(slots, i) && IsOpen(slots, j) && slots[i].pool == slots[j].pool
        && Supplied(w, a, slots[i].pool);
      var d := SuppliedDisk(w, a, slots[i].pool);
      CarelessPassBreaksExclusion(w, a, i, j, slots[i].pool, d);
      var steps, u, b :| Leads(start, steps, u) && b != a && AttachedTo(u, d, a, j) && AttachedTo(u, d, b, 0);
      NotApart(u.drives, (a, j), (b, 0));
    }
  }

  lemma ApartIfExclusive(drives: map<(string, nat), string>)
    requires Exclusive(drives)
    ensures ApartFor(drives)
  {
  }

  lemma NotApart(drives: map<(string, nat), string>, k: (string, nat), l: (string, nat))
    requires k in drives && l in drives && drives[k] == drives[l] && k.0 != l.0
    ensures !ApartFor(drives)
  {
  }

  lemma SuppliedDisk(w: World, a: string, pool: string) returns (d: string)
    requires a in w.machines && Supplied(w, a, pool)
    ensures Claimable(w, a, pool, d) || (d !in w.disks && HasRoom(w, pool))
  {
    hide HasRoom, Claimable;
    if e :| e in w.disks && Claimable(w, a, pool, e) {
      d := e;
    } else {
      d := FreshName(w.disks.Keys);
      assert d !in w.disks.Keys;
    }
  }
}
