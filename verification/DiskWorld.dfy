// Persistent disks over whole runs: machines claim disks of pools, attach
// them to their virtual machines, and let go of them when they are deleted.
// One step per API update, script call or finished SCVMM job.
module DiskWorld {
  import opened Wrappers

  /** An entry of a machine's disk list; its position is the LUN of its drive. */
  datatype Slot = Plain | Persistent(pool: string, disk: Option<string>)

  /** `owners` are the machines among the owner references. */
  datatype Disk = Disk(pool: string, owners: set<string>)

  /** What a reconciler holds in memory: the slots, and the disks in them at the start or the LUNs GetVM showed. */
  datatype Pass = Idle | Normal(slots: seq<Slot>, seen: set<string>) | Deleting(slots: seq<Slot>, luns: set<nat>)

  datatype Phase = Alive | Dying | Going | Gone

  datatype Machine = Machine(slots: seq<Slot>, phase: Phase, hasVM: bool, pass: Pass)

  /**
   * `drives` are the persistent disks attached to virtual machines, `jobs` the
   * removals SCVMM has been asked for, `limits` the MaxDisks of the pools.
   */
  datatype World = World(
    limits: map<string, nat>,
    machines: map<string, Machine>,
    disks: map<string, Disk>,
    drives: map<(string, nat), string>,
    jobs: set<(string, nat)>)

  datatype Step =
    | CreateMachine(m: string, slots: seq<Slot>)
    | AddSlot(m: string, slot: Slot)
    | BeginNormal(m: string)
    | Claim(m: string, i: nat, d: string)        // the version-checked update in claimPersistentDisk
    | Make(m: string, i: nat, d: string)         // the create call in claimPersistentDisk
    | Attach(m: string, luns: set<nat>)          // CreateVM or ExpandVMDisks, then the patch
    | Patch(m: string)
    | Drop(m: string)                            // the pass fails, at any point
    | MarkDeleted(m: string)
    | BeginDelete(m: string)                     // removePersistentDisks, after GetVM
    | Release(m: string, i: nat)                 // the owner reference goes
    | Detach(m: string, i: nat)                  // RemoveDiskFromVM, then the patch
    | JobDone(m: string, i: nat)
    | RemoveVM(m: string)
    | Finish(m: string)                          // the finalizer goes
    | Collect(m: string, d: string)              // references to a machine that is gone are dropped
    | RemoveDisk(d: string)

  function DiskAt(slots: seq<Slot>, i: nat): Option<string> {
    if i < |slots| && slots[i].Persistent? then slots[i].disk else None
  }

  function DisksIn(slots: seq<Slot>): set<string> {
    set i | 0 <= i < |slots| && DiskAt(slots, i).Some? :: DiskAt(slots, i).value
  }

  predicate IsOpen(slots: seq<Slot>, i: nat) {
    i < |slots| && slots[i].Persistent? && slots[i].disk == None
  }

  predicate HasPersistentDisks(slots: seq<Slot>) {
    exists i :: 0 <= i < |slots| && DiskAt(slots, i).Some?
  }

  function Luns(w: World, m: string): set<nat> {
    set k | k in w.drives && k.0 == m :: k.1
  }

  /** Not owned by others, and not by this machine if already in a slot. */
  predicate Free(w: World, m: string, seen: set<string>, d: string) {
    d in w.disks && forall o :: o in w.disks[d].owners ==> o == m && d !in seen
  }

  function DisksOf(disks: map<string, Disk>, pool: string): set<string> {
    set d | d in disks && disks[d].pool == pool
  }

  /** There is no limit, or fewer disks than it allows. */
  predicate HasRoom(w: World, pool: string) {
    pool in w.limits && w.limits[pool] > 0 ==> |DisksOf(w.disks, pool)| < w.limits[pool]
  }

  predicate Enabled(w: World, s: Step) {
    && (!s.CreateMachine? && !s.RemoveDisk? ==> s.m in w.machines)
    && match s
       case CreateMachine(m, slots) => m !in w.machines && forall i :: 0 <= i < |slots| ==> DiskAt(slots, i) == None
       case AddSlot(m, slot) => w.machines[m].phase == Alive && w.machines[m].pass == Idle && DiskAt([slot], 0) == None
       case BeginNormal(m) => w.machines[m].phase == Alive && w.machines[m].pass == Idle
       case Claim(m, i, d) =>
         && w.machines[m].pass.Normal? && IsOpen(w.machines[m].pass.slots, i)
         && Free(w, m, w.machines[m].pass.seen, d) && w.disks[d].pool == w.machines[m].pass.slots[i].pool
       case Make(m, i, d) =>
         && w.machines[m].pass.Normal? && IsOpen(w.machines[m].pass.slots, i)
         && d !in w.disks && HasRoom(w, w.machines[m].pass.slots[i].pool)
       case Attach(m, luns) =>
         w.machines[m].pass.Normal? && forall i :: i in luns ==> DiskAt(w.machines[m].pass.slots, i).Some? && (m, i) !in w.drives
       case Patch(m) => w.machines[m].pass != Idle
       case Drop(m) => true
       case MarkDeleted(m) => w.machines[m].phase == Alive
       case BeginDelete(m) => w.machines[m].phase in {Dying, Going} && w.machines[m].pass == Idle
       case Release(m, i) =>
         && w.machines[m].pass.Deleting? && i !in w.machines[m].pass.luns
         && DiskAt(w.machines[m].pass.slots, i).Some? && DiskAt(w.machines[m].pass.slots, i).value in w.disks
       case Detach(m, i) => w.machines[m].pass.Deleting? && i in w.machines[m].pass.luns && DiskAt(w.machines[m].pass.slots, i).Some?
       case JobDone(m, i) => (m, i) in w.jobs
       case RemoveVM(m) =>
         w.machines[m].phase in {Dying, Going} && w.machines[m].pass == Idle && !HasPersistentDisks(w.machines[m].slots)
       case Finish(m) => w.machines[m].phase in {Dying, Going} && w.machines[m].pass == Idle && !w.machines[m].hasVM
       case Collect(m, d) => w.machines[m].phase == Gone && d in w.disks
       case RemoveDisk(d) => d in w.disks && w.disks[d].owners == {}
  }

  function WithMachine(w: World, m: string, x: Machine): World {
    w.(machines := w.machines[m := x])
  }

  function WithOwners(w: World, d: string, owners: set<string>): World
    requires d in w.disks
  {
    w.(disks := w.disks[d := w.disks[d].(owners := owners)])
  }

  function Fill(slots: seq<Slot>, i: nat, d: string): seq<Slot>
    requires IsOpen(slots, i)
  {
    slots[i := slots[i].(disk := Some(d))]
  }

  function Clear(slots: seq<Slot>, i: nat): seq<Slot>
    requires DiskAt(slots, i).Some?
  {
    slots[i := slots[i].(disk := None)]
  }

  function NewDrives(m: string, slots: seq<Slot>, luns: set<nat>): (r: map<(string, nat), string>)
    requires forall i :: i in luns ==> DiskAt(slots, i).Some?
    ensures forall k :: k in r <==> k.0 == m && k.1 in luns
    ensures forall k :: k in r ==> r[k] == DiskAt(slots, k.1).value
  {
    var keys := set i | i in luns :: (m, i);
    assert forall k :: k in keys ==> k.0 == m && k.1 in luns;
    assert forall k: (string, nat) :: k.0 == m && k.1 in luns ==> k == (m, k.1) && (m, k.1) in keys;
    map k | k in keys :: DiskAt(slots, k.1).value
  }

  function After(w: World, s: Step): World
    requires Enabled(w, s)
  {
    match s
    case CreateMachine(m, slots) => WithMachine(w, m, Machine(slots, Alive, false, Idle))
    case AddSlot(m, slot) => WithMachine(w, m, w.machines[m].(slots := w.machines[m].slots + [slot]))
    case BeginNormal(m) => WithMachine(w, m, w.machines[m].(pass := Normal(w.machines[m].slots, DisksIn(w.machines[m].slots))))
    case Claim(m, i, d) =>
      var p := w.machines[m].pass;
      WithOwners(WithMachine(w, m, w.machines[m].(pass := Normal(Fill(p.slots, i, d), p.seen))), d, w.disks[d].owners + {m})
    case Make(m, i, d) =>
      var p := w.machines[m].pass;
      var u := WithMachine(w, m, w.machines[m].(pass := Normal(Fill(p.slots, i, d), p.seen)));
      u.(disks := u.disks[d := Disk(p.slots[i].pool, {m})])
    case Attach(m, luns) =>
      var slots := w.machines[m].pass.slots;
      var u := WithMachine(w, m, w.machines[m].(slots := slots, hasVM := true));
      u.(drives := w.drives + NewDrives(m, slots, luns))
    case Patch(m) => WithMachine(w, m, w.machines[m].(slots := w.machines[m].pass.slots, pass := Idle))
    case Drop(m) => WithMachine(w, m, w.machines[m].(pass := Idle))
    case MarkDeleted(m) => WithMachine(w, m, w.machines[m].(phase := Dying))
    case BeginDelete(m) => WithMachine(w, m, w.machines[m].(phase := Going, pass := Deleting(w.machines[m].slots, Luns(w, m))))
    case Release(m, i) =>
      var p := w.machines[m].pass;
      var d := DiskAt(p.slots, i).value;
      WithOwners(WithMachine(w, m, w.machines[m].(pass := Deleting(Clear(p.slots, i), p.luns))), d, w.disks[d].owners - {m})
    case Detach(m, i) =>
      WithMachine(w, m, w.machines[m].(slots := w.machines[m].pass.slots, pass := Idle)).(jobs := w.jobs + {(m, i)})
    case JobDone(m, i) => w.(drives := w.drives - {(m, i)}, jobs := w.jobs - {(m, i)})
    case RemoveVM(m) =>
      WithMachine(w, m, w.machines[m].(hasVM := false)).(drives := map k | k in w.drives && k.0 != m :: w.drives[k])
    case Finish(m) => WithMachine(w, m, w.machines[m].(phase := Gone))
    case Collect(m, d) => WithOwners(w, d, w.disks[d].owners - {m})
    case RemoveDisk(d) => w.(disks := w.disks - {d})
  }

  // ----- runs ---------------------------------------------------------------------------------

  function Init(limits: map<string, nat>): World {
    World(limits, map[], map[], map[], {})
  }

  ghost predicate IsStep(w: World, u: World) {
    exists s :: Enabled(w, s) && u == After(w, s)
  }

  /** A run: any sequence of steps from a world without machines and disks. */
  ghost predicate IsRun(run: seq<World>) {
    run != [] && run[0] == Init(run[0].limits) && forall i :: 0 <= i < |run| - 1 ==> IsStep(run[i], run[i + 1])
  }
}
