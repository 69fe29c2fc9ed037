// reconcileDelete: the passes that take a machine's disks off, remove its
// virtual machine and let the machine go. Calls and updates may fail; SCVMM
// finishes each job it has accepted between passes.
module MachineDeletion {
  import opened Wrappers
  import opened DiskWorld

  datatype Status = Running | PowerOff | Other

  datatype Drive = Drive(lun: int, file: string)

  datatype VM = VM(status: Status, drives: seq<Drive>)

  /**
   * `disks` are the persistent disk objects that exist, `owned` those whose
   * owner references name the machine; `named` says the pool lists it as an owner.
   */
  datatype State = State(
    finalizer: bool, vmName: string, id: string, pooled: bool, slots: seq<Slot>,
    vm: Option<VM>, disks: set<string>, owned: set<string>, named: bool)

  /** The first drive at a LUN. */
  function DiskByLun(drives: seq<Drive>, lun: int): (r: Option<Drive>)
    ensures r.None? <==> forall d :: d in drives ==> d.lun != lun
    ensures r.Some? ==> r.value in drives && r.value.lun == lun
  {
    if drives == [] then None
    else if drives[0].lun == lun then Some(drives[0])
    else DiskByLun(drives[1..], lun)
  }

  /** What GetVM shows; a machine without an id has no drives to show. */
  function Shown(s: State): seq<Drive> {
    if s.id == "" || s.vm.None? then [] else s.vm.value.drives
  }

  // ----- what the scripts do, once their jobs are finished ------------------------------------

  function Without(drives: seq<Drive>, lun: int): (r: seq<Drive>)
    ensures forall d :: d in r <==> d in drives && d.lun != lun
    ensures |r| <= |drives| && (|r| == |drives| ==> DiskByLun(drives, lun).None?)
  {
    if drives == [] then []
    else
      var rest := Without(drives[1..], lun);
      assert forall d :: d in drives <==> d == drives[0] || d in drives[1..];
      if drives[0].lun == lun then rest else [drives[0]] + rest
  }

  /** RemoveDiskFromVM takes a drive off a virtual machine that is off, and stops any other. */
  function DiskRemoved(vm: VM, lun: int): VM {
    if vm.status == PowerOff then vm.(drives := Without(vm.drives, lun)) else vm.(status := PowerOff)
  }

  /** RemoveVM stops a virtual machine that is running and removes any other. */
  function VMRemoved(vm: VM): Option<VM> {
    if vm.status == Running then Some(vm.(status := PowerOff)) else None
  }

  // ----- a pass -------------------------------------------------------------------------------

  function Released(s: State, i: nat): State
    requires DiskAt(s.slots, i).Some?
  {
    s.(slots := Clear(s.slots, i), owned := s.owned - {DiskAt(s.slots, i).value})
  }

  /**
   * What goes wrong in a pass: something before it has had an effect, a call
   * for the disk of a slot, which if `late` has had its effect all the same,
   * or the writing of the machine at its end.
   */
  datatype Fault = NoFault | Early | AtSlot(slot: nat, late: bool) | AtEnd

  predicate FailsAt(fault: Fault, i: nat) {
    fault.AtSlot? && fault.slot == i
  }

  /**
   * removePersistentDisks from slot `i` on: it releases disks without a drive,
   * and stops at the first with one, at a disk that does not exist, or at the
   * disk for which a call fails.
   */
  function Swept(s: State, i: nat, fault: Fault): State
    requires i <= |s.slots|
    decreases |s.slots| - i
  {
    if i == |s.slots| then s
    else if DiskAt(s.slots, i).None? then Swept(s, i + 1, fault)
    else if DiskAt(s.slots, i).value !in s.disks || (FailsAt(fault, i) && !fault.late) then s
    else if DiskByLun(Shown(s), i).None? then
      if FailsAt(fault, i) then s.(owned := s.owned - {DiskAt(s.slots, i).value}) else Swept(Released(s, i), i + 1, fault)
    else if s.vm.value.status == Other then s
    else s.(vm := Some(DiskRemoved(s.vm.value, i)))
  }

  function Passed(s: State, fault: Fault): State {
    if !s.finalizer || fault.Early? then s
    else if s.vmName == "" && s.id == "" then s.(finalizer := fault.AtEnd?)
    else if HasPersistentDisks(s.slots) then
      var t := Swept(s, 0, fault);
      if fault.AtEnd? then t.(slots := s.slots) else t
    else if s.id == "" || s.vm.None? then s.(finalizer := fault.AtEnd?, named := s.named && !s.pooled)
    else s.(vm := VMRemoved(s.vm.value))
  }

  /** The reconciler's view of the machine and what it is connected to. */
  class Deletion {
    var finalizer: bool
    var vmName: string
    var id: string
    var pooled: bool
    var slots: seq<Slot>
    var vm: Option<VM>
    var disks: set<string>
    var owned: set<string>
    var named: bool

    constructor (s: State)
      ensures Now() == s
    {
      finalizer, vmName, id, pooled, slots, vm, disks, owned, named :=
        s.finalizer, s.vmName, s.id, s.pooled, s.slots, s.vm, s.disks, s.owned, s.named;
    }

    ghost function Now(): State
      reads this
    {
      State(finalizer, vmName, id, pooled, slots, vm, disks, owned, named)
    }

    method RemovePersistentDisks(fault: Fault)
      modifies this
      ensures Now() == Swept(old(Now()), 0, fault)
    {
      hide DiskRemoved;
      var drives := if id == "" || vm.None? then [] else vm.value.drives;
      for i := 0 to |slots|
        invariant |slots| == old(|slots|) && drives == Shown(Now())
        invariant Swept(Now(), i, fault) == Swept(old(Now()), 0, fault)
      {
        if DiskAt(slots, i).Some? {
          if DiskAt(slots, i).value !in disks || (FailsAt(fault, i) && !fault.late) {
            return;
          }
          if DiskByLun(drives, i).Some? {
            if vm.value.status == Running || vm.value.status == PowerOff {
              vm := Some(DiskRemoved(vm.value, i));
            }
            return;
          }
          owned := owned - {DiskAt(slots, i).value};
          if FailsAt(fault, i) {
            return;
          }
          slots := Clear(slots, i);
        }
      }
    }

    method ReconcileDelete(fault: Fault)
      modifies this
      ensures Now() == Passed(old(Now()), fault)
    {
      hide Swept;
      if !finalizer || fault.Early? {
        return;
      }
      if vmName == "" && id == "" {
        finalizer := fault.AtEnd?;
        return;
      }
      if HasPersistentDisks(slots) {
        var stored := slots;
        RemovePersistentDisks(fault);
        if fault.AtEnd? {
          slots := stored;
        }
        return;
      }
      if id == "" || vm.None? {
        if pooled {
          named := false;
        }
        finalizer := fault.AtEnd?;
      } else {
        vm := VMRemoved(vm.value);
      }
    }
  }

  // ----- what a pass does, in the fields of the state -----------------------------------------

  /** Taking the drives of a LUN off goes drive by drive: it leaves all others, in order. */
  lemma {:induction false} WithoutMeans(a: seq<Drive>, b: seq<Drive>, d: Drive, lun: int)
    ensures Without(a + b, lun) == Without(a, lun) + Without(b, lun)
    ensures Without([d], lun) == if d.lun == lun then [] else [d]
    ensures Without([], lun) == []
  {
    hide Without, DiskByLun;
    WithoutNone(lun);
    WithoutFront([d], lun);
    assert [d][1..] == [];
    if a == [] {
      assert a + b == b;
    } else {
      WithoutMeans(a[1..], b, d, lun);
      assert (a + b)[0] == a[0] && (a + b)[1..] == a[1..] + b;
      WithoutFront(a + b, lun);
      WithoutFront(a, lun);
    }
  }

  lemma {:induction false} WithoutNone(lun: int)
    ensures Without([], lun) == []
  {
  }

  lemma {:induction false} WithoutFront(drives: seq<Drive>, lun: int)
    requires drives != []
    ensures Without(drives, lun) == (if drives[0].lun == lun then [] else [drives[0]]) + Without(drives[1..], lun)
  {
    hide DiskByLun;
  }

  /** A virtual machine that is off loses the drives of the LUN and keeps its status; any other is switched off and keeps all drives. */
  lemma DiskRemovedMeans(vm: VM, lun: int)
    ensures DiskRemoved(vm, lun).status == PowerOff
    ensures vm.status == PowerOff ==> forall d :: d in DiskRemoved(vm, lun).drives <==> d in vm.drives && d.lun != lun
    ensures vm.status != PowerOff ==> DiskRemoved(vm, lun).drives == vm.drives
  {
    hide DiskByLun;
  }

  /** The virtual machine can be seen, and has a drive at the LUN. */
  predicate HasDrive(s: State, lun: int) {
    s.id != "" && s.vm.Some? && exists d :: d in s.vm.value.drives && d.lun == lun
  }

  lemma {:induction false} HasDriveMeans(s: State, lun: int)
    ensures HasDrive(s, lun) <==> DiskByLun(Shown(s), lun).Some?
  {
    var drives := Shown(s);
    hide DiskByLun;
    if DiskByLun(drives, lun).Some? {
      assert DiskByLun(drives, lun).value in drives;
    }
  }

  /** Between `i` and `j`, the disks of the filled slots exist, have no drive, and no call for them fails. */
  predicate Removable(s: State, i: nat, j: nat, fault: Fault) {
    forall k :: i <= k < j && DiskAt(s.slots, k).Some? ==>
      DiskAt(s.slots, k).value in s.disks && !HasDrive(s, k) && !(fault.AtSlot? && fault.slot == k)
  }

  /** The disks in the slots from `i` to `j`. */
  function DisksFrom(slots: seq<Slot>, i: nat, j: nat): set<string> {
    set k | i <= k < j && DiskAt(slots, k).Some? :: DiskAt(slots, k).value
  }

  /** At slot `j` the sweep ends: its disk does not exist or has a drive, or a call for it fails. */
  predicate EndsAt(s: State, j: nat, fault: Fault) {
    && j < |s.slots| && DiskAt(s.slots, j).Some?
    && (DiskAt(s.slots, j).value !in s.disks || HasDrive(s, j) || (fault.AtSlot? && fault.slot == j))
  }

  /** A call for the disk of slot `j`, which exists, fails before it has had an effect, or not at all. */
  predicate Reaches(s: State, j: nat, fault: Fault) {
    j < |s.slots| && DiskAt(s.slots, j).Some? && DiskAt(s.slots, j).value in s.disks
    && !(fault.AtSlot? && fault.slot == j && !fault.late)
  }

  /**
   * What a sweep from slot `i` that ends at slot `j` leaves: the slots between
   * them are clear and their disks not owned any more; at `j` either the owner
   * reference goes all the same, by a call that fails late, or the virtual
   * machine is stopped or loses the drive, if it is running or off; all else
   * stays.
   */
  predicate Leaves(s: State, i: nat, j: nat, fault: Fault, u: State) {
    && u == s.(slots := u.slots, owned := u.owned, vm := u.vm) && |u.slots| == |s.slots|
    && (forall k :: 0 <= k < |s.slots| ==>
          u.slots[k] == if i <= k < j && DiskAt(s.slots, k).Some? then s.slots[k].(disk := None) else s.slots[k])
    && u.owned == s.owned - DisksFrom(s.slots, i, if Reaches(s, j, fault) && !HasDrive(s, j) then j + 1 else j)
    && u.vm == if Reaches(s, j, fault) && HasDrive(s, j) && s.vm.value.status != Other then Some(DiskRemoved(s.vm.value, j)) else s.vm
  }

  lemma {:induction false} SweptExactly(s: State, i: nat, fault: Fault) returns (j: nat)
    requires i <= |s.slots|
    ensures i <= j <= |s.slots| && Removable(s, i, j, fault) && (j < |s.slots| ==> EndsAt(s, j, fault))
    ensures Leaves(s, i, j, fault, Swept(s, i, fault))
    decreases |s.slots| - i
  {
    hide DiskByLun, DiskRemoved, HasDrive, Leaves;
    j := i;
    if i == |s.slots| {
      EndOfSweep(s, i, fault);
    } else {
      HasDriveMeans(s, i);
      if DiskAt(s.slots, i).None? {
        j := SweptExactly(s, i + 1, fault);
        PastPlain(s, i, j, fault, Swept(s, i + 1, fault));
      } else if DiskAt(s.slots, i).value in s.disks && !(fault.AtSlot? && fault.slot == i) && !HasDrive(s, i) {
        var t := Released(s, i);
        j := SweptExactly(t, i + 1, fault);
        SameView(s, t, i, j, fault);
        PastReleased(s, i, j, fault, Swept(t, i + 1, fault));
      } else {
        EndOfSweep(s, i, fault);
      }
    }
  }

  lemma {:induction false} EndOfSweep(s: State, i: nat, fault: Fault)
    requires i <= |s.slots| && (i < |s.slots| ==> EndsAt(s, i, fault))
    ensures Leaves(s, i, i, fault, Swept(s, i, fault))
  {
    hide DiskRemoved, HasDrive;
    HasDriveMeans(s, i);
    hide DiskByLun;
    assert DisksFrom(s.slots, i, i) == {};
    if i < |s.slots| {
      assert DisksFrom(s.slots, i, i + 1) == {DiskAt(s.slots, i).value};
    }
  }

  lemma PastPlain(s: State, i: nat, j: nat, fault: Fault, u: State)
    requires i < j <= |s.slots| && DiskAt(s.slots, i).None? && Leaves(s, i + 1, j, fault, u)
    ensures Leaves(s, i, j, fault, u)
  {
    hide DiskByLun, DiskRemoved, HasDrive;
    assert DisksFrom(s.slots, i, j) == DisksFrom(s.slots, i + 1, j);
    assert DisksFrom(s.slots, i, j + 1) == DisksFrom(s.slots, i + 1, j + 1);
  }

  lemma PastReleased(s: State, i: nat, j: nat, fault: Fault, u: State)
    requires i < j <= |s.slots| && DiskAt(s.slots, i).Some? && Leaves(Released(s, i), i + 1, j, fault, u)
    ensures Leaves(s, i, j, fault, u)
  {
    hide DiskByLun, DiskRemoved, HasDrive, Removable, EndsAt, Reaches, DisksFrom;
    var t := Released(s, i);
    SameView(s, t, i, j, fault);
    assert t.vm == s.vm;
    assert DisksFrom(s.slots, i, j) == DisksFrom(t.slots, i + 1, j) + {DiskAt(s.slots, i).value};
    assert DisksFrom(s.slots, i, j + 1) == DisksFrom(t.slots, i + 1, j + 1) + {DiskAt(s.slots, i).value};
  }

  /** Releasing the disk of an earlier slot changes nothing about the later ones. */
  lemma SameView(s: State, t: State, i: nat, j: nat, fault: Fault)
    requires i < |s.slots| && DiskAt(s.slots, i).Some? && t == Released(s, i) && i < j
    ensures forall k :: k != i ==> DiskAt(t.slots, k) == DiskAt(s.slots, k)
    ensures forall k :: HasDrive(t, k) <==> HasDrive(s, k)
    ensures Removable(t, i + 1, j, fault) <==> Removable(s, i + 1, j, fault)
    ensures EndsAt(t, j, fault) <==> EndsAt(s, j, fault)
    ensures Reaches(t, j, fault) <==> Reaches(s, j, fault)
    ensures forall n :: n >= j ==> DisksFrom(s.slots, i, n) == DisksFrom(t.slots, i + 1, n) + {DiskAt(s.slots, i).value}
  {
  }

  // ----- what a pass may do, and what it does ---------------------------------------------------

  /**
   * The virtual machine is gone after a pass only if it was not running and no
   * slot held a disk; the pool's entry is released, and the finalizer goes,
   * only once it is gone, or never had a name and an id. Unless something
   * fails, a pass that finds no disk in a slot does take that step.
   */
  lemma PassMeans(s: State, fault: Fault)
    ensures var t := Passed(s, fault); var free := forall i :: 0 <= i < |s.slots| ==> DiskAt(s.slots, i).None?;
      && (s.vm.Some? && t.vm.None? ==> free && s.finalizer && s.id != "" && s.vm.value.status != Running)
      && (s.finalizer && !t.finalizer ==> (s.vmName == "" && s.id == "") || (free && (s.id == "" || s.vm.None?)))
      && (t.named != s.named ==> !t.named && s.pooled && s.finalizer && free && (s.id == "" || s.vm.None?) && !(s.vmName == "" && s.id == ""))
      && (s.finalizer && !fault.Early? && s.vmName == "" && s.id == "" ==> t == s.(finalizer := fault.AtEnd?))
      && (s.finalizer && !fault.Early? && free && s.id != "" && s.vm.Some? ==>
            t == s.(vm := if s.vm.value.status == Running then Some(VM(PowerOff, s.vm.value.drives)) else None))
      && (s.finalizer && !fault.Early? && free && !(s.vmName == "" && s.id == "") && (s.id == "" || s.vm.None?) ==>
            t == s.(finalizer := fault.AtEnd?, named := s.named && !s.pooled))
      && (!s.finalizer || fault.Early? ==> t == s)
  {
    if HasPersistentDisks(s.slots) {
      var j := SweptExactly(s, 0, fault);
    }
    hide Swept;
  }
}
