// Deletion comes to an end: how many passes it takes, when it does not, and
// what is left at the end.
module DeletionProgress {
  import opened Wrappers
  import opened DiskWorld
  import opened MachineDeletion

  /** What happens while a machine is deleted: a pass, or the disk objects change. */
  datatype Event = Pass(fault: Fault) | Disks(existing: set<string>)

  function Done(s: State, e: Event): State {
    match e
    case Pass(fault) => Passed(s, fault)
    case Disks(existing) => s.(disks := existing, owned := s.owned * existing)
  }

  function Run(s: State, events: seq<Event>): State {
    if events == [] then s else Done(Run(s, events[..|events| - 1]), events[|events| - 1])
  }

  predicate WellFormed(s: State) {
    s.id == "" ==> s.vm.None?
  }

  /** A filled slot has a drive. */
  predicate Attached(s: State) {
    AttachedIn(s.slots, Shown(s))
  }

  predicate AttachedIn(slots: seq<Slot>, drives: seq<Drive>) {
    exists i :: 0 <= i < |slots| && DiskAt(slots, i).Some? && DiskByLun(drives, i).Some?
  }

  /** The virtual machine is neither running nor off, and has a disk that must come off. */
  predicate Stuck(s: State) {
    s.vm.Some? && s.vm.value.status == Other && Attached(s)
  }

  /** A filled slot names a disk that does not exist. */
  predicate Missing(s: State) {
    MissingIn(s.slots, s.disks)
  }

  predicate MissingIn(slots: seq<Slot>, disks: set<string>) {
    exists i :: 0 <= i < |slots| && DiskAt(slots, i).Some? && DiskAt(slots, i).value !in disks
  }

  /** The two ways not to end. */
  predicate Blocked(s: State) {
    s.finalizer && (s.vmName != "" || s.id != "") && (Stuck(s) || Missing(s))
  }

  /** How many passes had no fault and did not meet a blocked machine. */
  function Useful(s: State, events: seq<Event>): nat {
    if events == [] then 0
    else
      var front := events[..|events| - 1];
      Useful(s, front) + (if events[|events| - 1] == Pass(NoFault) && !Blocked(Run(s, front)) then 1 else 0)
  }

  /** Drives to take off, the stop, the sweep, the removal of the virtual machine, and the finalizer. */
  function Rank(s: State): nat {
    (if s.vm.Some? then |s.vm.value.drives| + 1 + (if s.vm.value.status == Running then 1 else 0) else 0)
    + (if HasPersistentDisks(s.slots) then 1 else 0) + (if s.finalizer then 1 else 0)
  }

  // ----- one sweep ----------------------------------------------------------------------------

  /** Slots below `i` hold no disks. */
  predicate ClearTo(s: State, i: nat) {
    forall k :: 0 <= k < i && k < |s.slots| ==> DiskAt(s.slots, k).None?
  }

  /** `t` is `s` with some disks without drives released. */
  predicate ReleasedFrom(s: State, t: State) {
    && t == s.(slots := t.slots, owned := t.owned) && |t.slots| == |s.slots|
    && t.owned - DisksIn(t.slots) == s.owned - DisksIn(s.slots)
    && t.owned <= s.owned && s.owned - t.owned <= DisksIn(s.slots) && DisksIn(t.slots) <= DisksIn(s.slots)
    && forall k :: 0 <= k < |s.slots| && DiskAt(t.slots, k) != DiskAt(s.slots, k) ==>
         && DiskAt(t.slots, k).None? && DiskByLun(Shown(s), k).None?
         && DiskAt(s.slots, k).value in s.disks
  }

  lemma ClearedDisks(slots: seq<Slot>, i: nat)
    requires DiskAt(slots, i).Some?
    ensures DisksIn(slots) == DisksIn(Clear(slots, i)) + {DiskAt(slots, i).value}
    ensures forall k :: 0 <= k < |slots| ==> DiskAt(Clear(slots, i), k) == if k == i then None else DiskAt(slots, k)
  {
    var less, d := Clear(slots, i), DiskAt(slots, i).value;
    forall x | x in DisksIn(slots)
      ensures x in DisksIn(less) + {d}
    {
      var k :| 0 <= k < |slots| && DiskAt(slots, k) == Some(x);
      assert k == i || DiskAt(less, k) == Some(x);
    }
    forall x | x in DisksIn(less)
      ensures x in DisksIn(slots)
    {
      var k :| 0 <= k < |less| && DiskAt(less, k) == Some(x);
      assert DiskAt(slots, k) == Some(x);
    }
  }

  /** Releasing disks keeps what is attached attached, and a slot is cleared only without a drive. */
  lemma ReleaseKeepsAttached(s: State, t: State)
    requires ReleasedFrom(s, t)
    ensures (Attached(s) <==> Attached(t)) && (Missing(s) <==> Missing(t))
    ensures HasPersistentDisks(t.slots) ==> HasPersistentDisks(s.slots)
  {
    hide DisksIn, DiskByLun;
    if k :| 0 <= k < |s.slots| && DiskAt(s.slots, k).Some? && DiskAt(s.slots, k).value !in s.disks {
      assert DiskAt(t.slots, k) == DiskAt(s.slots, k);
    }
    if k :| 0 <= k < |t.slots| && DiskAt(t.slots, k).Some? && DiskAt(t.slots, k).value !in t.disks {
      assert DiskAt(t.slots, k) == DiskAt(s.slots, k);
    }
    if k :| 0 <= k < |s.slots| && DiskAt(s.slots, k).Some? && DiskByLun(Shown(s), k).Some? {
      assert DiskAt(t.slots, k).Some? && DiskByLun(Shown(t), k).Some?;
    }
    if k :| 0 <= k < |t.slots| && DiskAt(t.slots, k).Some? && DiskByLun(Shown(t), k).Some? {
      assert DiskAt(s.slots, k).Some? && DiskByLun(Shown(s), k).Some?;
    }
    if k :| 0 <= k < |t.slots| && DiskAt(t.slots, k).Some? {
      assert DiskAt(s.slots, k).Some?;
    }
  }

  lemma {:induction false} ReleaseStep(s: State, i: nat)
    requires DiskAt(s.slots, i).Some? && DiskByLun(Shown(s), i).None? && DiskAt(s.slots, i).value in s.disks
    ensures ReleasedFrom(s, Released(s, i)) && ReleasedFrom(s, s.(owned := s.owned - {DiskAt(s.slots, i).value}))
    ensures forall k :: 0 <= k < |s.slots| ==> DiskAt(Released(s, i).slots, k) == if k == i then None else DiskAt(s.slots, k)
  {
    hide DisksIn, DiskByLun;
    ClearedDisks(s.slots, i);
  }

  lemma ReleasedTwice(s: State, r: State, t: State)
    requires ReleasedFrom(s, r) && ReleasedFrom(r, t)
    ensures ReleasedFrom(s, t) && (Attached(r) <==> Attached(s)) && (Missing(r) <==> Missing(s))
  {
    hide DisksIn, DiskByLun, Attached, Missing;
    ReleaseKeepsAttached(s, r);
  }

  /** Slot `k` of `t` has a drive, which the sweep has taken or cannot take off. */
  predicate SweepStopsAt(s: State, i: nat, fault: Fault, t: State, k: nat)
    requires i <= |s.slots|
  {
    && k < |t.slots| && DiskAt(t.slots, k).Some? && DiskByLun(Shown(s), k).Some? && s.vm.Some?
    && Swept(s, i, fault) == if s.vm.value.status == Other then t else t.(vm := Some(DiskRemoved(s.vm.value, k)))
  }

  ghost predicate SweepStops(s: State, i: nat, fault: Fault, t: State)
    requires i <= |s.slots|
  {
    exists k: nat :: SweepStopsAt(s, i, fault, t, k)
  }

  /**
   * A sweep releases disks until it comes to one with a drive, to one that
   * does not exist, to a failing call, or to the end; without a failing call
   * and with all disks there, it stops at a drive exactly when there is one
   * for a filled slot.
   */
  lemma {:induction false} SweptMeans(s: State, i: nat, fault: Fault)
    returns (t: State)
    requires i <= |s.slots| && ClearTo(s, i)
    ensures ReleasedFrom(s, t)
    ensures Swept(s, i, fault) == t || (Attached(s) && SweepStops(s, i, fault, t))
    ensures !fault.AtSlot? && !Missing(s) ==>
      if Attached(s) then SweepStops(s, i, fault, t) else Swept(s, i, fault) == t && ClearTo(t, |t.slots|)
    decreases |s.slots| - i
  {
    hide DisksIn, DiskByLun, ReleasedFrom, Attached, SweepStops, Missing;
    if i == |s.slots| {
      t := s;
      NothingReleased(s);
      ClearIsFree(s);
    } else if DiskAt(s.slots, i).None? {
      t := SweptMeans(s, i + 1, fault);
      StopsEarlier(s, s, i, i + 1, fault, t);
    } else if DiskAt(s.slots, i).value !in s.disks || (FailsAt(fault, i) && !fault.late) {
      t := s;
      NothingReleased(s);
      MissingAt(s, i);
    } else if DiskByLun(Shown(s), i).None? {
      ReleaseStep(s, i);
      if FailsAt(fault, i) {
        t := Swept(s, i, fault);
      } else {
        t := SweptMeans(Released(s, i), i + 1, fault);
        ReleasedTwice(s, Released(s, i), t);
        StopsEarlier(s, Released(s, i), i, i + 1, fault, t);
      }
    } else {
      t := s;
      NothingReleased(s);
      StopsHere(s, i, fault);
    }
  }

  lemma ClearIsFree(s: State)
    ensures ClearTo(s, |s.slots|) ==> !Attached(s)
  {
  }

  lemma MissingAt(s: State, i: nat)
    requires i < |s.slots| && DiskAt(s.slots, i).Some?
    ensures DiskAt(s.slots, i).value !in s.disks ==> Missing(s)
  {
  }

  lemma {:induction false} StopsHere(s: State, i: nat, fault: Fault)
    requires i < |s.slots| && DiskAt(s.slots, i).Some? && DiskByLun(Shown(s), i).Some?
    requires DiskAt(s.slots, i).value in s.disks && !(FailsAt(fault, i) && !fault.late)
    ensures Attached(s) && SweepStops(s, i, fault, s)
  {
    hide DiskByLun;
    assert SweepStopsAt(s, i, fault, s, i);
  }

  lemma NothingReleased(s: State)
    ensures ReleasedFrom(s, s)
  {
  }

  lemma {:induction false} StopsEarlier(s: State, r: State, i: nat, j: nat, fault: Fault, t: State)
    requires i < j <= |s.slots| == |r.slots| && r.vm == s.vm && r.id == s.id && Swept(s, i, fault) == Swept(r, j, fault)
    ensures SweepStops(r, j, fault, t) ==> SweepStops(s, i, fault, t)
  {
    hide DiskByLun, Swept;
    if k: nat :| SweepStopsAt(r, j, fault, t, k) {
      assert SweepStopsAt(s, i, fault, t, k);
    }
  }

  // ----- one pass -----------------------------------------------------------------------------

  /** The virtual machine after a drive has been taken off or, for that, the machine stopped. */
  ghost predicate Nearer(s: State, v: Option<VM>) {
    && s.vm.Some? && s.vm.value.status != Other
    && exists k: nat :: DiskByLun(s.vm.value.drives, k).Some? && v == Some(DiskRemoved(s.vm.value, k))
  }

  /** A sweep releases disks, and then may do something about one drive; unhindered it does what it can. */
  lemma {:induction false} SweepOutcome(s: State, fault: Fault)
    requires WellFormed(s)
    ensures var u := Swept(s, 0, fault);
      && u == s.(slots := u.slots, owned := u.owned, vm := u.vm) && ReleasedFrom(s, u.(vm := s.vm))
      && (u.vm == s.vm || Nearer(s, u.vm))
      && (!fault.AtSlot? && !Missing(s) ==>
            if !Attached(s) then u.vm == s.vm && !HasPersistentDisks(u.slots)
            else s.vm.Some? && (s.vm.value.status == Other || Nearer(s, u.vm)))
  {
    hide DisksIn, DiskByLun, Swept, Without, Missing;
    var t := SweptMeans(s, 0, fault);
    if SweepStops(s, 0, fault, t) {
      var k: nat :| SweepStopsAt(s, 0, fault, t, k);
      assert Shown(s) == s.vm.value.drives;
    }
  }

  /** What nothing changes: names, and the connection of slots and drives, for a slot is cleared only without a drive. */
  predicate Stands(s: State, t: State) {
    && t.vmName == s.vmName && t.id == s.id && t.pooled == s.pooled && |t.slots| == |s.slots|
    && (forall k :: 0 <= k < |s.slots| && DiskAt(s.slots, k).None? ==> DiskAt(t.slots, k).None?)
    && (forall k :: 0 <= k < |s.slots| && DiskAt(s.slots, k).Some? && DiskAt(t.slots, k).None? ==> DiskByLun(Shown(t), k).None?)
    && (forall k :: 0 <= k < |s.slots| && DiskByLun(Shown(s), k).None? ==> DiskByLun(Shown(t), k).None?)
    && (s.vm.None? ==> t.vm.None?)
    && (t.finalizer ==> s.finalizer) && (t.named == s.named || (s.pooled && !t.named))
  }

  /** The disks that are the machine's, but in none of its slots. */
  function Apart(s: State): set<string> {
    s.owned - DisksIn(s.slots)
  }

  lemma FewerDrives(s: State, v: Option<VM>)
    requires Nearer(s, v)
    ensures s.vm.Some? && v.Some?
    ensures forall k :: DiskByLun(s.vm.value.drives, k).None? ==> DiskByLun(v.value.drives, k).None?
    ensures v.value.status == PowerOff && |v.value.drives| <= |s.vm.value.drives|
    ensures s.vm.value.status != Running ==> |v.value.drives| < |s.vm.value.drives|
  {
    hide Without, DiskByLun;
  }

  /** Slots as released, or as they were if the machine could not be written, and at most one thing done about a drive. */
  predicate Follows(s: State, t: State, u: State) {
    && ReleasedFrom(s, t) && (u.slots == t.slots || u.slots == s.slots)
    && u == s.(slots := u.slots, owned := t.owned, vm := u.vm)
  }

  lemma FollowsStands(s: State, t: State, u: State)
    requires WellFormed(s) && Follows(s, t, u) && (u.vm == s.vm || Nearer(s, u.vm))
    ensures Stands(s, u) && Apart(u) == Apart(s)
    ensures (HasPersistentDisks(u.slots) ==> HasPersistentDisks(s.slots)) && (Missing(u) ==> HasPersistentDisks(u.slots))
  {
    hide DisksIn, DiskByLun, DiskRemoved, Nearer;
    if u.vm != s.vm {
      FewerDrives(s, u.vm);
    }
    assert forall k :: DiskByLun(Shown(s), k).None? ==> DiskByLun(Shown(u), k).None?;
    assert u.owned - DisksIn(s.slots) == s.owned - DisksIn(s.slots);
    if k :| 0 <= k < |u.slots| && DiskAt(u.slots, k).Some? {
      assert DiskAt(s.slots, k).Some?;
    }
  }

  lemma {:induction false} FewerAttached(slots: seq<Slot>, drives: seq<Drive>, fewer: seq<Drive>)
    requires forall k :: DiskByLun(drives, k).None? ==> DiskByLun(fewer, k).None?
    ensures AttachedIn(slots, fewer) ==> AttachedIn(slots, drives)
  {
    hide DiskByLun;
  }

  lemma FollowsBlocks(s: State, t: State, u: State)
    requires WellFormed(s) && Follows(s, t, u) && (u.vm == s.vm || Nearer(s, u.vm))
    ensures (Attached(u) ==> Attached(s)) && (u.vm == s.vm ==> (Attached(u) <==> Attached(s)))
    ensures Missing(u) <==> Missing(s)
  {
    hide DisksIn, DiskByLun, DiskRemoved, Nearer, AttachedIn, MissingIn;
    ReleaseKeepsAttached(s, t);
    if u.vm != s.vm {
      FewerDrives(s, u.vm);
    }
    assert Shown(t) == Shown(s);
    FewerAttached(u.slots, Shown(s), Shown(u));
  }

  /** What a pass does to a machine that is being deleted. */
  predicate Progress(s: State, fault: Fault, t: State) {
    && Stands(s, t) && WellFormed(t) && Apart(t) == Apart(s)
    && (Blocked(s) <==> Blocked(t))
    && (t.finalizer ==> Rank(t) + (if fault.NoFault? && !Blocked(s) then 1 else 0) <= Rank(s))
  }

  lemma SweepProgress(s: State, fault: Fault)
    requires WellFormed(s) && s.finalizer && !fault.Early? && (s.vmName != "" || s.id != "") && HasPersistentDisks(s.slots)
    ensures Progress(s, fault, Passed(s, fault)) && Passed(s, fault).finalizer
    ensures s.vm.Some? ==> Passed(s, fault).vm.Some?
  {
    hide DisksIn, DiskByLun, Swept, Without, Nearer, Attached, HasPersistentDisks, ReleasedFrom, Stands, Missing, Apart;
    var u := Swept(s, 0, fault);
    SweepOutcome(s, fault);
    FollowsStands(s, u.(vm := s.vm), Passed(s, fault));
    FollowsBlocks(s, u.(vm := s.vm), Passed(s, fault));
    if u.vm != s.vm || Nearer(s, u.vm) {
      FewerDrives(s, u.vm);
    }
    NearerIsNotOther(s, u.vm);
  }

  lemma NearerIsNotOther(s: State, v: Option<VM>)
    ensures Nearer(s, v) ==> s.vm.Some? && s.vm.value.status != Other
  {
  }

  lemma NothingToTakeOff(s: State)
    ensures !HasPersistentDisks(s.slots) ==> !Attached(s) && !Missing(s)
  {
  }

  lemma PassProgress(s: State, fault: Fault)
    requires WellFormed(s)
    ensures Progress(s, fault, Passed(s, fault))
  {
    hide DisksIn, DiskByLun, Swept, Without, Attached, Missing;
    NothingToTakeOff(s);
    NothingToTakeOff(Passed(s, fault));
    if s.finalizer && !fault.Early? && (s.vmName != "" || s.id != "") && HasPersistentDisks(s.slots) {
      SweepProgress(s, fault);
    }
  }

  // ----- the whole deletion -------------------------------------------------------------------

  /** Those of the disks that are there all the time. */
  function Surviving(disks: set<string>, events: seq<Event>): set<string> {
    if events == [] then disks
    else
      var d := Surviving(disks, events[..|events| - 1]);
      match events[|events| - 1]
      case Pass(_) => d
      case Disks(existing) => d * existing
  }

  lemma DisksChange(s: State, existing: set<string>)
    requires WellFormed(s)
    ensures var t := Done(s, Disks(existing)); WellFormed(t) && Stands(s, t) && Rank(t) == Rank(s) && Apart(t) == Apart(s) * existing
  {
    hide DisksIn, DiskByLun;
  }

  /** A rank falls with every pass that is of use, and nothing makes it rise. */
  lemma {:induction false} RunSteps(s: State, events: seq<Event>)
    requires WellFormed(s)
    ensures var t := Run(s, events);
      && WellFormed(t) && Stands(s, t) && Apart(t) == Surviving(Apart(s), events)
      && (t.finalizer ==> Rank(t) + Useful(s, events) <= Rank(s))
  {
    hide DisksIn, DiskByLun, Swept, Without, Rank, Blocked, Stands, Passed, Apart;
    if events == [] {
      StandsItself(s);
    } else {
      var front := events[..|events| - 1];
      RunSteps(s, front);
      var t := Run(s, front);
      match events[|events| - 1]
      case Pass(fault) =>
        PassProgress(t, fault);
        StandsTogether(s, t, Passed(t, fault));
      case Disks(existing) =>
        DisksChange(t, existing);
        StandsTogether(s, t, Done(t, Disks(existing)));
    }
  }

  lemma StandsItself(s: State)
    ensures Stands(s, s)
  {
  }

  lemma StandsTogether(s: State, t: State, u: State)
    requires Stands(s, t) && Stands(t, u)
    ensures Stands(s, u) && (u.finalizer ==> t.finalizer)
  {
    hide DisksIn, DiskByLun;
  }

  /** Passes alone, with these faults. */
  function Passes(faults: seq<Fault>): seq<Event> {
    seq(|faults|, i requires 0 <= i < |faults| => Pass(faults[i]))
  }

  lemma PassesFront(faults: seq<Fault>)
    requires faults != []
    ensures Passes(faults)[..|faults| - 1] == Passes(faults[..|faults| - 1])
  {
  }

  /** Passes neither block a machine nor free it. */
  lemma {:induction false} PassesKeepBlocked(s: State, faults: seq<Fault>)
    requires WellFormed(s)
    ensures WellFormed(Run(s, Passes(faults))) && (Blocked(Run(s, Passes(faults))) <==> Blocked(s))
  {
    hide Blocked, Passed, Rank, Stands, Apart;
    if faults != [] {
      PassesFront(faults);
      PassesKeepBlocked(s, faults[..|faults| - 1]);
      PassProgress(Run(s, Passes(faults[..|faults| - 1])), faults[|faults| - 1]);
    }
  }

  lemma {:induction false} CleanPasses(s: State, n: nat) returns (faults: seq<Fault>)
    requires WellFormed(s) && !Blocked(s)
    ensures Useful(s, Passes(faults)) == n
  {
    hide Blocked, Run;
    faults := [];
    if n > 0 {
      var front := CleanPasses(s, n - 1);
      PassesKeepBlocked(s, front);
      faults := front + [NoFault];
      assert faults[..|front|] == front;
      PassesFront(faults);
    }
  }

  /**
   * Whatever fails and whatever becomes of the disks, the finalizer goes at
   * the latest with as many useful passes as the rank says. Passes alone bring
   * that about exactly when the machine is not blocked: its virtual machine is
   * not one that is neither running nor off with a disk to take off, and no
   * filled slot names a disk that is not there.
   */
  lemma {:induction false} DeletionEnds(s: State)
    requires WellFormed(s)
    ensures forall events :: Useful(s, events) >= Rank(s) ==> !Run(s, events).finalizer
    ensures (exists faults :: !Run(s, Passes(faults)).finalizer) <==> !Blocked(s)
  {
    hide Rank, Stands, Attached, Missing, Run, Useful, Stuck, Passes;
    forall events | Useful(s, events) >= Rank(s)
      ensures !Run(s, events).finalizer
    {
      RunSteps(s, events);
      RankOfPending(Run(s, events));
    }
    if !Blocked(s) {
      var clean := CleanPasses(s, Rank(s));
      assert !Run(s, Passes(clean)).finalizer;
    }
    if faults :| !Run(s, Passes(faults)).finalizer {
      PassesKeepBlocked(s, faults);
    }
  }

  lemma RankOfPending(s: State)
    ensures s.finalizer ==> Rank(s) > 0
  {
  }

  /**
   * How a machine gets blocked although every disk in its slots was there: a
   * pass releases a disk, the machine is not written, and the disk, which is
   * its no more, is deleted before the next pass.
   */
  lemma {:induction false} LostWriteBlocks(s: State, k: nat)
    requires WellFormed(s) && s.finalizer && (s.vmName != "" || s.id != "")
    requires DiskAt(s.slots, k).Some? && !Attached(s) && !Missing(s)
    ensures var d := DiskAt(s.slots, k).value; var t := Run(s, [Pass(AtEnd)]);
      && !Blocked(s) && d !in t.owned && t.slots == s.slots
      && Blocked(Run(s, [Pass(AtEnd)] + [Disks(s.disks - {d})]))
  {
    hide DisksIn, DiskByLun, Swept, AttachedIn, DiskAt;
    var d, t := DiskAt(s.slots, k).value, Run(s, [Pass(AtEnd)]);
    OneEvent(s, Pass(AtEnd), Disks(s.disks - {d}));
    InSlots(s, k);
    SweepOutcome(s, AtEnd);
    NotInDisks(Swept(s, 0, AtEnd).slots);
    MissingAt(Done(t, Disks(s.disks - {d})), k);
  }

  lemma {:induction false} OneEvent(s: State, a: Event, b: Event)
    ensures Run(s, [a]) == Done(s, a) && Run(s, [a] + [b]) == Done(Done(s, a), b)
  {
    hide Done;
    assert [a][..0] == [] && ([a] + [b])[..1] == [a];
  }

  lemma InSlots(s: State, k: nat)
    requires DiskAt(s.slots, k).Some?
    ensures k < |s.slots| && HasPersistentDisks(s.slots) && DiskAt(s.slots, k).value in DisksIn(s.slots)
  {
  }

  lemma NotInDisks(slots: seq<Slot>)
    ensures !HasPersistentDisks(slots) ==> DisksIn(slots) == {}
  {
  }

  /**
   * What deletion leaves: no virtual machine, no disks in slots or owned
   * through them, and no name in the pool. A machine that never got a name or
   * an id is let go at once, with whatever disks and name it has reserved.
   */
  lemma {:induction false} DeletionLeaves(s: State, events: seq<Event>)
    requires WellFormed(s) && s.finalizer && !Run(s, events).finalizer
    ensures var t := Run(s, events);
      if s.vmName == "" && s.id == "" then
        t == s.(finalizer := false, disks := t.disks, owned := Surviving(s.owned, events))
      else
        && t.vm.None? && !HasPersistentDisks(t.slots)
        && t.owned == Surviving(Apart(s), events) && t.named == (s.named && !s.pooled)
  {
    hide DisksIn, DiskByLun, Swept, Rank, Stuck, Attached, Missing;
    var front, e := events[..|events| - 1], events[|events| - 1];
    var r := Run(s, front);
    if s.vmName == "" && s.id == "" {
      UnnamedRun(s, events);
    } else if !r.finalizer {
      DeletionLeaves(s, front);
    } else {
      RunSteps(s, front);
      if HasPersistentDisks(r.slots) && e.Pass? && !e.fault.Early? {
        SweepProgress(r, e.fault);
      }
      NotInDisks(r.slots);
    }
  }

  lemma {:induction false} UnnamedRun(s: State, events: seq<Event>)
    requires s.vmName == "" && s.id == ""
    ensures var t := Run(s, events);
      t == s.(finalizer := t.finalizer, disks := t.disks, owned := Surviving(s.owned, events))
  {
    hide Swept;
    if events != [] {
      UnnamedRun(s, events[..|events| - 1]);
    }
  }

  /** When the virtual machine goes, no drive is left for any slot that held a disk when the deletion began. */
  lemma {:induction false} DisksComeOffFirst(s: State, events: seq<Event>, last: Event, k: nat)
    requires WellFormed(s) && Run(s, events).vm.Some? && Done(Run(s, events), last).vm.None? && DiskAt(s.slots, k).Some?
    ensures DiskByLun(Run(s, events).vm.value.drives, k).None?
  {
    hide DisksIn, DiskByLun, Swept, Rank, Stuck, Attached, Missing;
    var t := Run(s, events);
    RunSteps(s, events);
    if t.finalizer && last.Pass? && !last.fault.Early? && (t.vmName != "" || t.id != "") && HasPersistentDisks(t.slots) {
      SweepProgress(t, last.fault);
    }
    assert DiskAt(t.slots, k).None?;
  }
}
