// The name pool over whole runs: machines are created, take a name, are
// deleted and give it back, in any interleaving. Every pass works on a copy of
// the pool status and its update is accepted only if the copy is current.
module NamePoolRuns {
  import opened NameRanges
  import opened NamePool
  import opened NamePoolProperties

  datatype Phase = Alive | Deleting | Released | Gone

  /** A machine: whether it asks the pool for its name, the name in its spec, and whether the pool gave it. */
  datatype State = State(pooled: bool, vmName: string, fromPool: bool, phase: Phase)

  /**
   * Where a machine's reconciler stands: `Ready` holds the listed machines and
   * the version of the pool copy it works on, `Reserved` a name it has been given.
   */
  datatype Work = Idle | Ready(list: seq<Machine>, version: nat) | Reserved(name: string) | Releasing(list: seq<Machine>, version: nat)

  /** The pool status in all its versions, the last one current, and the machines. */
  datatype World = World(machines: map<string, State>, work: map<string, Work>, hist: seq<Owners>)

  function Current(w: World): Owners
    requires w.hist != []
  {
    w.hist[|w.hist| - 1]
  }

  datatype Step =
    | Create(m: string, pooled: bool, vmName: string)
    | SetOwnName(m: string)                                             // a machine without a pool names its VM
    | Start(m: string, list: seq<Machine>, version: nat)                // list the machines, read the pool
    | Commit(m: string, ranges: seq<NameRange>, query: string -> Lookup) // generateVMName updates the pool
    | Assign(m: string)                                                 // the name goes into the machine's spec
    | Drop(m: string)                                                   // the pass fails, at any point
    | MarkDeleted(m: string)
    | StartRelease(m: string, list: seq<Machine>, version: nat)
    | CommitRelease(m: string)                                          // removeVMNameInPool updates the pool
    | Finish(m: string)                                                 // the finalizer goes

  /** The list shows every machine that is there, each with the name it has. */
  predicate IsListing(list: seq<Machine>, machines: map<string, State>) {
    && (forall i :: 0 <= i < |list| ==> list[i].name in machines && list[i].vmName == machines[list[i].name].vmName)
    && (forall x :: x in machines && machines[x].phase != Gone ==> x in Names(list))
  }

  predicate Holds(owners: Owners, y: string, x: string) {
    y in owners && owners[y] == x
  }

  predicate Enabled(w: World, s: Step) {
    && w.hist != []
    && (!s.Create? ==> s.m in w.machines && s.m in w.work)
    && match s
       case Create(m, pooled, vmName) => m != "" && m !in w.machines
       case SetOwnName(m) => !w.machines[m].pooled && w.machines[m].vmName == "" && w.machines[m].phase == Alive
       case Start(m, list, version) =>
         && var x := w.machines[m];
         && w.work[m] == Idle && x.phase == Alive && x.pooled && (x.vmName == "" || x.fromPool)
         && version < |w.hist| && IsListing(list, w.machines)
       case Commit(m, ranges, query) =>
         && w.work[m].Ready? && w.work[m].version < |w.hist|
         && (HasName(w.hist[w.work[m].version], m)
             || (w.work[m].version == |w.hist| - 1 && AllTerminate(ranges) && NoEmptyName(ranges)
                 && !Generated(ranges, Current(w), m, w.work[m].list, query).failed))
       case Assign(m) => w.work[m].Reserved?
       case Drop(m) => true
       case MarkDeleted(m) => w.machines[m].phase == Alive
       case StartRelease(m, list, version) =>
         && w.work[m] == Idle && w.machines[m].phase in {Deleting, Released} && w.machines[m].pooled && w.machines[m].vmName != ""
         && version < |w.hist| && IsListing(list, w.machines)
       case CommitRelease(m) => w.work[m].Releasing? && w.work[m].version == |w.hist| - 1
       case Finish(m) =>
         && w.work[m] == Idle
         && (w.machines[m].phase == Released
             || (w.machines[m].phase == Deleting && (w.machines[m].vmName == "" || !w.machines[m].pooled)))
  }

  ghost function After(w: World, s: Step): World
    requires Enabled(w, s)
  {
    match s
    case Create(m, pooled, vmName) =>
      w.(machines := w.machines[m := State(pooled, vmName, false, Alive)], work := w.work[m := Idle])
    case SetOwnName(m) => w.(machines := w.machines[m := w.machines[m].(vmName := m)])
    case Start(m, list, version) => w.(work := w.work[m := Ready(list, version)])
    case Commit(m, ranges, query) =>
      var copy := w.hist[w.work[m].version];
      if HasName(copy, m) then
        var y :| Holds(copy, y, m);
        w.(work := w.work[m := Reserved(y)])
      else
        var g := Generated(ranges, copy, m, w.work[m].list, query);
        World(w.machines, w.work[m := if g.vmName == "" then Idle else Reserved(g.vmName)], w.hist + [g.owners])
    case Assign(m) =>
      var x := w.machines[m].(vmName := w.work[m].name, fromPool := true);
      w.(machines := w.machines[m := x], work := w.work[m := Idle])
    case Drop(m) => w.(work := w.work[m := Idle])
    case MarkDeleted(m) => w.(machines := w.machines[m := w.machines[m].(phase := Deleting)])
    case StartRelease(m, list, version) => w.(work := w.work[m := Releasing(list, version)])
    case CommitRelease(m) =>
      World(w.machines[m := w.machines[m].(phase := Released)], w.work[m := Idle],
            w.hist + [Kept(Current(w), m, Names(w.work[m].list))])
    case Finish(m) => w.(machines := w.machines[m := w.machines[m].(phase := Gone)])
  }

  function Init(): World {
    World(map[], map[], [map[]])
  }

  /** A run: any sequence of steps from the empty world. */
  ghost predicate IsRun(run: seq<World>) {
    && run != [] && run[0] == Init()
    && forall i :: 0 <= i < |run| - 1 ==> IsStep(run[i], run[i + 1])
  }

  ghost predicate IsStep(w: World, u: World) {
    exists s :: Enabled(w, s) && u == After(w, s)
  }

  // ----- the invariant ------------------------------------------------------------------------

  predicate Unreleased(x: State) {
    x.phase == Alive || x.phase == Deleting
  }

  /** What an entry of any version says about its owner. */
  predicate Linked(now: Owners, machines: map<string, State>, y: string, x: string) {
    && y != "" && x != "" && x in machines
    && (machines[x].vmName != "" ==> machines[x].vmName == y)
    && (machines[x].vmName == "" ==> machines[x].pooled)
    && (Unreleased(machines[x]) ==> Holds(now, y, x))
  }

  /** Entries are linked and no machine owns two names. */
  predicate VersionOk(now: Owners, machines: map<string, State>, o: Owners) {
    && (forall y :: y in o ==> Linked(now, machines, y, o[y]))
    && (forall y, z :: y in o && z in o && o[y] == o[z] ==> y == z)
  }

  /** Names on the list are still those of the machines, and owners that are not gone are on it. */
  predicate ListOk(machines: map<string, State>, list: seq<Machine>, o: Owners) {
    && (forall i :: 0 <= i < |list| ==>
          && list[i].name != "" && list[i].name in machines
          && (list[i].vmName != "" ==> machines[list[i].name].vmName == list[i].vmName))
    && (forall y :: y in o && o[y] in machines && machines[o[y]].phase != Gone ==> o[y] in Names(list))
  }

  predicate WorkOk(w: World, m: string)
    requires w.hist != [] && m in w.machines && m in w.work
  {
    var x := w.machines[m];
    match w.work[m]
    case Idle => true
    case Ready(list, v) =>
      x.pooled && (x.vmName == "" || x.fromPool) && Unreleased(x) && v < |w.hist| && ListOk(w.machines, list, w.hist[v])
    case Reserved(y) => x.pooled && (x.vmName == "" || x.vmName == y) && Unreleased(x) && y != "" && Holds(Current(w), y, m)
    case Releasing(list, v) =>
      x.phase in {Deleting, Released} && x.vmName != "" && v < |w.hist| && ListOk(w.machines, list, w.hist[v])
  }

  /** A name given by the pool is owned until the machine has released it. */
  predicate MachineOk(now: Owners, machines: map<string, State>, m: string)
    requires m in machines
  {
    && m != ""
    && (machines[m].fromPool ==> machines[m].pooled && machines[m].vmName != "")
    && (machines[m].fromPool && Unreleased(machines[m]) ==> Holds(now, machines[m].vmName, m))
  }

  predicate Inv(w: World) {
    && w.hist != [] && w.machines.Keys == w.work.Keys
    && (forall v :: 0 <= v < |w.hist| ==> VersionOk(Current(w), w.machines, w.hist[v]))
    && (forall m :: m in w.machines ==> MachineOk(Current(w), w.machines, m))
    && (forall m :: m in w.machines ==> WorkOk(w, m))
  }

  // ----- every step keeps it ------------------------------------------------------------------

  /** What one pass of generateVMName adds: entries of listed machines under their own names, and one for `me`. */
  predicate Grows(o: Owners, o': Owners, list: seq<Machine>, me: string, picked: string) {
    && (forall y :: y in o ==> Holds(o', y, o[y]))
    && (forall y :: y in o' && y !in o ==> (y == picked && y != "" && o'[y] == me) || Listed(list, y, o'[y]))
    && (picked != "" ==> picked !in o && Holds(o', picked, me))
  }

  predicate Listed(list: seq<Machine>, y: string, x: string) {
    exists i :: 0 <= i < |list| && list[i].name == x && list[i].vmName == y && y != ""
  }

  lemma GeneratedGrows(ranges: seq<NameRange>, o: Owners, me: string, list: seq<Machine>, query: string -> Lookup)
    requires me != "" && AllNamed(list) && AllTerminate(ranges) && NoEmptyName(ranges)
    requires forall y :: y in o ==> o[y] != ""
    ensures var s := Generated(ranges, o, me, list, query);
      !s.failed ==> Grows(o, s.owners, list, me, s.vmName)
  {
    hide Scanned, Adopted, Covered, Candidates, Terminates, CandidatesTo, CountOwned, NoEmptyName;
    var a, names := Adopted(ranges, o, list, |list|), AllCandidates(ranges);
    var s := Generated(ranges, o, me, list, query);
    CandidatesNamed(ranges, |ranges|);
    ScanMeans(a, me, names, query);
    HandedOutIsFree(ranges, o, me, list, query);
    forall y
      ensures y in o ==> Holds(a, y, o[y])
      ensures y in a && y !in o ==> Listed(list, y, a[y])
    {
      AdoptedMeans(ranges, o, list, |list|, y);
    }
  }

  /** `w` with a changed machine, a changed worker and, unless the pool stays as it is, a new version. */
  function Changed(w: World, m: string, x: State, k: Work, added: seq<Owners>): World {
    World(w.machines[m := x], w.work[m := k], w.hist + added)
  }

  /** A machine keeps the name it has, does not come back, and keeps its place in the pool. */
  predicate Follows(w: World, m: string, x: State) {
    m in w.machines ==>
      && (w.machines[m].vmName != "" ==> x.vmName == w.machines[m].vmName)
      && (x.phase != Gone ==> w.machines[m].phase != Gone)
  }

  /** The new version keeps the names of all unreleased machines but `m`. */
  predicate KeepsOthers(w: World, m: string, now: Owners)
    requires w.hist != []
  {
    forall y :: y in Current(w) && Current(w)[y] in w.machines && Unreleased(w.machines[Current(w)[y]]) && Current(w)[y] != m
      ==> Holds(now, y, Current(w)[y])
  }

  lemma {:induction false} OldVersionKept(w: World, m: string, x: State, now: Owners, v: nat)
    requires Inv(w) && v < |w.hist| && Follows(w, m, x) && KeepsOthers(w, m, now)
    requires forall y :: Holds(w.hist[v], y, m) ==> Linked(now, w.machines[m := x], y, m)
    ensures VersionOk(now, w.machines[m := x], w.hist[v])
  {
    hide WorkOk, MachineOk;
    var o := w.hist[v];
    assert VersionOk(Current(w), w.machines, o);
    forall y | y in o
      ensures Linked(now, w.machines[m := x], y, o[y])
    {
      assert Linked(Current(w), w.machines, y, o[y]);
      if o[y] == m {
        assert Holds(o, y, m);
      }
    }
  }

  lemma {:induction false} ListKept(w: World, m: string, x: State, list: seq<Machine>, v: nat)
    requires Inv(w) && v < |w.hist| && Follows(w, m, x) && ListOk(w.machines, list, w.hist[v])
    ensures ListOk(w.machines[m := x], list, w.hist[v])
  {
    hide WorkOk, MachineOk, Names;
    assert VersionOk(Current(w), w.machines, w.hist[v]);
    forall y | y in w.hist[v]
      ensures w.hist[v][y] in w.machines
    {
      assert Linked(Current(w), w.machines, y, w.hist[v][y]);
    }
  }

  lemma {:induction false} OtherWorkKept(w: World, m: string, x: State, k: Work, added: seq<Owners>, n: string)
    requires Inv(w) && Follows(w, m, x) && n in w.machines && n != m
    requires |added| <= 1 && (added != [] ==> KeepsOthers(w, m, added[0]))
    ensures WorkOk(Changed(w, m, x, k, added), n)
  {
    hide VersionOk, MachineOk, Names, ListOk;
    assert WorkOk(w, n);
    match w.work[n]
    case Ready(list, v) => ListKept(w, m, x, list, v);
    case Releasing(list, v) => ListKept(w, m, x, list, v);
    case _ =>
  }

  lemma {:induction false} ChangeKeepsInv(w: World, m: string, x: State, k: Work, added: seq<Owners>)
    requires Inv(w) && Follows(w, m, x) && |added| <= 1
    requires var u := Changed(w, m, x, k, added);
      && (added != [] ==> KeepsOthers(w, m, added[0]) && VersionOk(added[0], u.machines, added[0]))
      && (forall v, y :: 0 <= v < |w.hist| && Holds(w.hist[v], y, m) ==> Linked(Current(u), u.machines, y, m))
      && MachineOk(Current(u), u.machines, m) && WorkOk(u, m)
    ensures Inv(Changed(w, m, x, k, added))
  {
    hide VersionOk, WorkOk, Linked, ListOk;
    var u := Changed(w, m, x, k, added);
    if added == [] {
      assert KeepsOthers(w, m, Current(w));
    }
    forall v | 0 <= v < |u.hist|
      ensures VersionOk(Current(u), u.machines, u.hist[v])
    {
      if v < |w.hist| {
        OldVersionKept(w, m, x, Current(u), v);
      }
    }
    forall n | n in u.machines
      ensures WorkOk(u, n) && MachineOk(Current(u), u.machines, n)
    {
      if n != m {
        OtherWorkKept(w, m, x, k, added, n);
        assert MachineOk(Current(w), w.machines, n);
      }
    }
  }

  lemma {:induction false} StepChangesMachine(w: World, s: Step)
    requires Inv(w) && Enabled(w, s)
    requires s.Create? || s.SetOwnName? || s.Assign? || s.MarkDeleted? || s.Finish?
    ensures Inv(After(w, s))
  {
    hide IsListing, ListOk;
    var u := After(w, s);
    var x, k := u.machines[s.m], u.work[s.m];
    assert u == Changed(w, s.m, x, k, []) by {
      assert w.hist + [] == w.hist;
      assert w.work[s.m := k] == u.work;
      assert w.machines[s.m := x] == u.machines;
    }
    if s.m in w.machines {
      assert WorkOk(w, s.m) && MachineOk(Current(w), w.machines, s.m);
      match w.work[s.m]
      case Ready(list, v) => ListKept(w, s.m, x, list, v);
      case Releasing(list, v) => ListKept(w, s.m, x, list, v);
      case _ =>
    }
    forall v, y | 0 <= v < |w.hist| && Holds(w.hist[v], y, s.m)
      ensures Linked(Current(u), u.machines, y, s.m)
    {
      assert VersionOk(Current(w), w.machines, w.hist[v]) && VersionOk(Current(w), w.machines, Current(w));
      assert Linked(Current(w), w.machines, y, s.m);
    }
    ChangeKeepsInv(w, s.m, x, k, []);
  }

  /** A listing taken now is good for every version there is. */
  lemma {:induction false} FreshList(w: World, list: seq<Machine>, v: nat)
    requires Inv(w) && v < |w.hist| && IsListing(list, w.machines)
    ensures ListOk(w.machines, list, w.hist[v])
  {
    hide WorkOk, Names;
    forall i | 0 <= i < |list|
      ensures list[i].name != ""
    {
      assert MachineOk(Current(w), w.machines, list[i].name);
    }
  }

  lemma {:induction false} StepChangesWork(w: World, s: Step)
    requires Inv(w) && Enabled(w, s)
    requires s.Start? || s.Drop? || s.StartRelease?
    ensures Inv(After(w, s))
  {
    hide IsListing, ListOk, VersionOk;
    var u := After(w, s);
    var x, k := u.machines[s.m], u.work[s.m];
    assert u == Changed(w, s.m, x, k, []) by {
      assert w.hist + [] == w.hist && w.machines[s.m := x] == u.machines;
    }
    assert WorkOk(w, s.m) && MachineOk(Current(w), w.machines, s.m);
    match s {
      case Start(m, list, v) => FreshList(w, list, v);
      case StartRelease(m, list, v) => FreshList(w, list, v);
      case _ =>
    }
    forall v, y | 0 <= v < |w.hist| && Holds(w.hist[v], y, s.m)
      ensures Linked(Current(u), u.machines, y, s.m)
    {
      VersionLinks(w, v, y);
    }
    ChangeKeepsInv(w, s.m, x, k, []);
  }

  lemma VersionLinks(w: World, v: nat, y: string)
    requires Inv(w) && v < |w.hist| && y in w.hist[v]
    ensures Linked(Current(w), w.machines, y, w.hist[v][y])
  {
    assert VersionOk(Current(w), w.machines, w.hist[v]);
  }

  /** A reconciler that finds its machine in some version of the pool finds the name the machine owns now. */
  lemma {:induction false} StepFindsName(w: World, s: Step)
    requires Inv(w) && Enabled(w, s) && s.Commit? && HasName(w.hist[w.work[s.m].version], s.m)
    ensures Inv(After(w, s))
    ensures Holds(Current(w), After(w, s).work[s.m].name, s.m)
  {
    hide IsListing, ListOk, VersionOk;
    var u := After(w, s);
    var x, k := u.machines[s.m], u.work[s.m];
    assert u == Changed(w, s.m, x, k, []) by {
      assert w.hist + [] == w.hist && w.machines[s.m := x] == u.machines;
    }
    assert WorkOk(w, s.m) && MachineOk(Current(w), w.machines, s.m);
    VersionLinks(w, w.work[s.m].version, k.name);
    forall v, y | 0 <= v < |w.hist| && Holds(w.hist[v], y, s.m)
      ensures Linked(Current(u), u.machines, y, s.m)
    {
      VersionLinks(w, v, y);
    }
    ChangeKeepsInv(w, s.m, x, k, []);
  }

  lemma {:induction false} StepTakesName(w: World, s: Step)
    requires Inv(w) && Enabled(w, s) && s.Commit? && !HasName(w.hist[w.work[s.m].version], s.m)
    ensures Inv(After(w, s))
  {
    hide IsListing, ListOk, VersionOk, Linked, Grows, KeepsOthers, Generated, AllTerminate, NoEmptyName;
    var m, u, o := s.m, After(w, s), Current(w);
    var x, k, g := w.machines[m], u.work[m], Generated(s.ranges, o, m, w.work[m].list, s.query);
    assert u == Changed(w, m, x, k, [g.owners]) by {
      assert w.machines[m := x] == w.machines;
    }
    assert WorkOk(w, m) && MachineOk(o, w.machines, m);
    var list := w.work[m].list;
    NamesThere(w, list);
    GeneratedGrows(s.ranges, o, m, list, s.query);
    GrowthOk(w, m, list, g.owners, g.vmName);
    ChangeKeepsInv(w, m, x, k, [g.owners]);
  }

  lemma NamesThere(w: World, list: seq<Machine>)
    requires Inv(w) && ListOk(w.machines, list, Current(w))
    ensures AllNamed(list)
    ensures forall y :: y in Current(w) ==> Current(w)[y] != ""
  {
    hide WorkOk, MachineOk;
    forall y | y in Current(w)
      ensures Current(w)[y] != ""
    {
      VersionLinks(w, |w.hist| - 1, y);
    }
  }

  /** Growth by names that listed machines have, and by one for a machine without a name, keeps the entries in order. */
  lemma {:induction false} GrowthOk(w: World, m: string, list: seq<Machine>, o': Owners, picked: string)
    requires Inv(w) && m in w.machines && ListOk(w.machines, list, Current(w)) && Grows(Current(w), o', list, m, picked)
    requires !HasName(Current(w), m) && w.machines[m].pooled && Unreleased(w.machines[m])
    requires w.machines[m].vmName == "" || w.machines[m].fromPool
    ensures KeepsOthers(w, m, o') && VersionOk(o', w.machines, o') && w.machines[m].vmName == ""
    ensures picked != "" ==> Holds(o', picked, m)
    ensures forall v, y :: 0 <= v < |w.hist| ==> !Holds(w.hist[v], y, m)
  {
    hide WorkOk;
    var o := Current(w);
    assert MachineOk(o, w.machines, m);
    forall y | y in o'
      ensures Linked(o', w.machines, y, o'[y])
      ensures y !in o ==> (y == picked && o'[y] == m) || (o'[y] in w.machines && w.machines[o'[y]].vmName == y)
    {
      if y in o {
        VersionLinks(w, |w.hist| - 1, y);
      } else if Listed(list, y, o'[y]) {
        var i :| 0 <= i < |list| && list[i].name == o'[y] && list[i].vmName == y && y != "";
      }
    }
    forall y, z | y in o' && z in o' && o'[y] == o'[z]
      ensures y == z
    {
      assert VersionOk(o, w.machines, o);
    }
    forall v, y | 0 <= v < |w.hist|
      ensures !Holds(w.hist[v], y, m)
    {
      if Holds(w.hist[v], y, m) {
        VersionLinks(w, v, y);
        assert false;
      }
    }
  }

  lemma {:induction false} StepReleases(w: World, s: Step)
    requires Inv(w) && Enabled(w, s) && s.CommitRelease?
    ensures Inv(After(w, s))
  {
    hide IsListing, Names;
    var m, u, o := s.m, After(w, s), Current(w);
    var list, kept := w.work[m].list, Kept(o, m, Names(w.work[m].list));
    var x := u.machines[m];
    assert u == Changed(w, m, x, Idle, [kept]);
    assert WorkOk(w, m) && MachineOk(o, w.machines, m);
    forall y | y in o
      ensures Linked(o, w.machines, y, o[y])
    {
      VersionLinks(w, |w.hist| - 1, y);
    }
    forall y | y in kept
      ensures Linked(kept, u.machines, y, kept[y])
    {
      assert Holds(o, y, kept[y]);
    }
    assert VersionOk(o, w.machines, o);
    forall v, y | 0 <= v < |w.hist| && Holds(w.hist[v], y, m)
      ensures Linked(kept, u.machines, y, m)
    {
      VersionLinks(w, v, y);
    }
    ChangeKeepsInv(w, m, x, Idle, [kept]);
  }

  lemma {:induction false} StepKeepsInv(w: World, s: Step)
    requires Inv(w) && Enabled(w, s)
    ensures Inv(After(w, s))
  {
    hide Inv, After;
    match s
    case Commit(m, _, _) =>
      if HasName(w.hist[w.work[m].version], m) {
        StepFindsName(w, s);
      } else {
        StepTakesName(w, s);
      }
    case CommitRelease(_) => StepReleases(w, s);
    case Start(_, _, _) => StepChangesWork(w, s);
    case Drop(_) => StepChangesWork(w, s);
    case StartRelease(_, _, _) => StepChangesWork(w, s);
    case _ => StepChangesMachine(w, s);
  }

  lemma {:induction false} RunKeepsInv(run: seq<World>, i: nat)
    requires IsRun(run) && i < |run|
    ensures Inv(run[i])
  {
    hide Enabled, After;
    if i > 0 {
      RunKeepsInv(run, i - 1);
      assert IsStep(run[i - 1], run[i - 1 + 1]);
      var s :| Enabled(run[i - 1], s) && run[i] == After(run[i - 1], s);
      StepKeepsInv(run[i - 1], s);
    }
  }

  // ----- what holds in every run --------------------------------------------------------------

  /** The pool gave the machine its name and has not got it back. */
  predicate HasPoolName(w: World, m: string) {
    m in w.machines && w.machines[m].fromPool && Unreleased(w.machines[m])
  }

  /**
   * In every state of every run: each machine owns at most one name of the
   * pool; a name given by the pool is owned by its machine until the release;
   * and no two machines have the same name from the pool.
   */
  lemma NamesAreSafe(run: seq<World>, i: nat)
    requires IsRun(run) && i < |run|
    ensures var w := run[i];
      && w.hist != []
      && (forall y, z :: y in Current(w) && z in Current(w) && Current(w)[y] == Current(w)[z] ==> y == z)
      && (forall m :: HasPoolName(w, m) ==> Holds(Current(w), w.machines[m].vmName, m))
      && (forall m, n :: HasPoolName(w, m) && HasPoolName(w, n) && w.machines[m].vmName == w.machines[n].vmName ==> m == n)
  {
    hide WorkOk, Linked;
    var w := run[i];
    RunKeepsInv(run, i);
    assert VersionOk(Current(w), w.machines, Current(w));
    forall m | HasPoolName(w, m)
      ensures Holds(Current(w), w.machines[m].vmName, m)
    {
      assert MachineOk(Current(w), w.machines, m);
    }
  }

  /**
   * The early return of generateVMName takes the first entry of the machine
   * that map iteration meets. Whichever entry of whichever version that is,
   * however old, it is the one name the machine owns now.
   */
  lemma EarlyReturnIsDeterministic(run: seq<World>, i: nat, m: string, v: nat, y: string, z: string)
    requires IsRun(run) && i < |run| && v < |run[i].hist| && m in run[i].machines && Unreleased(run[i].machines[m])
    requires Holds(run[i].hist[v], y, m)
    ensures Holds(Current(run[i]), y, m)
    ensures Holds(Current(run[i]), z, m) ==> z == y
  {
    hide WorkOk;
    var w := run[i];
    RunKeepsInv(run, i);
    VersionLinks(w, v, y);
    assert VersionOk(Current(w), w.machines, Current(w));
  }
}
