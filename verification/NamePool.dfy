// generateVMName and removeVMNameInPool: one pass over a copy of a name
// pool's status. Whether the copy is then accepted is the subject of NamePoolRuns.
module NamePool {
  import opened NameRanges
  import opened Odometer

  /** What the pool code reads of a listed machine. */
  datatype Machine = Machine(name: string, vmName: string)

  datatype Counts = Counts(total: int, free: int, used: int)

  /** What SCVMM says about a name: the call failed, or that many virtual machines have it. */
  datatype Lookup = Failed | Ids(count: nat)

  datatype Outcome = Existing(name: string) | NewName(name: string) | AllClaimed | QueryFailed

  type Owners = map<string, string>

  /** Reading a map: a missing key reads as the empty string. */
  function Owner(owners: Owners, name: string): string {
    if name in owners then owners[name] else ""
  }

  // ----- adopting the names machines already have ---------------------------------------------

  predicate Covers(r: NameRange, name: string) {
    (r.end == "" && r.start == name) || (!Less(name, r.start) && !Less(r.end, name))
  }

  predicate Covered(ranges: seq<NameRange>, name: string) {
    exists r :: r in ranges && Covers(r, name)
  }

  predicate Adopts(ranges: seq<NameRange>, owners: Owners, vm: Machine) {
    vm.vmName != "" && Owner(owners, vm.vmName) == "" && Covered(ranges, vm.vmName)
  }

  function Adopted(ranges: seq<NameRange>, owners: Owners, list: seq<Machine>, n: nat): Owners
    requires n <= |list|
  {
    if n == 0 then owners
    else
      var o := Adopted(ranges, owners, list, n - 1);
      if Adopts(ranges, o, list[n - 1]) then o[list[n - 1].vmName := list[n - 1].name] else o
  }

  // ----- going through the candidates ---------------------------------------------------------

  /** The names the loop over one range looks at. */
  function Candidates(r: NameRange): seq<string>
    requires Terminates(r)
  {
    seq(Meets(r), k requires 0 <= k => Nth(r.start, k) + r.postfix)
  }

  predicate AllTerminate(ranges: seq<NameRange>) {
    forall r :: r in ranges ==> Terminates(r)
  }

  function CandidatesTo(ranges: seq<NameRange>, n: nat): seq<string>
    requires n <= |ranges| && AllTerminate(ranges)
  {
    if n == 0 then [] else CandidatesTo(ranges, n - 1) + Candidates(ranges[n - 1])
  }

  function AllCandidates(ranges: seq<NameRange>): seq<string>
    requires AllTerminate(ranges)
  {
    CandidatesTo(ranges, |ranges|)
  }

  /** The scan's variables; `failed` once a question to SCVMM has failed, which ends the scan. */
  datatype Scan = Scan(owners: Owners, vmName: string, counts: Counts, failed: bool)

  predicate Asks(s: Scan, c: string) {
    s.vmName == "" && Owner(s.owners, c) == ""
  }

  function Counted(counts: Counts, used: bool): Counts {
    Counts(counts.total + 1, counts.free + (if used then 0 else 1), counts.used + (if used then 1 else 0))
  }

  function Looked(s: Scan, me: string, c: string, answer: Lookup): Scan {
    var t := if Asks(s, c) && answer == Ids(0) then s.(owners := s.owners[c := me], vmName := c) else s;
    t.(counts := Counted(t.counts, Owner(t.owners, c) != ""))
  }

  function Scanned(owners: Owners, me: string, names: seq<string>, query: string -> Lookup): Scan {
    if names == [] then Scan(owners, "", Counts(0, 0, 0), false)
    else
      var s, c := Scanned(owners, me, names[..|names| - 1], query), names[|names| - 1];
      if s.failed then s
      else if Asks(s, c) && query(c).Failed? then s.(failed := true)
      else Looked(s, me, c, query(c))
  }

  // ----- the pass over a copy of the status ---------------------------------------------------

  function Generated(ranges: seq<NameRange>, owners: Owners, me: string, list: seq<Machine>, query: string -> Lookup): Scan
    requires AllTerminate(ranges)
  {
    Scanned(Adopted(ranges, owners, list, |list|), me, AllCandidates(ranges), query)
  }

  predicate HasName(owners: Owners, me: string) {
    exists y :: y in owners && owners[y] == me
  }

  function Kept(owners: Owners, me: string, names: set<string>): Owners {
    map y | y in owners && owners[y] in names && owners[y] != me :: owners[y]
  }

  /** The in-memory copy of a pool's status. */
  class PoolCopy {
    var owners: Owners
    var counts: Counts
    var hasCounts: bool

    constructor (owners: Owners, counts: Counts, hasCounts: bool)
      ensures this.owners == owners && this.counts == counts && this.hasCounts == hasCounts
    {
      this.owners, this.counts, this.hasCounts := owners, counts, hasCounts;
    }

    /** Records the names that listed machines have already, where they fall in a range. */
    method AdoptNames(ranges: seq<NameRange>, list: seq<Machine>)
      modifies this`owners
      ensures owners == Adopted(ranges, old(owners), list, |list|)
    {
      for i := 0 to |list|
        invariant owners == Adopted(ranges, old(owners), list, i)
      {
        var vm, before := list[i], owners;
        if vm.vmName != "" && Owner(owners, vm.vmName) == "" {
          for j := 0 to |ranges|
            invariant owners == before
            invariant forall r :: r in ranges[..j] ==> !Covers(r, vm.vmName)
          {
            var r := ranges[j];
            if (r.end == "" && r.start == vm.vmName) || (!Less(vm.vmName, r.start) && !Less(r.end, vm.vmName)) {
              assert r in ranges && Covers(r, vm.vmName);
              owners := owners[vm.vmName := vm.name];
              break;
            }
          }
        }
      }
    }

    /** One turn of the candidate loop; `picked` is the name found so far. */
    method Look(me: string, c: string, query: string -> Lookup, picked: string, ghost s: Scan) returns (name: string, ok: bool)
      requires s == Scan(owners, picked, counts, false)
      modifies this
      ensures ok <==> !(Asks(s, c) && query(c).Failed?)
      ensures ok ==> Looked(s, me, c, query(c)) == Scan(owners, name, counts, false)
      ensures !ok ==> owners == old(owners)
      ensures hasCounts == old(hasCounts)
    {
      name, ok := picked, true;
      if picked == "" && Owner(owners, c) == "" {
        match query(c)
        case Failed =>
          ok := false;
          return;
        case Ids(n) =>
          if n == 0 {
            name := c;
            owners := owners[c := me];
          }
      }
      if Owner(owners, c) == "" {
        counts := Counts(counts.total + 1, counts.free + 1, counts.used);
      } else {
        counts := Counts(counts.total + 1, counts.free, counts.used + 1);
      }
    }

    /** The loop over one range, which goes on until the odometer passes its end. */
    method ScanRange(me: string, r: NameRange, query: string -> Lookup, picked: string,
                     ghost adopted: Owners, ghost before: seq<string>)
      returns (name: string, ok: bool)
      requires Terminates(r)
      requires Scanned(adopted, me, before, query) == Scan(owners, picked, counts, false)
      modifies this
      ensures hasCounts == old(hasCounts)
      ensures ok ==> Scanned(adopted, me, before + Candidates(r), query) == Scan(owners, name, counts, false)
      ensures !ok ==> Scanned(adopted, me, before + Candidates(r), query).failed
    {
      hide *;
      var c, k, more := r.start, 0, true;
      name, ok := picked, true;
      ghost var all := before + Candidates(r);
      RangeStarts(before, r);
      while more
        invariant 0 <= k <= Meets(r) && c == Nth(r.start, k)
        invariant more <==> k < Meets(r)
        invariant hasCounts == old(hasCounts)
        invariant Scanned(adopted, me, all[..|before| + k], query) == Scan(owners, name, counts, false)
        decreases Meets(r) - k
      {
        var candidate := c + r.postfix;
        ScanStep(adopted, me, all, query, |before| + k);
        RangeStep(before, r, k);
        name, ok := Look(me, candidate, query, name, Scan(owners, name, counts, false));
        if !ok {
          FailedStays(adopted, me, all, query, |before| + k + 1);
          return;
        }
        c := IncrementString(c);
        k := k + 1;
        more := !(r.end == "" || Less(r.end, c));
      }
      assert all[..|all|] == all;
    }

    /**
     * generateVMName up to the update of the pool: an existing entry of the
     * machine is returned at once; otherwise the copy holds the status to be
     * written, unless a question to SCVMM failed.
     */
    method GenerateVMName(me: string, ranges: seq<NameRange>, list: seq<Machine>, query: string -> Lookup)
      returns (r: Outcome)
      requires AllTerminate(ranges)
      modifies this
      ensures r.Existing? <==> HasName(old(owners), me)
      ensures r.Existing? <==> me in old(owners).Values
      ensures r.Existing? ==> r.name in old(owners) && old(owners)[r.name] == me && unchanged(this)
      ensures !r.Existing? ==> var s := Generated(ranges, old(owners), me, list, query);
        && (r.QueryFailed? <==> s.failed)
        && (!s.failed ==> owners == s.owners && counts == s.counts && hasCounts)
        && (!s.failed ==> r == if s.vmName == "" then AllClaimed else NewName(s.vmName))
    {
      hide Terminates, Adopted, Candidates;
      if y :| y in owners && owners[y] == me {
        return Existing(y);
      }
      AdoptNames(ranges, list);
      var picked := "";
      counts := Counts(0, 0, 0);
      ghost var adopted := owners;
      for i := 0 to |ranges|
        invariant Scanned(adopted, me, CandidatesTo(ranges, i), query) == Scan(owners, picked, counts, false)
      {
        var name, ok := ScanRange(me, ranges[i], query, picked, adopted, CandidatesTo(ranges, i));
        if !ok {
          FailedToTheEnd(adopted, me, ranges, query, i + 1);
          return QueryFailed;
        }
        picked := name;
      }
      hasCounts := true;
      r := if picked == "" then AllClaimed else NewName(picked);
    }

    /** removeVMNameInPool up to the update: the machine's entries go, and so do those of machines no longer listed. */
    method RemoveVMName(me: string, list: seq<Machine>)
      modifies this
      ensures owners == Kept(old(owners), me, Names(list))
      ensures forall y :: y in owners <==>
        y in old(owners) && old(owners)[y] != me && exists i :: 0 <= i < |list| && list[i].name == old(owners)[y]
      ensures forall y :: y in owners ==> owners[y] == old(owners)[y]
      ensures hasCounts == old(hasCounts)
      ensures var freed := if hasCounts && me in Names(list) then |Entries(old(owners), me)| else 0;
        counts == Counts(old(counts).total, old(counts).free + freed, old(counts).used - freed)
    {
      hide *;
      var seen := {};
      NamesToEnd(list);
      for i := 0 to |list|
        invariant seen == NamesTo(list, i) && unchanged(this)
      {
        NamesStep(list, i);
        seen := seen + {list[i].name};
      }
      var kept, todo: set<string> := map[], owners.Keys;
      StartRemoving(owners, me, seen);
      while todo != {}
        invariant todo <= owners.Keys && owners == old(owners) && hasCounts == old(hasCounts)
        invariant kept == KeptSoFar(owners, me, seen, todo)
        invariant var n := if hasCounts && me in seen then |EntriesSoFar(owners, me, todo)| else 0;
          counts == Counts(old(counts).total, old(counts).free + n, old(counts).used - n)
        decreases |todo|
      {
        var vmName :| vmName in todo;
        RemoveStep(owners, me, seen, todo, vmName);
        todo := todo - {vmName};
        var owner := owners[vmName];
        if owner in seen {
          if owner == me {
            if hasCounts {
              counts := Counts(counts.total, counts.free + 1, counts.used - 1);
            }
          } else {
            kept := kept[vmName := owner];
          }
        }
      }
      EndRemoving(owners, me, seen);
      KeptMeans(owners, me, list);
      owners := kept;
    }
  }

  lemma KeptMeans(owners: Owners, me: string, list: seq<Machine>)
    ensures var kept := Kept(owners, me, Names(list));
      && (forall y :: y in kept <==> y in owners && owners[y] != me && exists i :: 0 <= i < |list| && list[i].name == owners[y])
      && forall y :: y in kept ==> kept[y] == owners[y]
  {
    forall x
      ensures x in Names(list) <==> exists i :: 0 <= i < |list| && list[i].name == x
    {
      if vm :| vm in list && vm.name == x {
        var i :| 0 <= i < |list| && list[i] == vm;
      }
    }
  }

  function NamesTo(list: seq<Machine>, n: nat): set<string>
    requires n <= |list|
  {
    set i | 0 <= i < n :: list[i].name
  }

  lemma NamesStep(list: seq<Machine>, n: nat)
    requires n < |list|
    ensures NamesTo(list, 0) == {} && NamesTo(list, n + 1) == NamesTo(list, n) + {list[n].name}
  {
  }

  lemma NamesToEnd(list: seq<Machine>)
    ensures NamesTo(list, 0) == {} && NamesTo(list, |list|) == Names(list)
  {
    forall x | x in Names(list)
      ensures x in NamesTo(list, |list|)
    {
      var i :| 0 <= i < |list| && list[i].name == x;
    }
  }

  function KeptSoFar(owners: Owners, me: string, names: set<string>, todo: set<string>): Owners {
    map y | y in owners && owners[y] in names && owners[y] != me && y !in todo :: owners[y]
  }

  function EntriesSoFar(owners: Owners, me: string, todo: set<string>): set<string> {
    set y | y in owners && owners[y] == me && y !in todo
  }

  lemma StartRemoving(owners: Owners, me: string, names: set<string>)
    ensures KeptSoFar(owners, me, names, owners.Keys) == map[] && EntriesSoFar(owners, me, owners.Keys) == {}
  {
  }

  lemma EndRemoving(owners: Owners, me: string, names: set<string>)
    ensures KeptSoFar(owners, me, names, {}) == Kept(owners, me, names)
    ensures EntriesSoFar(owners, me, {}) == Entries(owners, me)
  {
  }

  lemma RemoveStep(owners: Owners, me: string, names: set<string>, todo: set<string>, y: string)
    requires y in todo && todo <= owners.Keys
    ensures var was, now := KeptSoFar(owners, me, names, todo), KeptSoFar(owners, me, names, todo - {y});
      now == if owners[y] in names && owners[y] != me then was[y := owners[y]] else was
    ensures |EntriesSoFar(owners, me, todo - {y})| == |EntriesSoFar(owners, me, todo)| + (if owners[y] == me then 1 else 0)
  {
    var was, now := EntriesSoFar(owners, me, todo), EntriesSoFar(owners, me, todo - {y});
    if owners[y] == me {
      assert now == was + {y} && y !in was;
    } else {
      assert now == was;
    }
  }

  lemma RangeStarts(before: seq<string>, r: NameRange)
    requires Terminates(r)
    ensures (before + Candidates(r))[..|before|] == before && Nth(r.start, 0) == r.start
    ensures |Candidates(r)| == Meets(r) >= 1
  {
    hide Meets;
  }

  /** The candidate the loop over a range meets, and whether there is another. */
  lemma RangeStep(before: seq<string>, r: NameRange, k: nat)
    requires Terminates(r) && k < Meets(r)
    ensures |before + Candidates(r)| == |before| + Meets(r)
    ensures (before + Candidates(r))[|before| + k] == Nth(r.start, k) + r.postfix
    ensures Nth(r.start, k + 1) == Next(Nth(r.start, k))
    ensures (r.end == "" || Less(r.end, Nth(r.start, k + 1))) <==> k + 1 == Meets(r)
  {
    hide Next, Less, Terminates, Meets;
    assert Stops(r, k + 1) <==> k + 1 == Meets(r);
  }

  lemma {:induction false} ScanStep(owners: Owners, me: string, names: seq<string>, query: string -> Lookup, n: nat)
    requires n < |names|
    ensures var s, t := Scanned(owners, me, names[..n], query), Scanned(owners, me, names[..n + 1], query);
      !s.failed ==> t == if Asks(s, names[n]) && query(names[n]).Failed? then s.(failed := true) else Looked(s, me, names[n], query(names[n]))
  {
    hide Asks, Looked;
    assert names[..n + 1][..n] == names[..n];
  }

  lemma {:induction false} FailedStays(owners: Owners, me: string, names: seq<string>, query: string -> Lookup, n: nat)
    requires n <= |names| && Scanned(owners, me, names[..n], query).failed
    ensures Scanned(owners, me, names, query).failed
    decreases |names|
  {
    hide Looked, Asks;
    if n == |names| {
      assert names[..n] == names;
    } else {
      assert names[..|names| - 1][..n] == names[..n];
      FailedStays(owners, me, names[..|names| - 1], query, n);
    }
  }

  lemma {:induction false} FailedToTheEnd(owners: Owners, me: string, ranges: seq<NameRange>, query: string -> Lookup, n: nat)
    requires n <= |ranges| && AllTerminate(ranges) && Scanned(owners, me, CandidatesTo(ranges, n), query).failed
    ensures Scanned(owners, me, AllCandidates(ranges), query).failed
    decreases |ranges| - n
  {
    hide Looked, Asks, Terminates, Candidates;
    if n < |ranges| {
      var f, more := CandidatesTo(ranges, n), Candidates(ranges[n]);
      assert (f + more)[..|f|] == f;
      FailedStays(owners, me, f + more, query, |f|);
      FailedToTheEnd(owners, me, ranges, query, n + 1);
    }
  }

  function Names(list: seq<Machine>): set<string> {
    set vm | vm in list :: vm.name
  }

  function Entries(owners: Owners, me: string): set<string> {
    set y | y in owners && owners[y] == me
  }
}
