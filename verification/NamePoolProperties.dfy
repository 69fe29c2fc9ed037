// What one pass over a name pool achieves: which name is handed out, which
// names are adopted, what the counts say, and what a release undoes.
module NamePoolProperties {
  import opened NameRanges
  import opened Odometer
  import opened NamePool

  // ----- adoption -----------------------------------------------------------------------------

  /** Machine `i` is the first on the list to bring the name `y`. */
  predicate Brings(list: seq<Machine>, i: nat, y: string) {
    i < |list| && list[i].vmName == y && forall j :: 0 <= j < i ==> list[j].vmName != y
  }

  predicate AllNamed(list: seq<Machine>) {
    forall i :: 0 <= i < |list| ==> list[i].name != ""
  }

  /** An unowned name in a range goes to the first listed machine that has it; everything else stays as it was. */
  lemma {:induction false} AdoptedMeans(ranges: seq<NameRange>, owners: Owners, list: seq<Machine>, n: nat, y: string)
    requires n <= |list| && AllNamed(list)
    ensures var o := Adopted(ranges, owners, list, n);
      if y == "" || Owner(owners, y) != "" || !Covered(ranges, y) || forall i :: 0 <= i < n ==> list[i].vmName != y
      then (y in o <==> y in owners) && (y in owners ==> o[y] == owners[y])
      else y in o && exists i :: 0 <= i < n && Brings(list, i, y) && o[y] == list[i].name
  {
    hide Covered;
    if n > 0 {
      AdoptedMeans(ranges, owners, list, n - 1, y);
      if list[n - 1].vmName == y && forall j :: 0 <= j < n - 1 ==> list[j].vmName != y {
        assert Brings(list, n - 1, y);
      }
    }
  }

  /** A name lies in a range if it is its Start, where it has no End, and otherwise if it is not below Start and not above End. */
  lemma {:induction false} CoversMeans(r: NameRange, name: string)
    ensures Covers(r, name) <==>
      if r.end == "" then name == r.start
      else (name == r.start || Less(r.start, name)) && (name == r.end || Less(name, r.end))
  {
    hide Less;
    LessOrGreater(name, r.start);
    LessOrGreater(r.end, name);
    if r.end == "" {
      EmptyIsLeast(name);
      EmptyIsLeast(r.start);
    }
  }

  // ----- the name that is handed out ----------------------------------------------------------

  /** A name the scan would stop at. */
  predicate Open(owners: Owners, query: string -> Lookup, c: string) {
    Owner(owners, c) == "" && (query(c).Failed? || query(c) == Ids(0))
  }

  /** The position of the first such name. */
  function FirstOpen(owners: Owners, names: seq<string>, query: string -> Lookup): (p: nat)
    ensures p <= |names| && (p < |names| ==> Open(owners, query, names[p]))
    ensures forall j :: 0 <= j < p ==> !Open(owners, query, names[j])
  {
    if names == [] then 0
    else
      var front := names[..|names| - 1];
      var p := FirstOpen(owners, front, query);
      if p < |front| || Open(owners, query, names[|front|]) then p else |names|
  }

  function CountOwned(owners: Owners, names: seq<string>): nat {
    if names == [] then 0
    else CountOwned(owners, names[..|names| - 1]) + (if Owner(owners, names[|names| - 1]) != "" then 1 else 0)
  }

  lemma {:induction false} FirstOpenLast(owners: Owners, names: seq<string>, query: string -> Lookup)
    ensures FirstOpen(owners, names, query) ==
      if names == [] then 0
      else
        var n := |names| - 1;
        var p := FirstOpen(owners, names[..n], query);
        if p < n || Open(owners, query, names[n]) then p else |names|
  {
    hide Open;
  }

  lemma {:induction false} ScannedLast(owners: Owners, me: string, names: seq<string>, query: string -> Lookup)
    ensures Scanned(owners, me, names, query) ==
      if names == [] then Scan(owners, "", Counts(0, 0, 0), false)
      else
        var s, c := Scanned(owners, me, names[..|names| - 1], query), names[|names| - 1];
        if s.failed then s
        else if Asks(s, c) && query(c).Failed? then s.(failed := true)
        else Looked(s, me, c, query(c))
  {
    hide Asks, Looked;
  }

  lemma {:induction false} CountLast(owners: Owners, names: seq<string>)
    ensures CountOwned(owners, names) ==
      if names == [] then 0
      else CountOwned(owners, names[..|names| - 1]) + (if Owner(owners, names[|names| - 1]) != "" then 1 else 0)
  {
  }

  lemma {:induction false} CountWithout(owners: Owners, names: seq<string>, c: string, me: string)
    requires c !in names
    ensures CountOwned(owners[c := me], names) == CountOwned(owners, names)
  {
    if names != [] {
      CountWithout(owners, names[..|names| - 1], c, me);
    }
  }

  /**
   * The scan takes the first candidate that nobody owns and SCVMM does not
   * know, writes its new owner and nothing else, and its counts are exact for
   * the status it leaves. A failed question on the way ends it.
   */
  lemma {:induction false} ScanMeans(owners: Owners, me: string, names: seq<string>, query: string -> Lookup)
    requires me != "" && "" !in names
    ensures var p, s := FirstOpen(owners, names, query), Scanned(owners, me, names, query);
      && (s.failed <==> p < |names| && query(names[p]).Failed?)
      && (!s.failed && p < |names| ==> s.vmName == names[p] && s.owners == owners[names[p] := me])
      && (!s.failed && p == |names| ==> s.vmName == "" && s.owners == owners)
      && (!s.failed ==> s.counts == Counts(|names|, |names| - CountOwned(s.owners, names), CountOwned(s.owners, names)))
  {
    hide CountOwned, FirstOpen, Scanned;
    CountLast(owners, names);
    FirstOpenLast(owners, names, query);
    ScannedLast(owners, me, names, query);
    if names != [] {
      var front, c := names[..|names| - 1], names[|names| - 1];
      CountLast(owners[c := me], names);
      if FirstOpen(owners, front, query) < |front| {
        CountLast(owners[front[FirstOpen(owners, front, query)] := me], names);
      }
      ScanMeans(owners, me, front, query);
      var p, s := FirstOpen(owners, front, query), Scanned(owners, me, front, query);
      if p < |front| {
        assert names[p] == front[p];
      } else if !s.failed && Open(owners, query, c) && query(c) == Ids(0) {
        forall j | 0 <= j < |front|
          ensures front[j] != c
        {
          assert !Open(owners, query, front[j]);
        }
        CountWithout(owners, front, c, me);
      }
    }
  }

  predicate NoEmptyName(ranges: seq<NameRange>) {
    forall r :: r in ranges ==> r.start != "" || r.postfix != ""
  }

  lemma {:induction false} CandidatesNamed(ranges: seq<NameRange>, n: nat)
    requires n <= |ranges| && AllTerminate(ranges) && NoEmptyName(ranges)
    ensures "" !in CandidatesTo(ranges, n)
  {
    hide Meets, Terminates, Bottom;
    if n > 0 {
      CandidatesNamed(ranges, n - 1);
      var r := ranges[n - 1];
      forall k | 0 <= k < Meets(r)
        ensures Candidates(r)[k] != ""
      {
        NthShape(r.start, k);
        CountOfShape(Nth(r.start, k), r.start);
      }
    }
  }

  /** Someone owns the name or SCVMM knows it. */
  predicate Taken(owners: Owners, query: string -> Lookup, c: string) {
    Owner(owners, c) != "" || (query(c).Ids? && query(c) != Ids(0))
  }

  predicate HasVMName(list: seq<Machine>, c: string) {
    exists i :: 0 <= i < |list| && list[i].vmName == c
  }

  // ----- the candidates are the names of the ranges -------------------------------------------

  /** How many names the first `n` ranges have. */
  function NamesBefore(ranges: seq<NameRange>, n: nat): nat
    requires n <= |ranges| && AllTerminate(ranges)
  {
    if n == 0 then 0 else NamesBefore(ranges, n - 1) + Meets(ranges[n - 1])
  }

  /** `c` is name `k` of range `i`. */
  predicate IsName(ranges: seq<NameRange>, i: nat, k: nat, c: string)
    requires AllTerminate(ranges)
  {
    i < |ranges| && k < Meets(ranges[i]) && c == Nth(ranges[i].start, k) + ranges[i].postfix
  }

  /** The candidates come range by range, each range's names in the order the odometer shows them. */
  lemma {:induction false} CandidateAt(ranges: seq<NameRange>, n: nat, i: nat, k: nat)
    requires i < n <= |ranges| && AllTerminate(ranges) && k < Meets(ranges[i])
    ensures NamesBefore(ranges, i) + k < NamesBefore(ranges, n) == |CandidatesTo(ranges, n)|
    ensures CandidatesTo(ranges, n)[NamesBefore(ranges, i) + k] == Nth(ranges[i].start, k) + ranges[i].postfix
  {
    hide Meets, Terminates, Nth;
    CandidatesCounted(ranges, n);
    CandidatesCounted(ranges, n - 1);
    if i < n - 1 {
      CandidateAt(ranges, n - 1, i, k);
    }
  }

  lemma {:induction false} CandidatesCounted(ranges: seq<NameRange>, n: nat)
    requires n <= |ranges| && AllTerminate(ranges)
    ensures |CandidatesTo(ranges, n)| == NamesBefore(ranges, n)
  {
    hide Meets, Terminates, Nth;
    if n > 0 {
      CandidatesCounted(ranges, n - 1);
    }
  }

  /** Every candidate is a name of a range. */
  lemma {:induction false} RangeOfCandidate(ranges: seq<NameRange>, n: nat, p: nat) returns (i: nat, k: nat)
    requires n <= |ranges| && AllTerminate(ranges) && p < |CandidatesTo(ranges, n)|
    ensures i < n && k < Meets(ranges[i]) && p == NamesBefore(ranges, i) + k
    ensures IsName(ranges, i, k, CandidatesTo(ranges, n)[p])
  {
    hide Meets, Terminates, Nth;
    CandidatesCounted(ranges, n - 1);
    if p < NamesBefore(ranges, n - 1) {
      i, k := RangeOfCandidate(ranges, n - 1, p);
    } else {
      i, k := n - 1, p - NamesBefore(ranges, n - 1);
    }
  }

  lemma {:induction false} BeforeInOrder(ranges: seq<NameRange>, i: nat, j: nat)
    requires i <= j <= |ranges| && AllTerminate(ranges)
    ensures NamesBefore(ranges, i) <= NamesBefore(ranges, j)
    ensures i < j ==> NamesBefore(ranges, i) + Meets(ranges[i]) <= NamesBefore(ranges, j)
    decreases j - i
  {
    hide Meets, Terminates;
    if i < j {
      BeforeInOrder(ranges, i, j - 1);
    }
  }

  predicate AllTaken(ranges: seq<NameRange>, owners: Owners, query: string -> Lookup)
    requires AllTerminate(ranges)
  {
    forall i, k :: 0 <= i < |ranges| && 0 <= k < Meets(ranges[i]) ==>
      Taken(owners, query, Nth(ranges[i].start, k) + ranges[i].postfix)
  }

  /** All names of earlier ranges, and the names of range `i` before its name `k`, are taken. */
  predicate TakenBefore(ranges: seq<NameRange>, owners: Owners, query: string -> Lookup, i: nat, k: nat)
    requires AllTerminate(ranges)
  {
    forall j, l :: 0 <= j < |ranges| && 0 <= l < Meets(ranges[j]) && (j < i || (j == i && l < k)) ==>
      Taken(owners, query, Nth(ranges[j].start, l) + ranges[j].postfix)
  }

  /** If the candidates before a position are taken, so are the names before the one there. */
  lemma {:induction false} TakenInFront(ranges: seq<NameRange>, owners: Owners, query: string -> Lookup, i: nat, k: nat)
    requires AllTerminate(ranges) && i < |ranges| && k < Meets(ranges[i])
    requires forall p :: 0 <= p < NamesBefore(ranges, i) + k && p < |AllCandidates(ranges)| ==> Taken(owners, query, AllCandidates(ranges)[p])
    ensures TakenBefore(ranges, owners, query, i, k)
  {
    hide Meets, Terminates, Nth, Taken, CandidatesTo, NamesBefore;
    forall j: nat, l: nat | j < |ranges| && l < Meets(ranges[j]) && (j < i || (j == i && l < k))
      ensures Taken(owners, query, Nth(ranges[j].start, l) + ranges[j].postfix)
    {
      CandidateAt(ranges, |ranges|, j, l);
      BeforeInOrder(ranges, j, i);
      assert Taken(owners, query, AllCandidates(ranges)[NamesBefore(ranges, j) + l]);
    }
  }

  lemma {:induction false} TakenThroughout(ranges: seq<NameRange>, owners: Owners, query: string -> Lookup)
    requires AllTerminate(ranges)
    requires forall p :: 0 <= p < |AllCandidates(ranges)| ==> Taken(owners, query, AllCandidates(ranges)[p])
    ensures AllTaken(ranges, owners, query)
  {
    hide Meets, Terminates, Nth, Taken, CandidatesTo, NamesBefore;
    forall i: nat, k: nat | i < |ranges| && k < Meets(ranges[i])
      ensures Taken(owners, query, Nth(ranges[i].start, k) + ranges[i].postfix)
    {
      CandidateAt(ranges, |ranges|, i, k);
      assert Taken(owners, query, AllCandidates(ranges)[NamesBefore(ranges, i) + k]);
    }
  }

  /**
   * A name that is handed out is the first name of the first range, in the
   * order of the ranges and of the odometer, that nobody owns and SCVMM does
   * not know, and no listed machine has it if it lies in a range. Without one,
   * every name of every range is taken. The total is the number of names.
   */
  lemma {:induction false} HandedOutIsFree(ranges: seq<NameRange>, owners: Owners, me: string, list: seq<Machine>, query: string -> Lookup)
    requires me != "" && AllNamed(list) && AllTerminate(ranges) && NoEmptyName(ranges)
    ensures var s := Generated(ranges, owners, me, list, query); !s.failed ==>
      && (s.vmName == "" ==> AllTaken(ranges, s.owners, query))
      && (s.vmName != "" ==> exists i, k :: IsName(ranges, i, k, s.vmName) && TakenBefore(ranges, s.owners, query, i, k))
      && (s.vmName != "" ==> Owner(s.owners, s.vmName) == me && Owner(owners, s.vmName) == "" && query(s.vmName) == Ids(0))
      && (s.vmName != "" ==> !(HasVMName(list, s.vmName) && Covered(ranges, s.vmName)))
      && s.counts.total == NamesBefore(ranges, |ranges|)
  {
    hide Scanned, Adopted, Covered, Candidates, Terminates, CandidatesTo, CountOwned, NoEmptyName, Meets, Nth, TakenBefore, AllTaken, NamesBefore;
    var o, names := Adopted(ranges, owners, list, |list|), AllCandidates(ranges);
    CandidatesNamed(ranges, |ranges|);
    CandidatesCounted(ranges, |ranges|);
    ScanMeans(o, me, names, query);
    var s, p := Generated(ranges, owners, me, list, query), FirstOpen(o, names, query);
    if !s.failed {
      forall j | 0 <= j < p
        ensures Taken(s.owners, query, names[j])
      {
        assert !Open(o, query, names[j]);
      }
      if p < |names| {
        AdoptedMeans(ranges, owners, list, |list|, names[p]);
        var i, k := RangeOfCandidate(ranges, |ranges|, p);
        TakenInFront(ranges, s.owners, query, i, k);
      } else {
        TakenThroughout(ranges, s.owners, query);
      }
    }
  }

  /** The question about the first name that is not owned and not known to SCVMM fails, if the pass fails, and then only. */
  lemma {:induction false} FailsExactly(ranges: seq<NameRange>, owners: Owners, me: string, list: seq<Machine>, query: string -> Lookup)
    requires me != "" && AllTerminate(ranges) && NoEmptyName(ranges)
    ensures var o := Adopted(ranges, owners, list, |list|);
      Generated(ranges, owners, me, list, query).failed <==> exists i, k, c ::
        IsName(ranges, i, k, c) && Owner(o, c) == "" && query(c).Failed? && TakenBefore(ranges, o, query, i, k)
  {
    hide Scanned, Adopted, Candidates, Terminates, CandidatesTo, CountOwned, NoEmptyName, Meets, Nth, TakenBefore, NamesBefore, Generated;
    var o, names := Adopted(ranges, owners, list, |list|), AllCandidates(ranges);
    CandidatesNamed(ranges, |ranges|);
    ScanMeans(o, me, names, query);
    var p := FirstOpen(o, names, query);
    GeneratedIsScan(ranges, owners, me, list, query);
    if p < |names| && query(names[p]).Failed? {
      var i, k := RangeOfCandidate(ranges, |ranges|, p);
      forall j | 0 <= j < p
        ensures Taken(o, query, names[j])
      {
        assert !Open(o, query, names[j]);
      }
      TakenInFront(ranges, o, query, i, k);
    }
    if i, k, c :| IsName(ranges, i, k, c) && Owner(o, c) == "" && query(c).Failed? && TakenBefore(ranges, o, query, i, k) {
      CandidateAt(ranges, |ranges|, i, k);
      var at := NamesBefore(ranges, i) + k;
      assert Open(o, query, names[at]);
      if p < at {
        FrontIsTaken(ranges, o, query, i, k, p);
        assert false;
      }
    }
  }

  lemma {:induction false} GeneratedIsScan(ranges: seq<NameRange>, owners: Owners, me: string, list: seq<Machine>, query: string -> Lookup)
    requires AllTerminate(ranges)
    ensures Generated(ranges, owners, me, list, query)
         == Scanned(Adopted(ranges, owners, list, |list|), me, AllCandidates(ranges), query)
  {
  }

  lemma {:induction false} FrontIsTaken(ranges: seq<NameRange>, owners: Owners, query: string -> Lookup, i: nat, k: nat, p: nat)
    requires AllTerminate(ranges) && i < |ranges| && k < Meets(ranges[i]) && TakenBefore(ranges, owners, query, i, k)
    requires p < NamesBefore(ranges, i) + k && p < |AllCandidates(ranges)|
    ensures Taken(owners, query, AllCandidates(ranges)[p])
  {
    hide Meets, Terminates, Nth, Taken, CandidatesTo, NamesBefore;
    var j, l := RangeOfCandidate(ranges, |ranges|, p);
    if j > i {
      BeforeInOrder(ranges, i, j);
    }
  }

  /** Name `at.1` of range `at.0` has an owner, and is one before name `n` of range `m`. */
  predicate OwnedAt(ranges: seq<NameRange>, owners: Owners, m: nat, n: nat, at: (nat, nat))
    requires AllTerminate(ranges)
  {
    && at.0 < |ranges| && at.1 < Meets(ranges[at.0]) && (at.0 < m || (at.0 == m && at.1 < n))
    && Owner(owners, Nth(ranges[at.0].start, at.1) + ranges[at.0].postfix) != ""
  }

  lemma InOwned(ranges: seq<NameRange>, owners: Owners, m: nat, n: nat, at: (nat, nat))
    requires AllTerminate(ranges) && m <= |ranges|
    ensures at in OwnedBefore(ranges, owners, m, n) <==> OwnedAt(ranges, owners, m, n, at)
  {
    hide Meets, Terminates, Nth, Owner;
    if OwnedAt(ranges, owners, m, n, at) {
      assert at == (at.0, at.1);
    }
  }

  /** The places, before name `n` of range `m`, of names that have an owner. */
  function OwnedBefore(ranges: seq<NameRange>, owners: Owners, m: nat, n: nat): set<(nat, nat)>
    requires AllTerminate(ranges) && m <= |ranges|
  {
    set i: nat, k: nat | 0 <= i < |ranges| && 0 <= k < Meets(ranges[i]) && OwnedAt(ranges, owners, m, n, (i, k)) :: (i, k)
  }

  lemma OwnedStep(ranges: seq<NameRange>, owners: Owners, m: nat, n: nat)
    requires AllTerminate(ranges) && m < |ranges| && n < Meets(ranges[m])
    ensures |OwnedBefore(ranges, owners, m, n + 1)| == |OwnedBefore(ranges, owners, m, n)| +
      (if Owner(owners, Nth(ranges[m].start, n) + ranges[m].postfix) != "" then 1 else 0)
  {
    hide Meets, Terminates, Nth, Owner, OwnedBefore;
    var was, now := OwnedBefore(ranges, owners, m, n), OwnedBefore(ranges, owners, m, n + 1);
    forall x
      ensures x in now <==> x in was || (x == (m, n) && Owner(owners, Nth(ranges[m].start, n) + ranges[m].postfix) != "")
      ensures (m, n) !in was
    {
      InOwned(ranges, owners, m, n, x);
      InOwned(ranges, owners, m, n, (m, n));
      InOwned(ranges, owners, m, n + 1, x);
    }
    if Owner(owners, Nth(ranges[m].start, n) + ranges[m].postfix) != "" {
      assert now == was + {(m, n)};
    } else {
      assert now == was;
    }
  }

  lemma OwnedNextRange(ranges: seq<NameRange>, owners: Owners, m: nat)
    requires AllTerminate(ranges) && m < |ranges|
    ensures OwnedBefore(ranges, owners, m + 1, 0) == OwnedBefore(ranges, owners, m, Meets(ranges[m]))
  {
    hide Meets, Terminates, Nth, Owner, OwnedBefore;
    forall x
      ensures x in OwnedBefore(ranges, owners, m + 1, 0) <==> x in OwnedBefore(ranges, owners, m, Meets(ranges[m]))
    {
      InOwned(ranges, owners, m + 1, 0, x);
      InOwned(ranges, owners, m, Meets(ranges[m]), x);
    }
  }

  lemma {:induction false} OwnedInRange(ranges: seq<NameRange>, owners: Owners, m: nat, n: nat)
    requires AllTerminate(ranges) && m < |ranges| && n <= Meets(ranges[m])
    requires CountOwned(owners, CandidatesTo(ranges, m)) == |OwnedBefore(ranges, owners, m, 0)|
    ensures CountOwned(owners, CandidatesTo(ranges, m) + Candidates(ranges[m])[..n]) == |OwnedBefore(ranges, owners, m, n)|
  {
    hide Meets, Terminates, Nth, Owner, CountOwned, OwnedBefore, CandidatesTo;
    var front, names := CandidatesTo(ranges, m), Candidates(ranges[m]);
    if n == 0 {
      assert front + names[..0] == front;
    } else {
      OwnedInRange(ranges, owners, m, n - 1);
      OwnedStep(ranges, owners, m, n - 1);
      CountLast(owners, front + names[..n]);
      assert (front + names[..n])[..|front| + n - 1] == front + names[..n - 1];
    }
  }

  lemma {:induction false} OwnedCounted(ranges: seq<NameRange>, owners: Owners, m: nat)
    requires AllTerminate(ranges) && m <= |ranges|
    ensures CountOwned(owners, CandidatesTo(ranges, m)) == |OwnedBefore(ranges, owners, m, 0)|
  {
    hide Meets, Terminates, Nth, Owner, OwnedBefore;
    if m == 0 {
      assert OwnedBefore(ranges, owners, 0, 0) == {} by {
        NothingBefore(ranges, owners);
      }
    } else {
      OwnedCounted(ranges, owners, m - 1);
      OwnedNextRange(ranges, owners, m - 1);
      OwnedInRange(ranges, owners, m - 1, Meets(ranges[m - 1]));
      var names := Candidates(ranges[m - 1]);
      assert names[..|names|] == names;
    }
  }

  lemma NothingBefore(ranges: seq<NameRange>, owners: Owners)
    requires AllTerminate(ranges)
    ensures OwnedBefore(ranges, owners, 0, 0) == {}
  {
    hide Meets, Terminates, Nth, Owner, OwnedBefore;
    forall x
      ensures x !in OwnedBefore(ranges, owners, 0, 0)
    {
      InOwned(ranges, owners, 0, 0, x);
    }
  }

  /** The counts a pass writes: as many as the ranges have names, used those that have an owner in the status it writes, and free the others. */
  lemma {:induction false} CountsAreExact(ranges: seq<NameRange>, owners: Owners, me: string, list: seq<Machine>, query: string -> Lookup)
    requires me != "" && AllTerminate(ranges) && NoEmptyName(ranges)
    ensures var s := Generated(ranges, owners, me, list, query); !s.failed ==>
      && s.counts.total == NamesBefore(ranges, |ranges|)
      && s.counts.used == |OwnedBefore(ranges, s.owners, |ranges|, 0)|
      && s.counts.free == s.counts.total - s.counts.used
  {
    hide Scanned, Adopted, Candidates, Terminates, CandidatesTo, CountOwned, NoEmptyName, Meets, Nth, OwnedBefore, NamesBefore;
    var o, names := Adopted(ranges, owners, list, |list|), AllCandidates(ranges);
    CandidatesNamed(ranges, |ranges|);
    CandidatesCounted(ranges, |ranges|);
    ScanMeans(o, me, names, query);
    OwnedCounted(ranges, Generated(ranges, owners, me, list, query).owners, |ranges|);
  }

  /**
   * The owners a pass writes: no name changes its owner; a listed name of a
   * range without an owner goes to the first machine on the list that has it;
   * the name handed out goes to the machine the pass is for; no other name
   * gets an owner.
   */
  lemma {:induction false} OwnersAfterPass(ranges: seq<NameRange>, owners: Owners, me: string, list: seq<Machine>, query: string -> Lookup, y: string)
    requires me != "" && AllNamed(list) && AllTerminate(ranges) && NoEmptyName(ranges) && y != ""
    ensures var s := Generated(ranges, owners, me, list, query); !s.failed ==>
      && (Owner(owners, y) != "" ==> Owner(s.owners, y) == Owner(owners, y))
      && (Owner(owners, y) == "" && Covered(ranges, y) && HasVMName(list, y) ==>
            exists i: nat :: Brings(list, i, y) && Owner(s.owners, y) == list[i].name)
      && (Owner(owners, y) == "" && !(Covered(ranges, y) && HasVMName(list, y)) ==>
            Owner(s.owners, y) == if y == s.vmName then me else "")
  {
    hide Scanned, Covered, Candidates, Terminates, CandidatesTo, CountOwned, NoEmptyName, Adopted;
    CandidatesNamed(ranges, |ranges|);
    ScanMeans(Adopted(ranges, owners, list, |list|), me, AllCandidates(ranges), query);
    AdoptedMeans(ranges, owners, list, |list|, y);
    GeneratedIsScan(ranges, owners, me, list, query);
    var s := Generated(ranges, owners, me, list, query);
    if !s.failed && s.vmName != "" {
      AdoptedMeans(ranges, owners, list, |list|, s.vmName);
    }
  }

  /** Two machines that work on the same copy are given the same name: only the version check keeps them apart. */
  lemma SameCopySameName(ranges: seq<NameRange>, owners: Owners, a: string, b: string, list: seq<Machine>, query: string -> Lookup)
    requires a != "" && b != "" && AllTerminate(ranges) && NoEmptyName(ranges)
    ensures Generated(ranges, owners, a, list, query).failed == Generated(ranges, owners, b, list, query).failed
    ensures !Generated(ranges, owners, a, list, query).failed ==>
      Generated(ranges, owners, a, list, query).vmName == Generated(ranges, owners, b, list, query).vmName
  {
    hide Scanned, Adopted, Candidates, Terminates, CandidatesTo, NoEmptyName;
    CandidatesNamed(ranges, |ranges|);
    ScanMeans(Adopted(ranges, owners, list, |list|), a, AllCandidates(ranges), query);
    ScanMeans(Adopted(ranges, owners, list, |list|), b, AllCandidates(ranges), query);
  }

  // ----- adoption and enumeration disagree ----------------------------------------------------

  /** Strings that differ within their common length compare the same whatever follows. */
  lemma {:induction false} LessExtends(s: string, t: string, u: string)
    requires |s| == |t| && Less(s, t)
    ensures Less(s + u, t)
  {
    assert (s + u)[1..] == s[1..] + u;
    if s[0] == t[0] {
      LessExtends(s[1..], t[1..], u);
    }
  }

  lemma {:induction false} PrefixNotLess(s: string, u: string)
    ensures !Less(s + u, s)
  {
    if s != "" {
      assert (s + u)[1..] == s[1..] + u;
      PrefixNotLess(s[1..], u);
    }
  }

  lemma {:induction false} NotLessExtends(s: string, t: string, u: string)
    requires |s| == |t| && !Less(s, t)
    ensures !Less(s + u, t)
  {
    if s != "" {
      assert (s + u)[1..] == s[1..] + u;
      if s[0] == t[0] {
        NotLessExtends(s[1..], t[1..], u);
      }
    }
  }

  /**
   * A machine's own name is compared with the postfix, the odometer without.
   * Of the names a range hands out only the last can escape adoption, and it
   * does exactly when with its postfix it lies beyond End.
   */
  lemma {:induction false} AdoptionCoversRange(r: NameRange, i: nat)
    requires r.end != "" && Terminates(r) && !Less(r.end, r.start) && i < Meets(r)
    ensures Covers(r, Nth(r.start, i) + r.postfix) <==> i < Meets(r) - 1 || !Less(r.end, Nth(r.start, i) + r.postfix)
  {
    hide Meets, Nth, Less, Terminates, Value, Count, Top;
    var x, n := Nth(r.start, i), Meets(r);
    NthShape(r.start, i);
    CountOfShape(x, r.start);
    MetIsBetween(r, i);
    NotLessExtends(x, r.start, r.postfix);
    if i < n - 1 {
      var y := Nth(r.start, i + 1);
      NthShape(r.start, i + 1);
      CountOfShape(y, r.start);
      MeetsBeforeTop(r);
      NthInOrder(r.start, i, i + 1);
      MetIsBetween(r, i + 1);
      LessExtends(x, y, r.postfix);
      LessOrGreater(y, r.end);
      LessTransitive(x + r.postfix, y, r.end);
      LessOrGreater(x + r.postfix, r.end);
    }
  }

  /** A range of one name adopts it exactly when it has no postfix. */
  lemma SingleNameAdoption(r: NameRange)
    requires r.end == ""
    ensures Covers(r, r.start + r.postfix) <==> r.postfix == "" || r.start + r.postfix == ""
  {
    hide Less;
    LessOrGreater(r.start + r.postfix, r.end);
    if r.postfix != "" {
      assert |r.start + r.postfix| > |r.start|;
      assert Less("", r.start + r.postfix) by {
        EmptyIsLeast(r.start + r.postfix);
      }
    }
  }

  lemma {:induction false} EmptyIsLeast(s: string)
    ensures Less("", s) <==> s != ""
  {
  }

  // ----- release ------------------------------------------------------------------------------

  /** How many of the names, with repetitions, are in the set. */
  function CountIn(names: seq<string>, s: set<string>): nat {
    if names == [] then 0 else CountIn(names[..|names| - 1], s) + (if names[|names| - 1] in s then 1 else 0)
  }

  /** Names of other machines that are not listed any more. */
  function Unlisted(owners: Owners, me: string, listed: set<string>): set<string> {
    set y | y in owners && owners[y] != "" && owners[y] != me && owners[y] !in listed
  }

  /** A release takes the owners of the machine's candidates and of unlisted machines' candidates. */
  lemma {:induction false} KeptCount(owners: Owners, me: string, listed: set<string>, names: seq<string>)
    requires me != "" && "" !in listed
    ensures CountOwned(owners, names) ==
      CountOwned(Kept(owners, me, listed), names) + CountIn(names, Entries(owners, me)) + CountIn(names, Unlisted(owners, me, listed))
  {
    if names != [] {
      KeptCount(owners, me, listed, names[..|names| - 1]);
    }
  }

  lemma {:induction false} CountInNone(names: seq<string>, s: set<string>)
    ensures CountIn(names, s) == 0 <==> forall c :: c in names ==> c !in s
  {
    if names != [] {
      var front := names[..|names| - 1];
      CountInNone(front, s);
      assert names == front + [names[|names| - 1]];
    }
  }

  predicate Exact(counts: Counts, owners: Owners, names: seq<string>) {
    counts == Counts(|names|, |names| - CountOwned(owners, names), CountOwned(owners, names))
  }

  /** The entries a release counts as freed. */
  function Freed(owners: Owners, me: string, listed: set<string>): nat {
    if me in listed then |Entries(owners, me)| else 0
  }

  /**
   * When exact counts are still exact after a release: exactly when as many
   * candidates lose their owner as entries are counted. For a listed machine
   * whose names are candidates, each once, that is when no candidate belonged
   * to a machine that is no longer listed, for those go uncounted.
   */
  lemma {:induction false} CountsAfterRelease(owners: Owners, counts: Counts, me: string, listed: set<string>, names: seq<string>)
    requires me != "" && "" !in listed && Exact(counts, owners, names)
    ensures var freed := Freed(owners, me, listed);
      Exact(Counts(counts.total, counts.free + freed, counts.used - freed), Kept(owners, me, listed), names)
      <==> CountIn(names, Entries(owners, me)) + CountIn(names, Unlisted(owners, me, listed)) == freed
    ensures var freed := Freed(owners, me, listed);
      me in listed && CountIn(names, Entries(owners, me)) == |Entries(owners, me)| ==>
        (Exact(Counts(counts.total, counts.free + freed, counts.used - freed), Kept(owners, me, listed), names)
         <==> forall c :: c in names ==> c !in Unlisted(owners, me, listed))
  {
    hide CountOwned, CountIn, Kept, Entries, Unlisted;
    KeptCount(owners, me, listed, names);
    CountInNone(names, Unlisted(owners, me, listed));
  }

  /** Releasing a name that was just reserved leaves the owners as they were, when all of them are listed. */
  lemma ReleaseUndoesReserve(owners: Owners, me: string, y: string, names: set<string>)
    requires Owner(owners, y) == "" && y !in owners && !HasName(owners, me)
    requires owners.Values <= names
    ensures Kept(owners[y := me], me, names) == owners
  {
    var o := owners[y := me];
    forall z | z in owners
      ensures owners[z] in names && o[z] != me
    {
      assert owners[z] in owners.Values;
    }
  }
}
