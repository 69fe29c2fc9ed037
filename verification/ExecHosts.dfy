// The start of doWinrmWork: it tries a provider's hosts in turn, from the first
// healthy one on, and writes down how each of them did.
module ExecHosts {
  import opened Wrappers

  const OK := "OK"
  const FAILED := "Failed"

  datatype HostStatus = HostStatus(host: string, status: string, message: string)

  /** The first entry of a host. */
  function StatusOf(entries: seq<HostStatus>, host: string): Option<HostStatus> {
    if entries == [] then None
    else if entries[0].host == host then Some(entries[0])
    else StatusOf(entries[1..], host)
  }

  /** The first entry of the host changed, or a new one at the end. */
  function Updated(entries: seq<HostStatus>, s: HostStatus): seq<HostStatus> {
    if entries == [] then [s]
    else if entries[0].host == s.host then [s] + entries[1..]
    else [entries[0]] + Updated(entries[1..], s)
  }

  /** Entry `i` is the first of the host. */
  predicate IsFirst(entries: seq<HostStatus>, host: string, i: nat) {
    i < |entries| && entries[i].host == host && forall j :: 0 <= j < i ==> entries[j].host != host
  }

  /** The status and the update of a host, in the entries: its first entry is shown and replaced; without one, nothing is shown and one is added at the end. */
  lemma {:induction false} EntriesMean(entries: seq<HostStatus>, s: HostStatus, i: nat)
    ensures (forall e :: e in entries ==> e.host != s.host) ==> StatusOf(entries, s.host) == None && Updated(entries, s) == entries + [s]
    ensures IsFirst(entries, s.host, i) ==> StatusOf(entries, s.host) == Some(entries[i]) && Updated(entries, s) == entries[i := s]
  {
    if entries != [] {
      var rest := entries[1..];
      assert entries == [entries[0]] + rest;
      if i > 0 {
        EntriesMean(rest, s, i - 1);
        if IsFirst(entries, s.host, i) {
          assert IsFirst(rest, s.host, i - 1);
          assert entries[i := s] == [entries[0]] + rest[i - 1 := s];
        }
      } else {
        EntriesMean(rest, s, i);
      }
    }
  }

  /** An update is what the host shows from then on, and no other host shows anything else. */
  lemma {:induction false} UpdatedShows(entries: seq<HostStatus>, s: HostStatus, host: string)
    ensures StatusOf(Updated(entries, s), host) == if host == s.host then Some(s) else StatusOf(entries, host)
  {
    if entries != [] {
      UpdatedShows(entries[1..], s, host);
      assert Updated(entries, s)[1..] == if entries[0].host == s.host then entries[1..] else Updated(entries[1..], s);
    }
  }

  predicate Healthy(entries: seq<HostStatus>, host: string) {
    StatusOf(entries, host).None? || StatusOf(entries, host).value.status == OK
  }

  /** A host is healthy if it has no entry, or its first entry says OK. */
  lemma {:induction false} HealthyMeans(entries: seq<HostStatus>, host: string)
    ensures Healthy(entries, host) <==> forall i: nat :: IsFirst(entries, host, i) ==> entries[i].status == "OK"
  {
    hide StatusOf, Updated;
    var s := HostStatus(host, "", "");
    forall i: nat
      ensures IsFirst(entries, host, i) ==> StatusOf(entries, host) == Some(entries[i])
      ensures (forall e :: e in entries ==> e.host != host) ==> StatusOf(entries, host) == None
    {
      EntriesMean(entries, s, i);
    }
    if forall i: nat :: !IsFirst(entries, host, i) {
      NoneFirst(entries, host);
      EntriesMean(entries, s, 0);
    }
  }

  lemma {:induction false} NoneFirst(entries: seq<HostStatus>, host: string)
    requires forall i: nat :: !IsFirst(entries, host, i)
    ensures forall e :: e in entries ==> e.host != host
  {
    if entries != [] {
      assert !IsFirst(entries, host, 0);
      forall i: nat
        ensures !IsFirst(entries[1..], host, i)
      {
        if IsFirst(entries[1..], host, i) {
          assert IsFirst(entries, host, i + 1);
        }
      }
      NoneFirst(entries[1..], host);
      assert entries == [entries[0]] + entries[1..];
    }
  }

  /** The `i`th host tried when starting at `start`. */
  function Tried(hosts: seq<string>, start: nat, i: nat): string
    requires start < |hosts| && i < |hosts|
  {
    if start + i < |hosts| then hosts[start + i] else hosts[start + i - |hosts|]
  }

  /** The hosts are tried in order from `start` on, the first following the last. */
  lemma Wraps(hosts: seq<string>, start: nat, i: nat)
    requires start < |hosts| && i < |hosts|
    ensures 0 <= (i + start) % |hosts| < |hosts| && hosts[(i + start) % |hosts|] == Tried(hosts, start, i)
  {
    var n := |hosts|;
    if i + start >= n {
      Remainder(i + start, n);
    }
  }

  lemma Remainder(a: nat, n: nat)
    requires n <= a < 2 * n
    ensures a % n == a - n
  {
  }

  /** What is shown for a host after the first `n` tries. */
  function Shown(entries: seq<HostStatus>, hosts: seq<string>, start: nat, connects: string -> Option<string>, n: nat, host: string): Option<HostStatus>
    requires start < |hosts| && n <= |hosts|
  {
    if n == 0 then StatusOf(entries, host)
    else if Tried(hosts, start, n - 1) == host then
      match connects(host)
      case None => Some(HostStatus(host, OK, ""))
      case Some(error) => Some(HostStatus(host, FAILED, error))
    else Shown(entries, hosts, start, connects, n - 1, host)
  }

  class ProviderStatus {
    var execHosts: seq<HostStatus>

    constructor (execHosts: seq<HostStatus>)
      ensures this.execHosts == execHosts
    {
      this.execHosts := execHosts;
    }

    method SetExecHostStatus(host: string, status: string, message: string)
      modifies this
      ensures execHosts == Updated(old(execHosts), HostStatus(host, status, message))
    {
      hide StatusOf, Updated;
      ghost var s := HostStatus(host, status, message);
      for i := 0 to |execHosts|
        invariant execHosts == old(execHosts)
        invariant forall j :: 0 <= j < i ==> execHosts[j].host != host
      {
        if execHosts[i].host == host {
          EntriesMean(execHosts, s, i);
          execHosts := execHosts[i := HostStatus(host, status, message)];
          return;
        }
      }
      EntriesMean(execHosts, s, 0);
      execHosts := execHosts + [HostStatus(host, status, message)];
    }

    /** The first host that is healthy or has no status; the first of all if there is none. */
    method FirstHealthy(hosts: seq<string>) returns (idx: nat)
      requires hosts != []
      ensures idx < |hosts|
      ensures if forall h :: h in hosts ==> !Healthy(execHosts, h) then idx == 0
              else Healthy(execHosts, hosts[idx]) && forall j :: 0 <= j < idx ==> !Healthy(execHosts, hosts[j])
    {
      idx := 0;
      for i := 0 to |hosts|
        invariant idx == 0 && forall j :: 0 <= j < i ==> !Healthy(execHosts, hosts[j])
      {
        if Healthy(execHosts, hosts[i]) {
          return i;
        }
      }
    }

    /**
     * Tries the hosts from `start` on, wrapping around, until one can be
     * connected to. `connects` gives the error of a host, if any.
     */
    method TryHosts(hosts: seq<string>, start: nat, connects: string -> Option<string>) returns (r: Option<string>, ghost n: nat)
      requires start < |hosts|
      modifies this
      ensures n <= |hosts| && forall h :: StatusOf(execHosts, h) == Shown(old(execHosts), hosts, start, connects, n, h)
      ensures r.Some? ==> n > 0 && r.value == Tried(hosts, start, n - 1) && connects(r.value).None?
      ensures r.None? ==> n == |hosts|
      ensures forall j :: 0 <= j < n - (if r.Some? then 1 else 0) ==> connects(Tried(hosts, start, j)).Some?
    {
      n := 0;
      for i := 0 to |hosts|
        invariant n == i && forall h :: StatusOf(execHosts, h) == Shown(old(execHosts), hosts, start, connects, i, h)
        invariant forall j :: 0 <= j < i ==> connects(Tried(hosts, start, j)).Some?
      {
        Wraps(hosts, start, i);
        var host := hosts[(i + start) % |hosts|];
        n := n + 1;
        ghost var before := execHosts;
        match connects(host) {
          case None =>
            SetExecHostStatus(host, OK, "");
            forall h { UpdatedShows(before, HostStatus(host, OK, ""), h); }
            return Some(host), n;
          case Some(error) =>
            SetExecHostStatus(host, FAILED, error);
            forall h { UpdatedShows(before, HostStatus(host, FAILED, error), h); }
        }
      }
      r := None;
    }
  }

  /** After the tries, a host shows how it did if it was tried, and else what it showed before. */
  lemma {:induction false} ShownMeans(entries: seq<HostStatus>, hosts: seq<string>, start: nat, connects: string -> Option<string>, n: nat, host: string)
    requires start < |hosts| && n <= |hosts|
    ensures Shown(entries, hosts, start, connects, n, host) ==
      if exists j :: 0 <= j < n && Tried(hosts, start, j) == host then
        (match connects(host) case None => Some(HostStatus(host, OK, "")) case Some(error) => Some(HostStatus(host, FAILED, error)))
      else StatusOf(entries, host)
  {
    if n > 0 {
      ShownMeans(entries, hosts, start, connects, n - 1, host);
    }
  }

  /** Going round tries every host. */
  lemma AllAreTried(hosts: seq<string>, start: nat, host: string)
    requires start < |hosts| && host in hosts
    ensures exists j :: 0 <= j < |hosts| && Tried(hosts, start, j) == host
  {
    var k :| 0 <= k < |hosts| && hosts[k] == host;
    var j := if k >= start then k - start else k + |hosts| - start;
    assert Tried(hosts, start, j) == host;
  }
}
