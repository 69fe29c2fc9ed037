// One WinRM worker as the loop it is: winrmWorker and doWinrmWork, run on all
// the commands that reach the worker until the channel is closed.
module WinrmLoop {
  import opened Wrappers
  import opened WinrmWorkers

  /** One return of ReadOutput. */
  datatype Read = Error | Stdout | Stderr | Nothing

  /**
   * A command and what it meets: the providers when it is taken and when a
   * connection is opened for it, whether the keepalive of a kept connection is
   * over first, and how connecting, sending and reading go. Reads beyond the
   * listed ones time out.
   */
  datatype Arrival = Arrival(
    cmd: Command, atTake: map<string, nat>, atOpen: map<string, nat>, late: bool,
    connects: bool, sends: bool, output: seq<Read>)

  function Ids(arrivals: seq<Arrival>): seq<nat> {
    seq(|arrivals|, i requires 0 <= i < |arrivals| => arrivals[i].cmd.id)
  }

  /** The connection was opened for the provider, in the version it had when the command was taken. */
  predicate Fitting(a: Arrival, conn: Conn) {
    a.cmd.ref == conn.ref && conn.ref in a.atTake && a.atTake[conn.ref] == conn.version
  }

  /** The connection can be used for another command. */
  predicate Keeps(a: Arrival) {
    a.sends && a.output != [] && a.output[0] == Stdout
  }

  predicate Opens(a: Arrival) {
    a.cmd.ref in a.atOpen && a.connects
  }

  function ConnOf(a: Arrival): Conn
    requires Opens(a)
  {
    Conn(a.cmd.ref, a.atOpen[a.cmd.ref])
  }

  /** How many of the inputs a kept connection takes: fitting ones, and a last one that may not fit. */
  function TakenBy(inputs: seq<Arrival>, conn: Conn, keep: bool): (k: nat)
    ensures k <= |inputs|
  {
    if !keep || inputs == [] || inputs[0].late then 0
    else if Fitting(inputs[0], conn) then 1 + TakenBy(inputs[1..], conn, Keeps(inputs[0]))
    else 1
  }

  /** The last input taken does not fit. */
  predicate HandsBack(inputs: seq<Arrival>, conn: Conn, keep: bool)
    ensures HandsBack(inputs, conn, keep) ==> TakenBy(inputs, conn, keep) > 0
  {
    keep && inputs != [] && !inputs[0].late
    && (Fitting(inputs[0], conn) ==> HandsBack(inputs[1..], conn, Keeps(inputs[0])))
  }

  /** The connection's provider is there whenever the connection, kept open, takes a command. */
  predicate Stays(inputs: seq<Arrival>, conn: Conn, keep: bool) {
    keep && inputs != [] && !inputs[0].late ==>
      && conn.ref in inputs[0].atTake
      && (Fitting(inputs[0], conn) ==> Stays(inputs[1..], conn, Keeps(inputs[0])))
  }

  /** That holds of every connection the worker opens: for `inp`, if it has a command in hand, and from there on. */
  predicate AllStay(inp: Option<Arrival>, inputs: seq<Arrival>)
    decreases |inputs|, inp.Some?
  {
    if inp.None? then inputs == [] || AllStay(Some(inputs[0]), inputs[1..])
    else if !Opens(inp.value) then AllStay(None, inputs)
    else
      var conn, keep := ConnOf(inp.value), Keeps(inp.value);
      var k := TakenBy(inputs, conn, keep);
      Stays(inputs, conn, keep) && AllStay(if HandsBack(inputs, conn, keep) then Some(inputs[k - 1]) else None, inputs[k..])
  }

  /** What is sent on the connection opened for `first` when it takes `k` inputs, of which the last may be handed back. */
  function SentOf(first: Arrival, inputs: seq<Arrival>, k: nat, back: bool): seq<Arrival>
    requires k <= |inputs| && (back ==> k > 0)
  {
    [first] + inputs[..if back then k - 1 else k]
  }

  /**
   * How the connection goes, in the fields of the commands. All that follow
   * the first come in time and fit: they are for the same provider, and when
   * they are taken it has the version it had when the connection was opened.
   * Nothing follows a command that did not have output at once, without
   * stderr before it. What is handed back follows one that did, came in time,
   * and does not fit. And nothing is left that could be taken.
   */
  predicate OneConnection(first: Arrival, inputs: seq<Arrival>, k: nat, back: bool)
    requires first.cmd.ref in first.atOpen && k <= |inputs| && (back ==> k > 0)
  {
    var sent, ref, version := SentOf(first, inputs, k, back), first.cmd.ref, first.atOpen[first.cmd.ref];
    var last := sent[|sent| - 1];
    && (forall i :: 0 < i < |sent| ==>
          !sent[i].late && sent[i].cmd.ref == ref && ref in sent[i].atTake && sent[i].atTake[ref] == version)
    && (forall i :: 0 <= i < |sent| - 1 ==> sent[i].sends && sent[i].output != [] && sent[i].output[0] == Stdout)
    && (back ==>
          && last.sends && last.output != [] && last.output[0] == Stdout && !inputs[k - 1].late
          && (inputs[k - 1].cmd.ref != ref || ref !in inputs[k - 1].atTake || inputs[k - 1].atTake[ref] != version))
    && (!back && k < |inputs| && !inputs[k].late ==> !last.sends || last.output == [] || last.output[0] != Stdout)
  }

  class Worker {
    var inputs: seq<Arrival>
    var replies: seq<nat>
    var sentOn: seq<(Arrival, Conn)>

    constructor (inputs: seq<Arrival>)
      ensures this.inputs == inputs && replies == [] && sentOn == []
    {
      this.inputs, replies, sentOn := inputs, [], [];
    }

    /** Sends a command, reads its output, and answers it: `good` if with output, `keep` if the connection can be used again. */
    method Execute(a: Arrival, conn: Conn) returns (keep: bool, good: bool)
      modifies this`replies, this`sentOn
      ensures replies == old(replies) + [a.cmd.id] && sentOn == old(sentOn) + [(a, conn)]
      ensures good <==> a.sends && exists i :: 0 <= i < |a.output| && a.output[i] == Stdout && forall j :: 0 <= j < i ==> a.output[j] == Stderr
      ensures keep <==> a.sends && a.output != [] && a.output[0] == Stdout
    {
      sentOn := sentOn + [(a, conn)];
      if !a.sends {
        replies := replies + [a.cmd.id];
        return false, false;
      }
      var i, stderr := 0, false;
      while i < |a.output| && a.output[i] == Stderr
        invariant i <= |a.output| && (stderr <==> i > 0)
        invariant forall j :: 0 <= j < i ==> a.output[j] == Stderr
      {
        stderr := true;
        i := i + 1;
      }
      replies := replies + [a.cmd.id];
      good := i < |a.output| && a.output[i] == Stdout;
      keep := good && !stderr;
    }

    /**
     * One connection. All commands it takes are answered, in order and once
     * each, but for a last one that does not fit: that is handed back,
     * unanswered. Only fitting commands are sent on the connection, and none
     * after one that did not have its output at once: it is closed then, or
     * when the next command comes too late.
     */
    method DoWinrmWork(first: Arrival) returns (back: Option<Arrival>, ghost k: nat)
      requires Opens(first) ==> Stays(inputs, ConnOf(first), Keeps(first))
      modifies this
      ensures k == if Opens(first) then TakenBy(old(inputs), ConnOf(first), Keeps(first)) else 0
      ensures back.Some? <==> Opens(first) && HandsBack(old(inputs), ConnOf(first), Keeps(first))
      ensures inputs == old(inputs)[k..] && (back.Some? ==> k > 0 && back.value == old(inputs)[k - 1])
      ensures replies == old(replies) + [first.cmd.id] + Ids(old(inputs)[..if back.Some? then k - 1 else k])
      ensures !(first.cmd.ref in first.atOpen && first.connects) ==> back.None? && k == 0 && sentOn == old(sentOn)
      ensures first.cmd.ref in first.atOpen && first.connects ==>
        && sentOn == old(sentOn) + OnConn(SentOf(first, old(inputs), k, back.Some?), Conn(first.cmd.ref, first.atOpen[first.cmd.ref]))
        && OneConnection(first, old(inputs), k, back.Some?)
    {
      hide TakenBy, HandsBack, Stays, OnConn, Ids, Keeps, OneConnection;
      k := 0;
      back := None;
      var ref := first.cmd.ref;
      TakeFirst(inputs, first);
      if ref !in first.atOpen || !first.connects {
        replies := replies + [first.cmd.id];
        return;
      }
      var conn := Conn(ref, first.atOpen[ref]);
      var keep, good := Execute(first, conn);
      while keep && inputs != [] && !inputs[0].late
        invariant back.None? && k <= |old(inputs)| && inputs == old(inputs)[k..]
        invariant k + TakenBy(inputs, conn, keep) == TakenBy(old(inputs), conn, Keeps(first))
        invariant HandsBack(inputs, conn, keep) <==> HandsBack(old(inputs), conn, Keeps(first))
        invariant Stays(inputs, conn, keep) && (k == 0 ==> keep == Keeps(first))
        invariant replies == old(replies) + [first.cmd.id] + Ids(old(inputs)[..k])
        invariant sentOn == old(sentOn) + OnConn([first] + old(inputs)[..k], conn)
        decreases |inputs|
      {
        var a := inputs[0];
        TakeNext(inputs, conn);
        TakeOne(old(inputs), k, first, conn);
        inputs := inputs[1..];
        k := k + 1;
        if a.cmd.ref != ref || a.atTake[ref] != conn.version {
          back := Some(a);
          break;
        }
        keep, good := Execute(a, conn);
        KeepsMeans(a);
      }
      if back.None? {
        TakeNone(inputs, conn, keep);
      }
      SentMeans(old(inputs), first);
    }

    /** One turn of the worker with a command in hand, the one before the inputs `all[done..]`. */
    method Serve(first: Arrival, ghost all: seq<Arrival>, ghost done: nat, ghost base: seq<nat>, ghost from: nat)
      returns (inp: Option<Arrival>, ghost now: nat)
      requires 0 < done <= |all| && inputs == all[done..] && first == all[done - 1] && AllStay(Some(first), inputs)
      requires replies == base + Ids(all[..done - 1])
      requires from <= |sentOn| && forall i :: from <= i < |sentOn| ==> Allowed(sentOn[i].0, sentOn[i].1)
      modifies this
      ensures done <= now <= |all| && inputs == all[now..] && AllStay(inp, inputs)
      ensures inp.None? ==> replies == base + Ids(all[..now])
      ensures inp.Some? ==> now > done && inp.value == all[now - 1] && replies == base + Ids(all[..now - 1])
      ensures from <= |sentOn| && sentOn[..from] == old(sentOn[..from])
      ensures forall i :: from <= i < |sentOn| ==> Allowed(sentOn[i].0, sentOn[i].1)
    {
      hide *;
      StayOn(Some(first), inputs);
      ghost var k;
      inp, k := DoWinrmWork(first);
      now := done + k;
      Slices(all, done, k);
      OpensMeans(first);
      AllowedThrough(first, all[done..], k, inp.Some?, old(sentOn), sentOn, from);
      if inp.Some? {
        Slices(all, done, k - 1);
      }
    }

    /** The worker: until the channel is closed, every command it takes is answered, in order and once each. */
    method WinrmWorker()
      requires AllStay(None, inputs)
      modifies this
      ensures inputs == [] && replies == old(replies) + Ids(old(inputs))
      ensures |sentOn| >= |old(sentOn)| && sentOn[..|old(sentOn)|] == old(sentOn)
      ensures forall i :: |old(sentOn)| <= i < |sentOn| ==> Allowed(sentOn[i].0, sentOn[i].1)
    {
      hide *;
      var inp: Option<Arrival> := None;
      ghost var all, done: nat := inputs, 0;
      Slices(all, 0, 0);
      while inp.Some? || inputs != []
        invariant done <= |all| && inputs == all[done..] && AllStay(inp, inputs)
        invariant inp.None? ==> replies == old(replies) + Ids(all[..done])
        invariant inp.Some? ==> done > 0 && inp.value == all[done - 1] && replies == old(replies) + Ids(all[..done - 1])
        invariant |sentOn| >= |old(sentOn)| && sentOn[..|old(sentOn)|] == old(sentOn)
        invariant forall i :: |old(sentOn)| <= i < |sentOn| ==> Allowed(sentOn[i].0, sentOn[i].1)
        decreases |inputs|, inp.Some?
      {
        if inp.Some? {
          inp, done := Serve(inp.value, all, done, old(replies), |old(sentOn)|);
        } else {
          Slices(all, done, 1);
          StayOn(inp, inputs);
          inp := Some(inputs[0]);
          inputs := inputs[1..];
          done := done + 1;
        }
      }
      assert all[..done] == all;
    }
  }

  /** The commands, each with the connection it is sent on. */
  function OnConn(sent: seq<Arrival>, conn: Conn): (s: seq<(Arrival, Conn)>)
    ensures |s| == |sent| && forall i :: 0 <= i < |s| ==> s[i] == (sent[i], conn)
  {
    seq(|sent|, i requires 0 <= i < |sent| => (sent[i], conn))
  }

  lemma OpensMeans(a: Arrival)
    ensures Opens(a) <==> a.cmd.ref in a.atOpen && a.connects
    ensures Opens(a) ==> ConnOf(a) == Conn(a.cmd.ref, a.atOpen[a.cmd.ref])
  {
  }

  lemma KeepsMeans(a: Arrival)
    ensures Keeps(a) <==> a.sends && a.output != [] && a.output[0] == Stdout
  {
  }

  lemma TakeFirst(inputs: seq<Arrival>, first: Arrival)
    ensures inputs[..0] == [] && inputs[0..] == inputs && [first] + inputs[..0] == [first] && Ids([]) == []
    ensures Keeps(first) <==> first.sends && first.output != [] && first.output[0] == Stdout
    ensures forall conn :: OnConn([first], conn) == [(first, conn)]
  {
  }

  lemma TakeOne(inputs: seq<Arrival>, k: nat, first: Arrival, conn: Conn)
    requires k < |inputs|
    ensures Ids(inputs[..k + 1]) == Ids(inputs[..k]) + [inputs[k].cmd.id]
    ensures OnConn([first] + inputs[..k + 1], conn) == OnConn([first] + inputs[..k], conn) + [(inputs[k], conn)]
    ensures inputs[k..][0] == inputs[k] && inputs[k..][1..] == inputs[k + 1..]
  {
    assert inputs[..k + 1] == inputs[..k] + [inputs[k]];
  }

  lemma {:induction false} TakeNext(inputs: seq<Arrival>, conn: Conn)
    requires inputs != [] && !inputs[0].late && Stays(inputs, conn, true)
    ensures var a, rest := inputs[0], inputs[1..];
      && conn.ref in a.atTake
      && if a.cmd.ref == conn.ref && a.atTake[conn.ref] == conn.version then
           && TakenBy(inputs, conn, true) == 1 + TakenBy(rest, conn, Keeps(a))
           && (HandsBack(inputs, conn, true) <==> HandsBack(rest, conn, Keeps(a)))
           && Stays(rest, conn, Keeps(a))
         else TakenBy(inputs, conn, true) == 1 && HandsBack(inputs, conn, true)
  {
  }

  lemma {:induction false} TakeNone(inputs: seq<Arrival>, conn: Conn, keep: bool)
    requires !keep || inputs == [] || inputs[0].late
    ensures TakenBy(inputs, conn, keep) == 0 && !HandsBack(inputs, conn, keep)
  {
  }

  /**
   * Which inputs a kept connection takes, in the fields of the commands: each
   * comes in time, each before the last fits and has its output at once; the
   * last does not fit if it is handed back, and fits if not; and none is left
   * that could be taken.
   */
  lemma {:induction false} TakenMeans(inputs: seq<Arrival>, conn: Conn, keep: bool)
    ensures var k := TakenBy(inputs, conn, keep); var n := if HandsBack(inputs, conn, keep) then k - 1 else k;
      && (k > 0 ==> keep) && (forall i :: 0 <= i < k ==> !inputs[i].late)
      && (forall i :: 0 <= i < n ==> inputs[i].cmd.ref == conn.ref && conn.ref in inputs[i].atTake && inputs[i].atTake[conn.ref] == conn.version)
      && (forall i :: 0 <= i < k - 1 ==> inputs[i].sends && inputs[i].output != [] && inputs[i].output[0] == Stdout)
      && (n < k ==> inputs[n].cmd.ref != conn.ref || conn.ref !in inputs[n].atTake || inputs[n].atTake[conn.ref] != conn.version)
      && (n == k < |inputs| && !inputs[k].late ==>
            if k == 0 then !keep else !inputs[k - 1].sends || inputs[k - 1].output == [] || inputs[k - 1].output[0] != Stdout)
  {
    if keep && inputs != [] && !inputs[0].late && Fitting(inputs[0], conn) {
      TakenMeans(inputs[1..], conn, Keeps(inputs[0]));
    }
  }

  lemma {:induction false} SentMeans(inputs: seq<Arrival>, first: Arrival)
    requires Opens(first)
    ensures OneConnection(first, inputs, TakenBy(inputs, ConnOf(first), Keeps(first)), HandsBack(inputs, ConnOf(first), Keeps(first)))
  {
    hide TakenBy, HandsBack;
    TakenMeans(inputs, ConnOf(first), Keeps(first));
  }

  /** The connection was opened for this command, or fits it. */
  predicate Allowed(a: Arrival, conn: Conn) {
    (Opens(a) && conn == ConnOf(a)) || Fitting(a, conn)
  }

  lemma StayOn(inp: Option<Arrival>, inputs: seq<Arrival>)
    requires AllStay(inp, inputs)
    ensures inp.None? && inputs != [] ==> AllStay(Some(inputs[0]), inputs[1..])
    ensures inp.Some? && !Opens(inp.value) ==> AllStay(None, inputs[0..])
    ensures inp.Some? && Opens(inp.value) ==>
      var conn, keep := ConnOf(inp.value), Keeps(inp.value);
      var k := TakenBy(inputs, conn, keep);
      Stays(inputs, conn, keep) && AllStay(if HandsBack(inputs, conn, keep) then Some(inputs[k - 1]) else None, inputs[k..])
  {
    hide Opens, Keeps, TakenBy, HandsBack, Stays;
    assert inputs[0..] == inputs;
  }

  /** Taking `k` inputs after the first `n`; the last of the `n` is being worked on. */
  lemma Slices(inputs: seq<Arrival>, n: nat, k: nat)
    requires n + k <= |inputs|
    ensures inputs[n..][k..] == inputs[n + k..] && (k > 0 ==> inputs[n..][k - 1] == inputs[n + k - 1] && inputs[n..][0] == inputs[n])
    ensures Ids(inputs[..0]) == [] && inputs[0..] == inputs
    ensures n > 0 ==> Ids(inputs[..n - 1]) + [inputs[n - 1].cmd.id] + Ids(inputs[n..][..k]) == Ids(inputs[..n + k])
  {
    assert inputs[n..][..k] == inputs[n..n + k];
  }

  /** What a connection adds is allowed: its own first command, and commands that fit. */
  lemma AllowedThrough(first: Arrival, inputs: seq<Arrival>, k: nat, back: bool, was: seq<(Arrival, Conn)>, now: seq<(Arrival, Conn)>, from: nat)
    requires from <= |was| && forall i :: from <= i < |was| ==> Allowed(was[i].0, was[i].1)
    requires k <= |inputs| && (back ==> k > 0)
    requires !Opens(first) ==> now == was
    requires Opens(first) ==> now == was + OnConn(SentOf(first, inputs, k, back), ConnOf(first)) && OneConnection(first, inputs, k, back)
    ensures |was| <= |now| && now[..from] == was[..from]
    ensures forall i :: from <= i < |now| ==> Allowed(now[i].0, now[i].1)
  {
    if Opens(first) {
      var sent := SentOf(first, inputs, k, back);
      forall i | |was| <= i < |now|
        ensures Allowed(now[i].0, now[i].1)
      {
        assert now[i] == (sent[i - |was|], ConnOf(first));
      }
    }
  }
}
