// The WinRM workers over all interleavings: they take commands off one
// channel, keep a connection for the next command, and hand a command back to
// their outer loop when the connection does not fit it.
module WinrmWorkers {
  import opened Wrappers

  /** `id` stands for the command's own output channel. */
  datatype Command = Command(id: nat, ref: string)

  /** A connection, with the provider reference and version it was opened for. */
  datatype Conn = Conn(ref: string, version: nat)

  /** Waiting and Holding are the outer loop; the others are inside doWinrmWork. */
  datatype Worker =
    | Waiting
    | Holding(cmd: Command)
    | Sending(cmd: Command, conn: Conn)
    | Reading(cmd: Command, conn: Conn, stderr: bool)
    | Kept(conn: Conn)
    | Finished

  /** A connection taken for a command, with the version the provider had then. */
  datatype Use = Use(cmd: Command, conn: Conn, version: nat)

  /** What a worker does with a command, seen from outside. */
  datatype Event = Sent(worker: nat, cmd: Command, conn: Conn) | Answered(worker: nat, cmd: Command)

  datatype World = World(
    workers: seq<Worker>,
    providers: map<string, nat>,
    pending: set<Command>,
    closed: bool,
    received: set<nat>,
    log: seq<Event>,
    uses: seq<Use>)

  datatype Step =
    | Submit(cmd: Command)
    | Close
    | SetProvider(ref: string, version: nat)
    | DropProvider(ref: string)
    | Receive(i: nat, cmd: Command)
    | SeeClosed(i: nat)
    | NoProvider(i: nat)
    | Connect(i: nat)
    | ConnectFails(i: nat)
    | Send(i: nat)
    | SendFails(i: nat)
    | ReadStderr(i: nat)
    | ReadStdout(i: nat)
    | ReadFails(i: nat)                  // an error, or nothing read at all
    | KeepAliveOver(i: nat)
    | ReceiveKept(i: nat, cmd: Command)
    | SeeClosedKept(i: nat)

  predicate IsGlobal(s: Step) {
    s.Submit? || s.Close? || s.SetProvider? || s.DropProvider?
  }

  predicate HasConn(x: Worker, ref: string) {
    (x.Sending? || x.Reading? || x.Kept?) && x.conn.ref == ref
  }

  /** The connection was opened for the command's provider, in the version it has now. */
  predicate Fits(w: World, conn: Conn, cmd: Command) {
    conn.ref == cmd.ref && conn.ref in w.providers && w.providers[conn.ref] == conn.version
  }

  predicate Enabled(w: World, s: Step) {
    && (!IsGlobal(s) ==> s.i < |w.workers|)
    && match s
       case Submit(cmd) => !w.closed && cmd.id !in w.received && forall c :: c in w.pending ==> c.id != cmd.id
       case Close => w.pending == {}
       case SetProvider(_, _) => true
       case DropProvider(ref) => forall x :: x in w.workers ==> !HasConn(x, ref)
       case Receive(i, cmd) => w.workers[i].Waiting? && cmd in w.pending
       case SeeClosed(i) => w.workers[i].Waiting? && w.closed
       case NoProvider(i) => w.workers[i].Holding? && w.workers[i].cmd.ref !in w.providers
       case Connect(i) => w.workers[i].Holding? && w.workers[i].cmd.ref in w.providers
       case ConnectFails(i) => w.workers[i].Holding? && w.workers[i].cmd.ref in w.providers
       case Send(i) => w.workers[i].Sending?
       case SendFails(i) => w.workers[i].Sending?
       case ReadStderr(i) => w.workers[i].Reading?
       case ReadStdout(i) => w.workers[i].Reading?
       case ReadFails(i) => w.workers[i].Reading?
       case KeepAliveOver(i) => w.workers[i].Kept?
       case ReceiveKept(i, cmd) => w.workers[i].Kept? && cmd in w.pending
       case SeeClosedKept(i) => w.workers[i].Kept? && w.closed
  }

  function Become(w: World, i: nat, x: Worker): World
    requires i < |w.workers|
  {
    w.(workers := w.workers[i := x])
  }

  /** The ids of the commands answered, in order. */
  function Replies(log: seq<Event>): seq<nat> {
    if log == [] then []
    else Replies(log[..|log| - 1]) + (if log[|log| - 1].Answered? then [log[|log| - 1].cmd.id] else [])
  }

  /** The ids of the commands sent, in order. */
  function Sends(log: seq<Event>): seq<nat> {
    if log == [] then []
    else Sends(log[..|log| - 1]) + (if log[|log| - 1].Sent? then [log[|log| - 1].cmd.id] else [])
  }

  lemma {:induction false} Logged(log: seq<Event>, e: Event)
    ensures Replies(log + [e]) == Replies(log) + (if e.Answered? then [e.cmd.id] else [])
    ensures Sends(log + [e]) == Sends(log) + (if e.Sent? then [e.cmd.id] else [])
  {
    assert (log + [e])[..|log|] == log;
  }

  function Replied(w: World, i: nat, cmd: Command, x: Worker): World
    requires i < |w.workers|
  {
    Become(w, i, x).(log := w.log + [Answered(i, cmd)])
  }

  function Taken(w: World, i: nat, cmd: Command, x: Worker): World
    requires i < |w.workers|
  {
    Become(w, i, x).(pending := w.pending - {cmd}, received := w.received + {cmd.id})
  }

  function After(w: World, s: Step): World
    requires Enabled(w, s)
  {
    match s
    case Submit(cmd) => w.(pending := w.pending + {cmd})
    case Close => w.(closed := true)
    case SetProvider(ref, version) => w.(providers := w.providers[ref := version])
    case DropProvider(ref) => w.(providers := w.providers - {ref})
    case Receive(i, cmd) => Taken(w, i, cmd, Holding(cmd))
    case SeeClosed(i) => Become(w, i, Finished)
    case NoProvider(i) => Replied(w, i, w.workers[i].cmd, Waiting)
    case ConnectFails(i) => Replied(w, i, w.workers[i].cmd, Waiting)
    case Connect(i) =>
      var cmd := w.workers[i].cmd;
      var conn := Conn(cmd.ref, w.providers[cmd.ref]);
      Become(w, i, Sending(cmd, conn)).(uses := w.uses + [Use(cmd, conn, w.providers[cmd.ref])])
    case Send(i) =>
      var x := w.workers[i];
      Become(w, i, Reading(x.cmd, x.conn, false)).(log := w.log + [Sent(i, x.cmd, x.conn)])
    case SendFails(i) =>
      var x := w.workers[i];
      Become(w, i, Waiting).(log := w.log + [Sent(i, x.cmd, x.conn)] + [Answered(i, x.cmd)])
    case ReadStderr(i) => Become(w, i, w.workers[i].(stderr := true))
    case ReadStdout(i) =>
      var x := w.workers[i];
      Replied(w, i, x.cmd, if x.stderr then Waiting else Kept(x.conn))
    case ReadFails(i) => Replied(w, i, w.workers[i].cmd, Waiting)
    case KeepAliveOver(i) => Become(w, i, Waiting)
    case ReceiveKept(i, cmd) =>
      var conn := w.workers[i].conn;
      if Fits(w, conn, cmd) then
        Taken(w, i, cmd, Sending(cmd, conn)).(uses := w.uses + [Use(cmd, conn, w.providers[cmd.ref])])
      else
        Taken(w, i, cmd, Holding(cmd))
    case SeeClosedKept(i) => Become(w, i, Waiting)
  }

  // ----- the invariant ------------------------------------------------------------------------

  function Held(x: Worker): Option<Command> {
    if x.Holding? || x.Sending? || x.Reading? then Some(x.cmd) else None
  }

  predicate NoTwice(s: seq<nat>) {
    forall i, j :: 0 <= i < j < |s| ==> s[i] != s[j]
  }

  /** A held command is received, not yet answered, sent only if its output is being read, and on a connection for its provider. */
  predicate WorkerOk(w: World, x: Worker) {
    match x
    case Holding(cmd) => cmd.id in w.received && cmd.id !in Replies(w.log) && cmd.id !in Sends(w.log)
    case Sending(cmd, conn) =>
      cmd.id in w.received && cmd.id !in Replies(w.log) && cmd.id !in Sends(w.log) && Use(cmd, conn, conn.version) in w.uses
    case Reading(cmd, conn, _) =>
      cmd.id in w.received && cmd.id !in Replies(w.log) && cmd.id in Sends(w.log) && Use(cmd, conn, conn.version) in w.uses
    case _ => true
  }

  predicate HeldBySome(w: World, id: nat) {
    exists i :: 0 <= i < |w.workers| && Held(w.workers[i]).Some? && Held(w.workers[i]).value.id == id
  }

  predicate Settled(w: World) {
    && (forall id :: id in w.received ==> id in Replies(w.log) || HeldBySome(w, id))
    && (forall id :: id in Replies(w.log) ==> id in w.received)
    && (forall id :: id in Sends(w.log) ==> id in w.received)
    && (forall c :: c in w.pending ==> c.id !in w.received)
    && (forall c, d :: c in w.pending && d in w.pending && c.id == d.id ==> c == d)
  }

  predicate HeldApart(w: World) {
    forall i, j :: 0 <= i < j < |w.workers| && Held(w.workers[i]).Some? && Held(w.workers[j]).Some? ==>
      Held(w.workers[i]).value.id != Held(w.workers[j]).value.id
  }

  predicate Inv(w: World) {
    && NoTwice(Replies(w.log)) && NoTwice(Sends(w.log)) && Settled(w) && HeldApart(w)
    && (forall i :: 0 <= i < |w.workers| ==> WorkerOk(w, w.workers[i]))
    && (forall u :: u in w.uses ==> u.conn == Conn(u.cmd.ref, u.version))
    && (forall e :: e in w.log && e.Sent? ==> Use(e.cmd, e.conn, e.conn.version) in w.uses)
  }

  // ----- every step keeps it ------------------------------------------------------------------

  lemma {:induction false} GlobalStep(w: World, s: Step)
    requires Inv(w) && Enabled(w, s) && IsGlobal(s)
    ensures Inv(After(w, s))
  {
    hide NoTwice, HeldApart, Held;
    var u := After(w, s);
    assert forall id :: HeldBySome(w, id) ==> HeldBySome(u, id);
    assert HeldApart(u) by { SameWorkersApart(w, u); }
    forall i | 0 <= i < |u.workers|
      ensures WorkerOk(u, u.workers[i])
    {
      assert WorkerOk(w, w.workers[i]);
    }
  }

  lemma SameWorkersApart(w: World, u: World)
    requires HeldApart(w) && u.workers == w.workers
    ensures HeldApart(u)
  {
  }

  /** A worker that goes on with the command it holds, or without one, leaves all others held where they are. */
  lemma {:induction false} HeldAfter(w: World, i: nat, x: Worker)
    requires i < |w.workers| && HeldApart(w) && (Held(x) == Held(w.workers[i]) || Held(x) == None)
    ensures HeldApart(Become(w, i, x))
    ensures forall id :: HeldBySome(w, id) ==>
      HeldBySome(Become(w, i, x), id) || (Held(x) == None && Held(w.workers[i]).Some? && Held(w.workers[i]).value.id == id)
  {
    hide Held;
    var u := Become(w, i, x);
    forall id | HeldBySome(w, id)
      ensures HeldBySome(u, id) || (Held(x) == None && Held(w.workers[i]).Some? && Held(w.workers[i]).value.id == id)
    {
      var j :| 0 <= j < |w.workers| && Held(w.workers[j]).Some? && Held(w.workers[j]).value.id == id;
      assert j != i ==> u.workers[j] == w.workers[j];
      assert u.workers[i] == x;
    }
  }

  /** Steps inside a worker's own connection that answer nothing. */
  lemma {:induction false} QuietStep(w: World, s: Step)
    requires Inv(w) && Enabled(w, s)
    requires s.Connect? || s.Send? || s.ReadStderr? || s.KeepAliveOver? || s.SeeClosed? || s.SeeClosedKept?
    ensures Inv(After(w, s))
  {
    hide HeldApart, HeldBySome, Replies, Sends;
    var u, i := After(w, s), s.i;
    var x := u.workers[i];
    assert WorkerOk(w, w.workers[i]);
    HeldAfter(w, i, x);
    SameWorkersApart(Become(w, i, x), u);
    SameHeld(Become(w, i, x), u);
    if s.Send? {
      Logged(w.log, Sent(i, x.cmd, x.conn));
    }
    assert NoTwice(Sends(u.log));
    forall j | 0 <= j < |u.workers|
      ensures WorkerOk(u, u.workers[j])
    {
      assert WorkerOk(w, w.workers[j]);
      if j != i {
        OthersHeldApart(w, i, j);
      }
    }
  }

  lemma SameHeld(w: World, u: World)
    requires u.workers == w.workers
    ensures forall id :: HeldBySome(w, id) <==> HeldBySome(u, id)
  {
  }

  lemma OthersHeldApart(w: World, i: nat, j: nat)
    requires HeldApart(w) && i < |w.workers| && j < |w.workers| && i != j
    ensures Held(w.workers[i]).Some? && Held(w.workers[j]).Some? ==> Held(w.workers[i]).value.id != Held(w.workers[j]).value.id
  {
  }

  lemma {:induction false} ReplyStep(w: World, s: Step)
    requires Inv(w) && Enabled(w, s)
    requires s.NoProvider? || s.ConnectFails? || s.SendFails? || s.ReadStdout? || s.ReadFails?
    ensures Inv(After(w, s))
  {
    hide HeldApart, HeldBySome, Replies, Sends;
    var u, i := After(w, s), s.i;
    var x, cmd := u.workers[i], w.workers[i].cmd;
    Logged(w.log, Answered(i, cmd));
    if s.SendFails? {
      Logged(w.log, Sent(i, cmd, w.workers[i].conn));
      Logged(w.log + [Sent(i, cmd, w.workers[i].conn)], Answered(i, cmd));
    }
    assert WorkerOk(w, w.workers[i]);
    HeldAfter(w, i, x);
    SameWorkersApart(Become(w, i, x), u);
    SameHeld(Become(w, i, x), u);
    assert Held(w.workers[i]) == Some(cmd);
    assert Replies(u.log) == Replies(w.log) + [cmd.id];
    forall id | id in w.received
      ensures id in Replies(u.log) || HeldBySome(u, id)
    {
      assert id == cmd.id ==> Replies(u.log)[|Replies(w.log)|] == id;
    }
    forall j | 0 <= j < |u.workers|
      ensures WorkerOk(u, u.workers[j])
    {
      assert WorkerOk(w, w.workers[j]);
      if j != i {
        OthersHeldApart(w, i, j);
      }
    }
  }

  lemma {:induction false} TakeStep(w: World, s: Step)
    requires Inv(w) && Enabled(w, s) && (s.Receive? || s.ReceiveKept?)
    ensures Inv(After(w, s))
  {
    hide HeldApart, HeldBySome, NoTwice;
    var u, i, cmd := After(w, s), s.i, s.cmd;
    var x := u.workers[i];
    assert Held(x) == Some(cmd) && Held(w.workers[i]) == None;
    NewlyHeld(w, i, x);
    SameWorkersApart(Become(w, i, x), u);
    SameHeld(Become(w, i, x), u);
    forall j | 0 <= j < |u.workers|
      ensures WorkerOk(u, u.workers[j])
    {
      if j != i {
        assert WorkerOk(w, w.workers[j]);
      }
    }
  }

  /** A worker that takes a command nobody holds. */
  lemma {:induction false} NewlyHeld(w: World, i: nat, x: Worker)
    requires i < |w.workers| && HeldApart(w) && Held(w.workers[i]) == None && Held(x).Some?
    requires forall j :: 0 <= j < |w.workers| ==> WorkerOk(w, w.workers[j])
    requires Held(x).value.id !in w.received
    ensures HeldApart(Become(w, i, x)) && HeldBySome(Become(w, i, x), Held(x).value.id)
    ensures forall id :: HeldBySome(w, id) ==> HeldBySome(Become(w, i, x), id)
  {
    var u := Become(w, i, x);
    assert u.workers[i] == x;
    forall j | 0 <= j < |w.workers| && Held(w.workers[j]).Some?
      ensures Held(w.workers[j]).value.id in w.received && u.workers[j] == w.workers[j]
    {
      assert WorkerOk(w, w.workers[j]);
    }
    forall id | HeldBySome(w, id)
      ensures HeldBySome(u, id)
    {
      var j :| 0 <= j < |w.workers| && Held(w.workers[j]).Some? && Held(w.workers[j]).value.id == id;
      assert u.workers[j] == w.workers[j];
    }
  }

  lemma {:induction false} StepKeepsInv(w: World, s: Step)
    requires Inv(w) && Enabled(w, s)
    ensures Inv(After(w, s))
  {
    hide Inv, After;
    if IsGlobal(s) {
      GlobalStep(w, s);
    } else if s.Receive? || s.ReceiveKept? {
      TakeStep(w, s);
    } else if s.NoProvider? || s.ConnectFails? || s.SendFails? || s.ReadStdout? || s.ReadFails? {
      ReplyStep(w, s);
    } else {
      QuietStep(w, s);
    }
  }

  // ----- runs ---------------------------------------------------------------------------------

  function Init(n: nat): World {
    World(seq(n, i => Waiting), map[], {}, false, {}, [], [])
  }

  ghost predicate IsStep(w: World, u: World) {
    exists s :: Enabled(w, s) && u == After(w, s)
  }

  ghost predicate IsRun(run: seq<World>) {
    run != [] && run[0] == Init(|run[0].workers|) && forall i :: 0 <= i < |run| - 1 ==> IsStep(run[i], run[i + 1])
  }

  lemma {:induction false} RunKeepsInv(run: seq<World>, n: nat)
    requires IsRun(run) && n < |run|
    ensures Inv(run[n])
  {
    hide Enabled, After;
    if n > 0 {
      RunKeepsInv(run, n - 1);
      assert IsStep(run[n - 1], run[n - 1 + 1]);
      var s :| Enabled(run[n - 1], s) && run[n] == After(run[n - 1], s);
      StepKeepsInv(run[n - 1], s);
    }
  }

  predicate AllIdle(w: World) {
    forall x :: x in w.workers ==> Held(x) == None
  }

  /**
   * In every state of every run, a received command is either held by exactly
   * one worker and unanswered, or answered exactly once; nothing else is
   * answered, and nothing is sent twice.
   */
  lemma EveryCommandOnce(run: seq<World>, n: nat)
    requires IsRun(run) && n < |run|
    ensures var w := run[n];
      && NoTwice(Replies(w.log)) && NoTwice(Sends(w.log)) && HeldApart(w)
      && (forall id :: id in w.received ==> (id in Replies(w.log) <==> !HeldBySome(w, id)))
      && (forall id :: id in Replies(w.log) || id in Sends(w.log) ==> id in w.received)
      && (AllIdle(w) ==> forall id :: id in w.received ==> id in Replies(w.log))
  {
    hide NoTwice, HeldApart;
    var w := run[n];
    RunKeepsInv(run, n);
    forall id | HeldBySome(w, id)
      ensures id !in Replies(w.log)
    {
      var i :| 0 <= i < |w.workers| && Held(w.workers[i]).Some? && Held(w.workers[i]).value.id == id;
      assert WorkerOk(w, w.workers[i]);
    }
  }

  /**
   * Whatever is sent goes over a connection that was taken for that command,
   * opened for its provider, in the version the provider had when it was taken.
   */
  lemma ConnectionsFit(run: seq<World>, n: nat)
    requires IsRun(run) && n < |run|
    ensures forall e :: e in run[n].log && e.Sent? ==> e.conn.ref == e.cmd.ref && Use(e.cmd, e.conn, e.conn.version) in run[n].uses
  {
    hide NoTwice, HeldApart, Settled, Replies, Sends;
    RunKeepsInv(run, n);
  }

  // ----- a command in a worker's hands --------------------------------------------------------

  /** From `from` on, the first event of worker `i` is about `cmd`. */
  predicate FirstIs(log: seq<Event>, from: nat, i: nat, cmd: Command) {
    exists e :: from <= e < |log| && log[e].worker == i && log[e].cmd == cmd && NoneBefore(log, from, e, i)
  }

  predicate NoneBefore(log: seq<Event>, from: nat, e: nat, i: nat) {
    forall f :: from <= f < e && f < |log| ==> log[f].worker != i
  }

  /** The worker still has the command in its hands, or its first event was about it. */
  predicate Due(log: seq<Event>, x: Worker, from: nat, i: nat, cmd: Command) {
    || (NoneBefore(log, from, |log|, i) && (x == Holding(cmd) || (x.Sending? && x.cmd == cmd)))
    || FirstIs(log, from, i, cmd)
  }

  lemma FirstStays(log: seq<Event>, more: seq<Event>, from: nat, i: nat, cmd: Command)
    requires FirstIs(log, from, i, cmd)
    ensures FirstIs(log + more, from, i, cmd)
  {
    var e :| from <= e < |log| && log[e].worker == i && log[e].cmd == cmd && NoneBefore(log, from, e, i);
    assert (log + more)[e] == log[e];
    assert NoneBefore(log + more, from, e, i);
  }

  lemma OwnEventFirst(log: seq<Event>, more: seq<Event>, from: nat, i: nat, cmd: Command)
    requires from <= |log| && NoneBefore(log, from, |log|, i) && more != [] && more[0].worker == i && more[0].cmd == cmd
    ensures FirstIs(log + more, from, i, cmd)
  {
    assert (log + more)[|log|] == more[0];
    assert NoneBefore(log + more, from, |log|, i);
  }

  /** The events a step adds, all of one worker. */
  function Added(w: World, s: Step): (more: seq<Event>)
    requires Enabled(w, s)
    ensures After(w, s).log == w.log + more
  {
    match s
    case NoProvider(i) => [Answered(i, w.workers[i].cmd)]
    case ConnectFails(i) => [Answered(i, w.workers[i].cmd)]
    case Send(i) => [Sent(i, w.workers[i].cmd, w.workers[i].conn)]
    case SendFails(i) => [Sent(i, w.workers[i].cmd, w.workers[i].conn), Answered(i, w.workers[i].cmd)]
    case ReadStdout(i) => [Answered(i, w.workers[i].cmd)]
    case ReadFails(i) => [Answered(i, w.workers[i].cmd)]
    case _ => []
  }

  lemma StepKeepsDue(w: World, s: Step, from: nat, i: nat, cmd: Command)
    requires Enabled(w, s) && from <= |w.log| && i < |w.workers| && Due(w.log, w.workers[i], from, i, cmd)
    ensures |After(w, s).workers| == |w.workers| && from <= |After(w, s).log|
    ensures Due(After(w, s).log, After(w, s).workers[i], from, i, cmd)
  {
    hide FirstIs, Fits;
    var more := Added(w, s);
    if FirstIs(w.log, from, i, cmd) {
      FirstStays(w.log, more, from, i, cmd);
    } else if !IsGlobal(s) && s.i == i && more != [] {
      OwnEventFirst(w.log, more, from, i, cmd);
    } else {
      assert forall f :: 0 <= f < |more| ==> more[f].worker != i;
      assert NoneBefore(w.log + more, from, |w.log + more|, i);
    }
  }

  lemma {:induction false} StaysDue(run: seq<World>, n: nat, k: nat, i: nat, cmd: Command)
    requires forall j :: n <= j < |run| - 1 ==> IsStep(run[j], run[j + 1])
    requires n <= k < |run| && i < |run[n].workers| && run[n].workers[i] == Holding(cmd)
    ensures |run[k].workers| == |run[n].workers| && |run[n].log| <= |run[k].log|
    ensures Due(run[k].log, run[k].workers[i], |run[n].log|, i, cmd)
    decreases k
  {
    hide Due, Enabled, After;
    if k == n {
      DueAtFirst(run[n].log, i, cmd);
    } else {
      StaysDue(run, n, k - 1, i, cmd);
      assert IsStep(run[k - 1], run[k - 1 + 1]);
      var s :| Enabled(run[k - 1], s) && run[k] == After(run[k - 1], s);
      StepKeepsDue(run[k - 1], s, |run[n].log|, i, cmd);
    }
  }

  lemma DueAtFirst(log: seq<Event>, i: nat, cmd: Command)
    ensures Due(log, Holding(cmd), |log|, i, cmd)
  {
  }

  /**
   * A command that is handed back is processed next: in every continuation,
   * the next command its worker sends or answers is that one.
   */
  lemma HandedBackIsNext(run: seq<World>, n: nat, k: nat, i: nat, cmd: Command, e: nat)
    requires forall j :: n <= j < |run| - 1 ==> IsStep(run[j], run[j + 1])
    requires n <= k < |run| && i < |run[n].workers| && run[n].workers[i] == Holding(cmd)
    requires |run[n].log| <= e < |run[k].log| && run[k].log[e].worker == i && NoneBefore(run[k].log, |run[n].log|, e, i)
    ensures run[k].log[e].cmd == cmd
  {
    StaysDue(run, n, k, i, cmd);
    var log, from := run[k].log, |run[n].log|;
    assert FirstIs(log, from, i, cmd);
    var f :| from <= f < |log| && log[f].worker == i && log[f].cmd == cmd && NoneBefore(log, from, f, i);
  }

  // ----- after stderr -------------------------------------------------------------------------

  /** A connection is opened for the worker between two states. */
  predicate Connects(w: World, u: World, i: nat) {
    Enabled(w, Connect(i)) && u == After(w, Connect(i))
  }

  ghost predicate ConnectsSince(run: seq<World>, n: nat, k: nat, i: nat) {
    exists h :: n <= h < k < |run| && Connects(run[h], run[h + 1], i)
  }

  /** The worker is still reading the output that had stderr, or has no connection. */
  predicate Dropping(x: Worker) {
    (x.Reading? && x.stderr) || x.Waiting? || x.Holding? || x.Finished?
  }

  lemma StepKeepsDropping(w: World, s: Step, i: nat)
    requires Enabled(w, s) && i < |w.workers| && Dropping(w.workers[i])
    ensures |After(w, s).workers| == |w.workers| && (Dropping(After(w, s).workers[i]) || Connects(w, After(w, s), i))
  {
    hide Fits;
  }

  lemma {:induction false} DroppedOrConnected(run: seq<World>, n: nat, k: nat, i: nat)
    requires forall j :: n <= j < |run| - 1 ==> IsStep(run[j], run[j + 1])
    requires n <= k < |run| && i < |run[n].workers| && Dropping(run[n].workers[i])
    ensures |run[k].workers| == |run[n].workers|
    ensures Dropping(run[k].workers[i]) || ConnectsSince(run, n, k, i)
    decreases k
  {
    hide Enabled, After, Dropping, Connects, ConnectsSince;
    if k > n {
      DroppedOrConnected(run, n, k - 1, i);
      assert IsStep(run[k - 1], run[k - 1 + 1]);
      var s :| Enabled(run[k - 1], s) && run[k] == After(run[k - 1], s);
      SinceThen(run, n, k, i);
      StepGoesOn(run[k - 1], s);
      if Dropping(run[k - 1].workers[i]) {
        StepKeepsDropping(run[k - 1], s, i);
      }
    }
  }

  lemma SinceThen(run: seq<World>, n: nat, k: nat, i: nat)
    requires n < k < |run|
    ensures ConnectsSince(run, n, k - 1, i) || Connects(run[k - 1], run[k], i) ==> ConnectsSince(run, n, k, i)
  {
    hide Connects;
    if Connects(run[k - 1], run[k], i) {
      assert Connects(run[k - 1], run[k - 1 + 1], i);
    }
  }

  lemma StepGoesOn(w: World, s: Step)
    requires Enabled(w, s)
    ensures |After(w, s).workers| == |w.workers|
  {
    hide Fits;
  }

  lemma StderrDrops(w: World, i: nat)
    requires Enabled(w, ReadStderr(i))
    ensures i < |After(w, ReadStderr(i)).workers| && Dropping(After(w, ReadStderr(i)).workers[i])
  {
  }

  lemma SendingIsNotDropping(w: World, i: nat)
    requires Enabled(w, Send(i)) || Enabled(w, SendFails(i))
    ensures i < |w.workers| && !Dropping(w.workers[i])
  {
  }

  /**
   * Once a worker has read stderr, in every continuation it sends no command
   * before a connection has been opened for it anew.
   */
  lemma NothingSentAfterStderr(run: seq<World>, n: nat, k: nat, i: nat)
    requires forall j :: n <= j < |run| - 1 ==> IsStep(run[j], run[j + 1])
    requires n < k < |run| && Enabled(run[n], ReadStderr(i)) && run[n + 1] == After(run[n], ReadStderr(i))
    ensures Enabled(run[k], Send(i)) || Enabled(run[k], SendFails(i)) ==> ConnectsSince(run, n + 1, k, i)
  {
    hide *;
    StderrDrops(run[n], i);
    DroppedOrConnected(run, n + 1, k, i);
    if Enabled(run[k], Send(i)) || Enabled(run[k], SendFails(i)) {
      SendingIsNotDropping(run[k], i);
    }
  }
}
