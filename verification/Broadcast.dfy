/** Fan-out in the single-process broadcast server: loop threads interleave at every lock, queue and
    send operation. Proved: all connections see one global order of messages. */
module Broadcast {

  type Loop = nat
  type Conn = nat
  datatype Text = Text(sender: string, content: string)

  /** onTextMessage between taking and releasing loops_mutex_: the loops it still has to queue to. */
  datatype FanOut = Free | Queueing(message: Text, pending: set<Loop>)

  /** distributeTextMessage in its loop: the connections it still has to send to. */
  datatype Sending = Sending(message: Text, todo: set<Conn>)

  /** Bookkeeping for the statements below; no step depends on it. */
  datatype History = History(
    sent: seq<Text>,              // all messages, in the order their handlers took loops_mutex_
    position: map<Loop, nat>,     // how much of sent each loop has begun to distribute or skipped
    home: map<Conn, Loop>,        // the loop each connection belongs to
    since: map<Conn, nat>,        // the position of its loop when the connection came up
    sentBefore: map<Conn, nat>)   // how many messages had been sent when the connection came up

  datatype State = State(
    loops: set<Loop>,                 // loops_
    fanOut: FanOut,                   // who holds loops_mutex_, and where it is
    queue: map<Loop, seq<Text>>,      // functors queued in each loop
    busy: map<Loop, Sending>,         // the functor a loop is running
    local: map<Loop, set<Conn>>,      // LocalConnections of each loop's thread
    received: map<Conn, seq<Text>>,   // what was sent on each connection, up or down
    history: History)

  const INITIAL := State({}, Free, map[], map[], map[], map[], History([], map[], map[], map[], map[]))

  /** One step of one thread. */
  datatype Action =
    | ThreadInit(loop: Loop)
    | Up(loop: Loop, conn: Conn)
    | Down(loop: Loop, conn: Conn)
    | Lock(message: Text)      // onTextMessage takes the mutex
    | Queue(loop: Loop)        // ... queues to one more loop, in any order
    | Unlock                   // ... and is done
    | Begin(loop: Loop)        // the loop takes its next functor
    | Send(loop: Loop, conn: Conn)
    | End(loop: Loop)

  predicate Enabled(s: State, a: Action)
  {
    match a
    case ThreadInit(l) => s.fanOut.Free? && l !in s.loops
    case Up(l, c) => l in s.loops && l in s.local && l !in s.busy && c !in s.received
    case Down(l, c) => l in s.loops && l in s.local && l !in s.busy && c in s.local[l]
    case Lock(m) => s.fanOut.Free?
    case Queue(l) => s.fanOut.Queueing? && l in s.fanOut.pending && l in s.queue
    case Unlock => s.fanOut.Queueing? && s.fanOut.pending == {}
    case Begin(l) => l !in s.busy && l in s.local && l in s.queue && s.queue[l] != []
    case Send(l, c) => l in s.busy && c in s.busy[l].todo && c in s.received
    case End(l) => l in s.busy && s.busy[l].todo == {}
  }

  function Position(h: History, l: Loop): nat
  {
    if l in h.position then h.position[l] else 0
  }

  function Do(s: State, a: Action): State
    requires Enabled(s, a)
  {
    var h := s.history;
    match a
    case ThreadInit(l) =>
      s.(loops := s.loops + {l}, queue := s.queue[l := []], local := s.local[l := {}],
         history := h.(position := h.position[l := |h.sent|]))
    case Up(l, c) =>
      s.(local := s.local[l := s.local[l] + {c}], received := s.received[c := []],
         history := h.(home := h.home[c := l],
                       since := h.since[c := Position(h, l)],
                       sentBefore := h.sentBefore[c := |h.sent|]))
    case Down(l, c) => s.(local := s.local[l := s.local[l] - {c}])
    case Lock(m) => s.(fanOut := Queueing(m, s.loops), history := h.(sent := h.sent + [m]))
    case Queue(l) =>
      s.(fanOut := Queueing(s.fanOut.message, s.fanOut.pending - {l}),
         queue := s.queue[l := s.queue[l] + [s.fanOut.message]])
    case Unlock => s.(fanOut := Free)
    case Begin(l) =>
      s.(queue := s.queue[l := s.queue[l][1..]], busy := s.busy[l := Sending(s.queue[l][0], s.local[l])],
         history := h.(position := h.position[l := Position(h, l) + 1]))
    case Send(l, c) =>
      s.(busy := s.busy[l := Sending(s.busy[l].message, s.busy[l].todo - {c})],
         received := s.received[c := s.received[c] + [s.busy[l].message]])
    case End(l) => s.(busy := s.busy - {l})
  }

  /** Every interleaving is a sequence of actions; one that is not enabled when its turn comes has no effect. */
  function Next(s: State, a: Action): State
  {
    if Enabled(s, a) then Do(s, a) else s
  }

  function Exec(s: State, run: seq<Action>): State
    decreases |run|
  {
    if run == [] then s else Next(Exec(s, run[..|run| - 1]), run[|run| - 1])
  }

  // ---------------------------------------------------------------------- invariant

  ghost predicate PendingAt(s: State, l: Loop)
  {
    s.fanOut.Queueing? && l in s.fanOut.pending
  }

  /** How many messages have been queued to the loop, or were sent before it joined. */
  ghost function QueuedTo(s: State, l: Loop): int
  {
    |s.history.sent| - if PendingAt(s, l) then 1 else 0
  }

  ghost predicate LoopOk(s: State, l: Loop)
  {
    && l in s.queue && l in s.local && l in s.history.position
    && s.history.position[l] + |s.queue[l]| == QueuedTo(s, l)
    && (forall k :: 0 <= k < |s.queue[l]| ==> s.queue[l][k] == s.history.sent[s.history.position[l] + k])
    && (forall c :: c in s.local[l] ==> c in s.received && c in s.history.home && s.history.home[c] == l)
  }

  ghost predicate BusyOk(s: State, l: Loop)
    requires l in s.busy
  {
    && l in s.loops && LoopOk(s, l)
    && 0 < s.history.position[l] && s.busy[l].message == s.history.sent[s.history.position[l] - 1]
    && s.busy[l].todo <= s.local[l]
  }

  /** The block of the order that starts at the given position. */
  ghost predicate Window(block: seq<Text>, order: seq<Text>, start: nat)
  {
    start + |block| <= |order| && forall k :: 0 <= k < |block| ==> block[k] == order[start + k]
  }

  /** What a connection received is a contiguous block of the global order. */
  ghost predicate BlockOk(s: State, c: Conn)
    requires c in s.received
  {
    && c in s.history.since && c in s.history.sentBefore
    && s.history.since[c] <= s.history.sentBefore[c] <= |s.history.sent|
    && Window(s.received[c], s.history.sent, s.history.since[c])
  }

  /** A connection that is up has received everything its loop has distributed since it came up. */
  ghost predicate UpToDate(s: State, l: Loop, c: Conn)
    requires LoopOk(s, l) && c in s.local[l]
  {
    && c in s.history.since
    && s.history.since[c] + |s.received[c]|
       + (if l in s.busy && c in s.busy[l].todo then 1 else 0) == s.history.position[l]
  }

  ghost predicate FanOutOk(s: State)
  {
    s.fanOut.Queueing? ==>
      s.history.sent != [] && s.fanOut.message == s.history.sent[|s.history.sent| - 1] && s.fanOut.pending <= s.loops
  }

  ghost predicate Inv(s: State)
  {
    && FanOutOk(s) && s.local.Keys == s.loops && s.queue.Keys == s.loops
    && (forall l {:trigger LoopOk(s, l)} :: l in s.loops ==> LoopOk(s, l))
    && (forall l {:trigger BusyOk(s, l)} :: l in s.busy ==> BusyOk(s, l))
    && (forall c {:trigger BlockOk(s, c)} :: c in s.received ==> BlockOk(s, c))
    && (forall l, c {:trigger UpToDate(s, l, c)} :: l in s.loops && c in s.local[l] ==> UpToDate(s, l, c))
  }

  lemma LoopStaysOk(s: State, a: Action, l: Loop)
    requires Inv(s) && Enabled(s, a) && l in Do(s, a).loops
    ensures LoopOk(Do(s, a), l)
  {
    assert l in s.loops ==> LoopOk(s, l);
  }

  lemma BusyStaysOk(s: State, a: Action, l: Loop)
    requires Inv(s) && Enabled(s, a) && l in Do(s, a).busy
    ensures BusyOk(Do(s, a), l)
  {
    assert l in s.busy ==> BusyOk(s, l);
    assert l in s.loops;
    assert LoopOk(s, l);
    LoopStaysOk(s, a, l);
  }

  lemma BlockStaysOk(s: State, a: Action, c: Conn)
    requires Inv(s) && Enabled(s, a) && c in Do(s, a).received
    ensures BlockOk(Do(s, a), c)
  {
    assert c in s.received ==> BlockOk(s, c);
    if a.Up? {
      assert LoopOk(s, a.loop);
    }
    if a.Send? {
      assert BusyOk(s, a.loop) && UpToDate(s, a.loop, a.conn);
    }
  }

  lemma StaysUpToDate(s: State, a: Action, l: Loop, c: Conn)
    requires Inv(s) && Enabled(s, a) && l in Do(s, a).loops && LoopOk(Do(s, a), l) && c in Do(s, a).local[l]
    ensures UpToDate(Do(s, a), l, c)
  {
    if l in s.loops && c in s.local[l] {
      assert LoopOk(s, l) && UpToDate(s, l, c);
    }
    if a.Send? {
      assert BusyOk(s, a.loop);
    }
  }

  lemma FanOutStaysOk(s: State, a: Action)
    requires FanOutOk(s) && s.local.Keys == s.loops && s.queue.Keys == s.loops && Enabled(s, a)
    ensures var t := Do(s, a); FanOutOk(t) && t.local.Keys == t.loops && t.queue.Keys == t.loops
  {
  }

  lemma StepKeepsInv(s: State, a: Action)
    requires Inv(s) && Enabled(s, a)
    ensures Inv(Do(s, a))
  {
    var t := Do(s, a);
    FanOutStaysOk(s, a);
    forall l | l in t.loops
      ensures LoopOk(t, l)
      ensures forall c :: c in t.local[l] ==> UpToDate(t, l, c)
    {
      LoopStaysOk(s, a, l);
      forall c | c in t.local[l]
        ensures UpToDate(t, l, c)
      {
        StaysUpToDate(s, a, l, c);
      }
    }
    forall l | l in t.busy
      ensures BusyOk(t, l)
    {
      BusyStaysOk(s, a, l);
    }
    forall c | c in t.received
      ensures BlockOk(t, c)
    {
      BlockStaysOk(s, a, c);
    }
  }

  lemma {:induction false} RunKeepsInv(run: seq<Action>)
    ensures Inv(Exec(INITIAL, run))
    decreases |run|
  {
    if run != [] {
      var front, last := run[..|run| - 1], run[|run| - 1];
      RunKeepsInv(front);
      if Enabled(Exec(INITIAL, front), last) {
        StepKeepsInv(Exec(INITIAL, front), last);
      }
    }
  }

  // --------------------------------------------------------------------- statements

  /** The messages of a run in the order in which their handlers took loops_mutex_. */
  function LockOrder(run: seq<Action>): seq<Text>
    decreases |run|
  {
    if run == [] then []
    else
      var front, last := run[..|run| - 1], run[|run| - 1];
      if last.Lock? && Enabled(Exec(INITIAL, front), last) then LockOrder(front) + [last.message] else LockOrder(front)
  }

  lemma OnlyLockSends(s: State, a: Action)
    ensures Next(s, a).history.sent
         == if a.Lock? && Enabled(s, a) then s.history.sent + [a.message] else s.history.sent
  {
  }

  lemma {:induction false} SentIsLockOrder(run: seq<Action>)
    ensures Exec(INITIAL, run).history.sent == LockOrder(run)
    decreases |run|
  {
    if run != [] {
      SentIsLockOrder(run[..|run| - 1]);
      OnlyLockSends(Exec(INITIAL, run[..|run| - 1]), run[|run| - 1]);
    }
  }

  /** Total-order broadcast: in every interleaving, what any connection received is a contiguous block
      of the one lock order, starting no later than the first message sent after it came up. */
  lemma TotalOrder(run: seq<Action>, c: Conn)
    requires c in Exec(INITIAL, run).received
    ensures var s, order := Exec(INITIAL, run), LockOrder(run);
            && c in s.history.since && c in s.history.sentBefore
            && s.history.since[c] <= s.history.sentBefore[c]
            && Window(s.received[c], order, s.history.since[c])
  {
    RunKeepsInv(run);
    SentIsLockOrder(run);
    assert BlockOk(Exec(INITIAL, run), c);
  }

  ghost predicate AgreeShifted(a: seq<Text>, b: seq<Text>, shift: int)
  {
    forall i :: 0 <= i < |a| && 0 <= i + shift < |b| ==> a[i] == b[i + shift]
  }

  /** Any two connections agree on the order of the messages both receive: their sequences are two windows on
      the same order, as far apart as their starts. */
  lemma ConnectionsAgree(run: seq<Action>, c: Conn, d: Conn)
    requires c in Exec(INITIAL, run).received && d in Exec(INITIAL, run).received
    ensures var s := Exec(INITIAL, run);
            && c in s.history.since && d in s.history.since
            && AgreeShifted(s.received[c], s.received[d], s.history.since[c] as int - s.history.since[d] as int)
  {
    RunKeepsInv(run);
    assert BlockOk(Exec(INITIAL, run), c) && BlockOk(Exec(INITIAL, run), d);
  }

  lemma StartStays(s: State, a: Action, c: Conn)
    requires c in s.received && c in s.history.since && Enabled(s, a)
    ensures c in Do(s, a).received && c in Do(s, a).history.since && Do(s, a).history.since[c] == s.history.since[c]
  {
  }

  /** A connection's start is fixed when it comes up, so two connections stay the same distance apart for good. */
  lemma {:induction false} StartIsFixed(s: State, run: seq<Action>, c: Conn)
    requires c in s.received && c in s.history.since
    ensures var t := Exec(s, run);
            c in t.received && c in t.history.since && t.history.since[c] == s.history.since[c]
    decreases |run|
  {
    if run != [] {
      var front, a := run[..|run| - 1], run[|run| - 1];
      StartIsFixed(s, front, c);
      if Enabled(Exec(s, front), a) {
        StartStays(Exec(s, front), a, c);
      }
    }
  }

  // -------------------------------------------------------------------- up and down

  /** The connection came up in this loop in the course of the run, and has not gone down. */
  ghost predicate IsUp(run: seq<Action>, l: Loop, c: Conn)
    decreases |run|
  {
    && run != []
    && var front, a := run[..|run| - 1], run[|run| - 1];
       if Enabled(Exec(INITIAL, front), a) && (a == Up(l, c) || a == Down(l, c)) then a.Up? else IsUp(front, l, c)
  }

  lemma UpStep(s: State, a: Action, l: Loop, c: Conn)
    requires Inv(s) && Enabled(s, a)
    ensures var t := Do(s, a);
            l in t.local && c in t.local[l] <==> a == Up(l, c) || (a != Down(l, c) && l in s.local && c in s.local[l])
  {
  }

  /** A loop holds exactly the connections that came up in it and have not gone down. */
  lemma {:induction false} UpExactly(run: seq<Action>, l: Loop, c: Conn)
    ensures var s := Exec(INITIAL, run); l in s.local && c in s.local[l] <==> IsUp(run, l, c)
    decreases |run|
  {
    if run != [] {
      var front, a := run[..|run| - 1], run[|run| - 1];
      UpExactly(front, l, c);
      RunKeepsInv(front);
      if Enabled(Exec(INITIAL, front), a) {
        UpStep(Exec(INITIAL, front), a, l, c);
      }
    }
  }

  /** The connection was up, and no loop holds it. */
  ghost predicate IsGone(s: State, c: Conn)
  {
    c in s.received && forall l :: l in s.local ==> c !in s.local[l]
  }

  lemma DownStep(s: State, l: Loop, c: Conn)
    requires Inv(s) && Enabled(s, Down(l, c))
    ensures IsGone(Do(s, Down(l, c)), c) && Do(s, Down(l, c)).received == s.received
  {
    var t := Do(s, Down(l, c));
    assert LoopOk(s, l);
    forall m | m in t.local
      ensures c !in t.local[m]
    {
      assert LoopOk(s, m);
    }
  }

  lemma GoneStep(s: State, a: Action, c: Conn)
    requires Inv(s) && IsGone(s, c) && Enabled(s, a)
    ensures IsGone(Do(s, a), c) && Do(s, a).received[c] == s.received[c]
  {
    if a.Send? {
      assert BusyOk(s, a.loop);
    }
  }

  lemma {:induction false} StaysGone(s: State, rest: seq<Action>, c: Conn)
    requires Inv(s) && IsGone(s, c)
    ensures var t := Exec(s, rest); Inv(t) && IsGone(t, c) && t.received[c] == s.received[c]
    decreases |rest|
  {
    if rest != [] {
      var front, a := rest[..|rest| - 1], rest[|rest| - 1];
      StaysGone(s, front, c);
      if Enabled(Exec(s, front), a) {
        GoneStep(Exec(s, front), a, c);
        StepKeepsInv(Exec(s, front), a);
      }
    }
  }

  /** After a connection went down no loop ever holds it again, and nothing more is sent on it. */
  lemma NothingAfterDown(before: seq<Action>, l: Loop, c: Conn, rest: seq<Action>)
    requires Enabled(Exec(INITIAL, before), Down(l, c))
    ensures var s, t := Exec(INITIAL, before), Exec(INITIAL, before + [Down(l, c)] + rest);
            && c in s.received && c in t.received && t.received[c] == s.received[c]
            && forall m :: m in t.local ==> c !in t.local[m]
  {
    var s := Exec(INITIAL, before);
    RunKeepsInv(before);
    DownStep(s, l, c);
    StepKeepsInv(s, Down(l, c));
    ExecSnoc(INITIAL, before, Down(l, c));
    StaysGone(Do(s, Down(l, c)), rest, c);
    ExecConcat(INITIAL, before + [Down(l, c)], rest);
  }

  ghost predicate Quiet(s: State)
  {
    s.fanOut.Free? && s.busy == map[] && forall l :: l in s.queue ==> s.queue[l] == []
  }

  /** Once every queue has drained, a connection that is still up has received everything sent since it
      came up, to the last message. */
  lemma NothingIsLost(run: seq<Action>, l: Loop, c: Conn)
    requires Quiet(Exec(INITIAL, run))
    requires l in Exec(INITIAL, run).local && c in Exec(INITIAL, run).local[l]
    ensures var s, order := Exec(INITIAL, run), LockOrder(run);
            && c in s.received && c in s.history.since && c in s.history.sentBefore
            && s.history.since[c] <= s.history.sentBefore[c] <= |order|
            && s.received[c] == order[s.history.since[c]..]
  {
    var s := Exec(INITIAL, run);
    RunKeepsInv(run);
    SentIsLockOrder(run);
    assert LoopOk(s, l) && UpToDate(s, l, c) && BlockOk(s, c);
  }

  lemma {:induction false} StaysUp(before: seq<Action>, l: Loop, c: Conn, rest: seq<Action>)
    requires IsUp(before, l, c) && Down(l, c) !in rest
    ensures IsUp(before + rest, l, c)
    decreases |rest|
  {
    if rest == [] {
      assert before + rest == before;
    } else {
      var n := |rest| - 1;
      assert (before + rest)[..|before + rest| - 1] == before + rest[..n];
      assert rest[n] in rest;
      StaysUp(before, l, c, rest[..n]);
    }
  }

  lemma {:induction false} SentBeforeStays(s: State, rest: seq<Action>, c: Conn)
    requires c in s.received && c in s.history.sentBefore
    ensures var t := Exec(s, rest);
            c in t.received && c in t.history.sentBefore && t.history.sentBefore[c] == s.history.sentBefore[c]
    decreases |rest|
  {
    if rest != [] {
      SentBeforeStays(s, rest[..|rest| - 1], c);
    }
  }

  /** Once every queue has drained, a connection that came up, and has not gone down, has received everything sent
      after it came up, and before that only the last messages sent, in the order of the lock and each once. */
  lemma EverythingAfterUp(before: seq<Action>, l: Loop, c: Conn, rest: seq<Action>)
    requires Enabled(Exec(INITIAL, before), Up(l, c)) && Down(l, c) !in rest
    requires Quiet(Exec(INITIAL, before + [Up(l, c)] + rest))
    ensures var run := before + [Up(l, c)] + rest;
            && c in Exec(INITIAL, run).received && |LockOrder(before)| <= |LockOrder(run)|
            && exists start :: 0 <= start <= |LockOrder(before)| && Exec(INITIAL, run).received[c] == LockOrder(run)[start..]
  {
    var up := before + [Up(l, c)];
    assert up[..|before|] == before;
    SentIsLockOrder(before);
    StaysUp(up, l, c, rest);
    UpExactly(up + rest, l, c);
    ExecSnoc(INITIAL, before, Up(l, c));
    ExecConcat(INITIAL, up, rest);
    SentBeforeStays(Exec(INITIAL, up), rest, c);
    NothingIsLost(up + rest, l, c);
  }

  // ------------------------------------------------------------------------- draining

  /** Nothing new comes from outside: nobody sends, connects or disconnects. */
  predicate NoRequest(a: Action)
  {
    a.Queue? || a.Unlock? || a.Begin? || a.Send? || a.End?
  }

  predicate NoRequests(run: seq<Action>)
  {
    forall k :: 0 <= k < |run| ==> NoRequest(run[k])
  }

  lemma {:induction false} ExecConcat(s: State, a: seq<Action>, b: seq<Action>)
    ensures Exec(s, a + b) == Exec(Exec(s, a), b)
    decreases |b|
  {
    if b == [] {
      assert a + b == a;
    } else {
      ExecConcat(s, a, b[..|b| - 1]);
      assert (a + b)[..|a + b| - 1] == a + b[..|b| - 1];
    }
  }

  lemma ExecOne(s: State, a: Action)
    ensures Exec(s, [a]) == Next(s, a)
  {
    assert [a][..0] == [];
  }

  /** The handler that holds the mutex can queue to all its loops and release it. */
  lemma {:induction false} FanOutCanEnd(s: State) returns (run: seq<Action>)
    requires Inv(s)
    ensures NoRequests(run) && Inv(Exec(s, run)) && Exec(s, run).fanOut.Free?
    decreases if s.fanOut.Free? then 0 else |s.fanOut.pending| + 1
  {
    run := [];
    if s.fanOut.Queueing? {
      var step := Unlock;
      if l :| l in s.fanOut.pending {
        assert LoopOk(s, l);
        step := Queue(l);
      }
      ExecOne(s, step);
      StepKeepsInv(s, step);
      var rest := FanOutCanEnd(Do(s, step));
      ExecConcat(s, [step], rest);
      run := [step] + rest;
    }
  }

  /** What a run of one loop leaves alone. */
  ghost predicate OnlyLoop(s: State, t: State, l: Loop)
  {
    && t.loops == s.loops && t.fanOut == s.fanOut
    && t.busy.Keys + {l} == s.busy.Keys + {l}
    && t.queue.Keys == s.queue.Keys && forall m :: m in s.queue && m != l ==> t.queue[m] == s.queue[m]
  }

  /** A loop in the middle of a functor can send to all its connections. */
  lemma {:induction false} SendingCanEnd(s: State, l: Loop) returns (run: seq<Action>)
    requires Inv(s) && l in s.busy
    ensures NoRequests(run) && Inv(Exec(s, run))
    ensures OnlyLoop(s, Exec(s, run), l) && l !in Exec(s, run).busy && Exec(s, run).queue == s.queue
    decreases |s.busy[l].todo|
  {
    assert BusyOk(s, l);
    var step := End(l);
    if c :| c in s.busy[l].todo {
      step := Send(l, c);
    }
    ExecOne(s, step);
    StepKeepsInv(s, step);
    run := [step];
    if step.Send? {
      var rest := SendingCanEnd(Do(s, step), l);
      ExecConcat(s, [step], rest);
      run := [step] + rest;
    }
  }

  lemma FunctorCanEnd(s: State, l: Loop) returns (run: seq<Action>)
    requires Inv(s) && l in s.loops && l !in s.busy && l in s.queue && s.queue[l] != []
    ensures NoRequests(run) && Inv(Exec(s, run))
    ensures var t := Exec(s, run); OnlyLoop(s, t, l) && l in t.queue && t.queue[l] == s.queue[l][1..] && l !in t.busy
  {
    ExecOne(s, Begin(l));
    StepKeepsInv(s, Begin(l));
    var send := SendingCanEnd(Do(s, Begin(l)), l);
    ExecConcat(s, [Begin(l)], send);
    run := [Begin(l)] + send;
  }

  /** A loop can run all its functors. */
  lemma {:induction false} LoopCanEmpty(s: State, l: Loop) returns (run: seq<Action>)
    requires Inv(s) && l in s.loops && l !in s.busy && l in s.queue
    ensures NoRequests(run) && Inv(Exec(s, run))
    ensures var t := Exec(s, run); OnlyLoop(s, t, l) && l in t.queue && t.queue[l] == [] && l !in t.busy
    decreases |s.queue[l]|
  {
    run := [];
    if s.queue[l] != [] {
      var first := FunctorCanEnd(s, l);
      var rest := LoopCanEmpty(Exec(s, first), l);
      ExecConcat(s, first, rest);
      run := first + rest;
    }
  }

  /** The loops that still have something to do. */
  function Working(s: State): set<Loop>
  {
    set l | l in s.loops && (l in s.busy || (l in s.queue && s.queue[l] != []))
  }

  lemma LoopCanRest(s: State, l: Loop) returns (run: seq<Action>)
    requires Inv(s) && l in s.loops
    ensures NoRequests(run) && Inv(Exec(s, run))
    ensures var t := Exec(s, run); OnlyLoop(s, t, l) && l in t.queue && t.queue[l] == [] && l !in t.busy
  {
    var first := [];
    if l in s.busy {
      first := SendingCanEnd(s, l);
    }
    var rest := LoopCanEmpty(Exec(s, first), l);
    ExecConcat(s, first, rest);
    run := first + rest;
  }

  lemma {:induction false} LoopsCanRest(s: State) returns (run: seq<Action>)
    requires Inv(s) && s.fanOut.Free?
    ensures NoRequests(run) && Inv(Exec(s, run)) && Exec(s, run).fanOut.Free? && Working(Exec(s, run)) == {}
    decreases |Working(s)|
  {
    run := [];
    if l :| l in Working(s) {
      var first := LoopCanRest(s, l);
      assert Working(Exec(s, first)) == Working(s) - {l};
      var rest := LoopsCanRest(Exec(s, first));
      ExecConcat(s, first, rest);
      run := first + rest;
    }
  }

  /** From every reachable state, with nobody sending, connecting or disconnecting, all queues can drain; then
      every connection that is up has received everything sent since it came up. */
  lemma CanBecomeQuiet(before: seq<Action>) returns (run: seq<Action>)
    ensures NoRequests(run) && Quiet(Exec(INITIAL, before + run))
  {
    RunKeepsInv(before);
    var s := Exec(INITIAL, before);
    var fanOut := FanOutCanEnd(s);
    var loops := LoopsCanRest(Exec(s, fanOut));
    ExecConcat(s, fanOut, loops);
    ExecConcat(INITIAL, before, fanOut + loops);
    run := fanOut + loops;
    RestIsQuiet(Exec(s, run));
  }

  lemma RestIsQuiet(s: State)
    requires Inv(s) && s.fanOut.Free? && Working(s) == {}
    ensures Quiet(s)
  {
    forall l | l in s.loops
      ensures l !in s.busy && (l in s.queue ==> s.queue[l] == [])
    {
      assert l !in Working(s);
    }
    forall l
      ensures l in s.busy ==> l in s.loops
    {
      assert l in s.busy ==> BusyOk(s, l);
    }
    assert s.busy.Keys == {};
  }

  // ------------------------------------------------------------------------- server

  function QueueAll(order: seq<Loop>): (run: seq<Action>)
    ensures |run| == |order|
  {
    seq(|order|, i requires 0 <= i < |order| => Queue(order[i]))
  }

  function SendAll(l: Loop, order: seq<Conn>): (run: seq<Action>)
    ensures |run| == |order|
  {
    seq(|order|, i requires 0 <= i < |order| => Send(l, order[i]))
  }

  lemma ExecSnoc(s: State, run: seq<Action>, a: Action)
    ensures Exec(s, run + [a]) == Next(Exec(s, run), a)
  {
    assert (run + [a])[..|run|] == run;
  }

  lemma QueueOneMore(s: State, message: Text, order: seq<Loop>, loop: Loop)
    requires Enabled(Exec(s, [Lock(message)] + QueueAll(order)), Queue(loop))
    ensures Exec(s, [Lock(message)] + QueueAll(order + [loop]))
         == Do(Exec(s, [Lock(message)] + QueueAll(order)), Queue(loop))
  {
    ExecSnoc(s, [Lock(message)] + QueueAll(order), Queue(loop));
    assert [Lock(message)] + QueueAll(order + [loop]) == [Lock(message)] + QueueAll(order) + [Queue(loop)];
  }

  lemma SendOneMore(s: State, loop: Loop, order: seq<Conn>, conn: Conn, t: State, message: Text, todo: set<Conn>)
    requires conn in todo && conn in t.received && t.busy == map[]
    requires Exec(s, [Begin(loop)] + SendAll(loop, order)) == t.(busy := map[loop := Sending(message, todo)])
    ensures Exec(s, [Begin(loop)] + SendAll(loop, order + [conn]))
         == t.(busy := map[loop := Sending(message, todo - {conn})],
               received := t.received[conn := t.received[conn] + [message]])
  {
    ExecSnoc(s, [Begin(loop)] + SendAll(loop, order), Send(loop, conn));
    assert [Begin(loop)] + SendAll(loop, order + [conn]) == [Begin(loop)] + SendAll(loop, order) + [Send(loop, conn)];
  }

  lemma EndOfSending(s: State, loop: Loop, order: seq<Conn>, t: State, message: Text)
    requires t.busy == map[]
    requires Exec(s, [Begin(loop)] + SendAll(loop, order)) == t.(busy := map[loop := Sending(message, {})])
    ensures Exec(s, [Begin(loop)] + SendAll(loop, order) + [End(loop)]) == t
  {
    ExecSnoc(s, [Begin(loop)] + SendAll(loop, order), End(loop));
  }

  /** The server's own fields. Each handler, seen from outside, is a run of the small steps above. */
  class ChatServer {
    var loops: set<Loop>
    var queue: map<Loop, seq<Text>>
    var local: map<Loop, set<Conn>>
    var received: map<Conn, seq<Text>>
    ghost var history: History

    ghost function Now(): State
      reads this
    {
      State(loops, Free, queue, map[], local, received, history)
    }

    constructor ()
      ensures Now() == INITIAL
    {
      loops, queue, local, received := {}, map[], map[], map[];
      history := INITIAL.history;
    }

    method ThreadInit(loop: Loop)
      requires loop !in loops
      modifies this
      ensures Now() == Exec(old(Now()), [Action.ThreadInit(loop)])
      ensures loops == old(loops) + {loop} && local == old(local)[loop := {}] && queue == old(queue)[loop := []]
    {
      history := history.(position := history.position[loop := |history.sent|]);
      local := local[loop := {}];
      queue := queue[loop := []];
      loops := loops + {loop};
      ExecSnoc(old(Now()), [], Action.ThreadInit(loop));
    }

    method OnConnection(loop: Loop, conn: Conn, connected: bool)
      requires loop in loops && loop in local
      requires if connected then conn !in received else conn in local[loop]
      modifies this
      ensures Now() == Exec(old(Now()), [if connected then Up(loop, conn) else Down(loop, conn)])
      ensures local == old(local)[loop := if connected then old(local)[loop] + {conn} else old(local)[loop] - {conn}]
      ensures received == if connected then old(received)[conn := []] else old(received)
    {
      if connected {
        history := history.(home := history.home[conn := loop],
                            since := history.since[conn := Position(history, loop)],
                            sentBefore := history.sentBefore[conn := |history.sent|]);
        local := local[loop := local[loop] + {conn}];
        received := received[conn := []];
      } else {
        local := local[loop := local[loop] - {conn}];
      }
      ExecSnoc(old(Now()), [], if connected then Up(loop, conn) else Down(loop, conn));
    }

    /** Queues the message to every loop, in the order the set happens to be traversed. */
    method OnTextMessage(message: Text) returns (ghost order: seq<Loop>)
      requires loops <= queue.Keys
      modifies this
      ensures Now() == Exec(old(Now()), [Lock(message)] + QueueAll(order) + [Unlock])
      ensures loops == old(loops) && queue.Keys == old(queue.Keys)
      ensures forall l :: l in queue ==> queue[l] == old(queue[l]) + if l in loops then [message] else []
    {
      order := [];
      history := history.(sent := history.sent + [message]);
      ExecSnoc(old(Now()), [], Lock(message));
      var todo := loops;
      while todo != {}
        invariant todo <= loops && queue.Keys == old(queue.Keys)
        invariant Exec(old(Now()), [Lock(message)] + QueueAll(order)) == Now().(fanOut := Queueing(message, todo))
        invariant forall l :: l in queue ==> queue[l] == old(queue[l]) + if l in loops - todo then [message] else []
        decreases |todo|
        modifies this`queue
      {
        var loop :| loop in todo;
        QueueOneMore(old(Now()), message, order, loop);
        queue := queue[loop := queue[loop] + [message]];
        todo := todo - {loop};
        order := order + [loop];
      }
      ExecSnoc(old(Now()), [Lock(message)] + QueueAll(order), Unlock);
    }

    method TakeNext(loop: Loop) returns (message: Text)
      requires loop in queue && queue[loop] != [] && loop in local
      modifies this`queue, this`history
      ensures message == old(queue[loop][0])
      ensures Exec(old(Now()), [Begin(loop)]) == Now().(busy := map[loop := Sending(message, local[loop])])
    {
      message := queue[loop][0];
      queue := queue[loop := queue[loop][1..]];
      history := history.(position := history.position[loop := Position(history, loop) + 1]);
      ExecSnoc(old(Now()), [], Begin(loop));
    }

    /** The loop's next functor: sends its message on every connection of the loop, in any order. */
    method DistributeTextMessage(loop: Loop) returns (ghost order: seq<Conn>)
      requires loop in queue && queue[loop] != [] && loop in local && local[loop] <= received.Keys
      modifies this
      ensures Now() == Exec(old(Now()), [Begin(loop)] + SendAll(loop, order) + [End(loop)])
      ensures local == old(local) && received.Keys == old(received.Keys)
      ensures forall c :: c in received ==>
                received[c] == old(received[c]) + if c in local[loop] then [old(queue[loop][0])] else []
    {
      order := [];
      var message := TakeNext(loop);
      assert [Begin(loop)] + SendAll(loop, order) == [Begin(loop)];
      var todo := local[loop];
      while todo != {}
        invariant received.Keys == old(received.Keys) && todo <= local[loop] <= received.Keys
        invariant Exec(old(Now()), [Begin(loop)] + SendAll(loop, order))
               == Now().(busy := map[loop := Sending(message, todo)])
        invariant forall c :: c in received ==>
                    received[c] == old(received[c]) + if c in local[loop] - todo then [message] else []
        decreases |todo|
        modifies this`received
      {
        var conn :| conn in todo;
        SendOneMore(old(Now()), loop, order, conn, Now(), message, todo);
        received := received[conn := received[conn] + [message]];
        todo := todo - {conn};
        order := order + [conn];
      }
      EndOfSending(old(Now()), loop, order, Now(), message);
    }
  }
}
