/** What is on its way to a connection can always arrive. */
module Arrival {
  import PubSub
  import opened ChatServer
  import opened Progress
  import opened Tracing

  lemma LocalsKept(s: State, a: Action, l: Loop)
    requires !a.Login? && !a.Logout? && l in s.loops
    ensures l in Next(s, a).loops && Next(s, a).loops[l].local == s.loops[l].local
  {
    if Enabled(s, a) {
      if a.Redis? {
        RedisKeepsSessions(s, a.instance, a.action);
      } else if SessionEnabled(s, a) {
        assert SessionDo(s, a).loops[l].local == s.loops[l].local;
      } else if DeliveryEnabled(s, a) {
        DeliveryKeepsSessions(s, a);
      } else {
        SearchKeepsSessions(s, a);
      }
    }
  }

  /** Without a logout a connection stays logged in. */
  lemma {:induction false} StaysWithoutLogout(s: State, run: seq<Action>, l: Loop, c: Conn, user: User)
    requires LoggedIn(s, l, c, user) && forall k :: 0 <= k < |run| ==> !run[k].Login? && !run[k].Logout?
    ensures l in Exec(s, run).loops && Exec(s, run).loops[l].local == s.loops[l].local
    ensures StaysLoggedIn(s, run, l, c, user)
    decreases |run|
  {
    if run != [] {
      StaysWithoutLogout(s, run[..|run| - 1], l, c, user);
      LocalsKept(Exec(s, run[..|run| - 1]), run[|run| - 1], l);
    }
  }

  /** Without requests nobody is logged out, and nothing is published. */
  lemma {:induction false} QuietRun(s: State, run: seq<Action>, l: Loop, c: Conn, d: Delivery)
    requires NoRequests(run) && LoggedIn(s, l, c, d.user)
    ensures l in Exec(s, run).loops && Exec(s, run).loops[l].local == s.loops[l].local
    ensures StaysLoggedIn(s, run, l, c, d.user) && AcceptedCount(s, run, d) == 0
    decreases |run|
  {
    if run != [] {
      var front := run[..|run| - 1];
      QuietRun(s, front, l, c, d);
      LocalsKept(Exec(s, front), run[|run| - 1], l);
    }
  }

  // -------------------------------------------------------------------------- one listener

  /** The listener of the instance is back for more, and there is no more. */
  ghost predicate Empty(s: State, i: nat)
    requires i < |s.redis| == |s.callbacks|
  {
    s.redis[i].replies == [] && !s.redis[i].listener.Handling? && s.callbacks[i].Outside?
  }

  /** What a drained instance leaves alone. */
  ghost predicate OnlyInstance(s: State, t: State, i: nat)
  {
    && OnlyQueued(s, t) && t.writer == s.writer
    && |t.redis| == |s.redis| && |t.callbacks| == |s.callbacks|
    && (forall j {:trigger t.redis[j]} :: 0 <= j < |s.redis| && j != i ==> t.redis[j] == s.redis[j])
    && (forall j {:trigger t.callbacks[j]} :: 0 <= j < |s.callbacks| && j != i ==> t.callbacks[j] == s.callbacks[j])
  }

  ghost function Stage(s: State, i: nat): nat
    requires i < |s.redis| == |s.callbacks|
  {
    match s.redis[i].listener
    case Reading => 0
    case Waiting => 1
    case Testing => 2
    case Calling(_, _) =>
      (match s.callbacks[i] case Entered => 5 case Queueing(_, _) => 4 case _ => 3)
    case Handling(_) => 6
    case Done => 0
  }

  ghost function Work(s: State, i: nat): nat
    requires i < |s.redis| == |s.callbacks|
  {
    8 * |s.redis[i].replies| + Stage(s, i)
  }

  /** With nobody in the exclusive section, no thread is inside subscribe or unsubscribe. */
  lemma MutexIsFree(s: State, i: nat)
    requires Inv(s) && s.writer.Nobody? && i < |s.redis| && !s.redis[i].listener.Reading?
    ensures s.redis[i].mutex.Free?
  {
    assert InstanceOk(s.redis[i]);
    if s.redis[i].mutex.ByThread? {
      OnlyHolderCalls(s, i, s.redis[i].mutex.thread);
    }
  }

  /** The listener's next step, outside its callback. */
  lemma ListenerMoves(s: State, i: nat) returns (a: Action)
    requires Inv(s) && s.writer.Nobody? && i < |s.redis| && !Empty(s, i) && s.callbacks[i].Outside?
    ensures Enabled(s, a) && NoRequest(a)
    ensures OnlyInstance(s, Do(s, a), i) && Work(Do(s, a), i) < Work(s, i)
  {
    assert InstanceOk(s.redis[i]) && CallbackOk(s, i);
    if !s.redis[i].listener.Reading? {
      MutexIsFree(s, i);
    }
    a := Redis(i, PubSub.ListenerNext(s.redis[i]));
  }

  /** ... into and out of the callback. */
  lemma CallbackMoves(s: State, i: nat) returns (a: Action)
    requires Inv(s) && s.writer.Nobody? && i < |s.redis| && (s.callbacks[i].Entered? || s.callbacks[i].Finished?)
    ensures Enabled(s, a) && NoRequest(a)
    ensures OnlyInstance(s, Do(s, a), i) && Work(Do(s, a), i) < Work(s, i)
  {
    assert InstanceOk(s.redis[i]) && CallbackOk(s, i);
    a := if s.callbacks[i].Entered? then LockShared(i) else Redis(i, PubSub.CallbackReturns);
  }

  lemma FinishedIsLess(s: State, t: State, i: nat)
    requires i < |s.redis| == |s.callbacks| && s.callbacks[i].Queueing? && s.redis[i].listener.Calling?
    requires t.callbacks == s.callbacks[i := Finished] && t.redis == s.redis && t.writer == s.writer && OnlyQueued(s, t)
    ensures OnlyInstance(s, t, i) && Work(t, i) < Work(s, i)
  {
  }

  lemma QueueingMoves(s: State, i: nat) returns (run: seq<Action>)
    requires Inv(s) && s.writer.Nobody? && i < |s.redis| && s.callbacks[i].Queueing?
    ensures NoRequests(run) && Possible(s, run)
    ensures var t := Exec(s, run); OnlyInstance(s, t, i) && Work(t, i) < Work(s, i)
  {
    assert CallbackOk(s, i);
    run := QueueingCanFinish(s, i);
    FinishedIsLess(s, Exec(s, run), i);
  }

  lemma InstanceMoves(s: State, i: nat) returns (run: seq<Action>)
    requires Inv(s) && s.writer.Nobody? && i < |s.redis| && !Empty(s, i)
    ensures NoRequests(run) && Possible(s, run)
    ensures var t := Exec(s, run); OnlyInstance(s, t, i) && Work(t, i) < Work(s, i)
  {
    if s.callbacks[i].Queueing? {
      run := QueueingMoves(s, i);
    } else {
      var a: Action;
      if s.callbacks[i].Outside? {
        a := ListenerMoves(s, i);
      } else {
        a := CallbackMoves(s, i);
      }
      ExecOne(s, a);
      run := [a];
    }
  }

  lemma {:induction false} InstanceCanEmpty(s: State, i: nat) returns (run: seq<Action>)
    requires Inv(s) && s.writer.Nobody? && i < |s.redis|
    ensures NoRequests(run) && Possible(s, run)
    ensures OnlyInstance(s, Exec(s, run), i) && Empty(Exec(s, run), i)
    decreases Work(s, i)
  {
    run := [];
    if !Empty(s, i) {
      var first := InstanceMoves(s, i);
      RunKeepsInv(s, first);
      var rest := InstanceCanEmpty(Exec(s, first), i);
      ExecConcat(s, first, rest);
      run := first + rest;
    }
  }

  lemma {:induction false} InstancesCanEmpty(s: State, n: nat) returns (run: seq<Action>)
    requires Inv(s) && s.writer.Nobody? && n <= |s.redis|
    ensures NoRequests(run) && Possible(s, run)
    ensures var t := Exec(s, run);
            && OnlyQueued(s, t) && t.writer == s.writer && |t.redis| == |t.callbacks| == |s.redis|
            && forall i {:trigger Empty(t, i)} :: 0 <= i < n ==> Empty(t, i)
  {
    run := [];
    if n > 0 {
      var first := InstancesCanEmpty(s, n - 1);
      var t := Exec(s, first);
      RunKeepsInv(s, first);
      var last := InstanceCanEmpty(t, n - 1);
      ExecConcat(s, first, last);
      run := first + last;
      forall i | 0 <= i < n
        ensures Empty(Exec(t, last), i)
      {
        assert i < n - 1 ==> Empty(t, i) && Exec(t, last).redis[i] == t.redis[i] && Exec(t, last).callbacks[i] == t.callbacks[i];
      }
    }
  }

  /** Redis executes everything written to the instance. */
  lemma {:induction false} CanCatchUp(s: State, i: nat) returns (run: seq<Action>)
    requires Inv(s) && i < |s.redis|
    ensures NoRequests(run) && Inv(Exec(s, run))
    ensures var t := Exec(s, run);
            && |t.redis| == |s.redis| && t.redis[i].commands == []
            && t.loops == s.loops && t.online == s.online && t.writer == s.writer
            && forall j {:trigger t.redis[j]} :: 0 <= j < |t.redis| && j != i ==> t.redis[j] == s.redis[j]
    decreases |s.redis[i].commands|
  {
    run := [];
    if s.redis[i].commands != [] {
      var step := Redis(i, PubSub.Execute);
      ExecOne(s, step);
      StepKeepsInv(s, step);
      var rest := CanCatchUp(Do(s, step), i);
      ExecConcat(s, [step], rest);
      run := [step] + rest;
    }
  }

  /** Redis executes everything written to the first instances. */
  lemma {:induction false} AllCanCatchUp(s: State, n: nat) returns (run: seq<Action>)
    requires Inv(s) && n <= |s.redis|
    ensures NoRequests(run) && Inv(Exec(s, run))
    ensures var t := Exec(s, run);
            && |t.redis| == |s.redis| && t.loops == s.loops && t.online == s.online && t.writer == s.writer
            && forall i {:trigger t.redis[i]} :: 0 <= i < n ==> t.redis[i].commands == []
  {
    run := [];
    if n > 0 {
      var first := AllCanCatchUp(s, n - 1);
      var last := CanCatchUp(Exec(s, first), n - 1);
      ExecConcat(s, first, last);
      run := first + last;
    }
  }

  // -------------------------------------------------------------------------- one loop

  lemma {:induction false} LoopCanEmpty(s: State, l: Loop) returns (run: seq<Action>)
    requires Inv(s) && IsDoing(s, l, Idle)
    ensures NoRequests(run) && Possible(s, run)
    ensures var t := Exec(s, run);
            && t.redis == s.redis && t.callbacks == s.callbacks && t.writer == s.writer
            && IsDoing(t, l, Idle) && t.loops[l].queue == []
    decreases |s.loops[l].queue|
  {
    run := [];
    if s.loops[l].queue != [] {
      ExecOne(s, Begin(l));
      StepKeepsInv(s, Begin(l));
      var begun := Do(s, Begin(l));
      var send := SendingCanFinish(begun, l);
      RunKeepsInv(begun, send);
      var rest := LoopCanEmpty(Exec(begun, send), l);
      ExecConcat(begun, send, rest);
      ExecConcat(s, [Begin(l)], send + rest);
      run := [Begin(l)] + (send + rest);
    }
  }

  // ------------------------------------------------------------------------ all together

  lemma ExclusiveCanEnd(s: State, l: Loop) returns (run: seq<Action>)
    requires Inv(s) && l in s.loops
    ensures NoRequests(run) && Possible(s, run)
    ensures Exec(s, run).writer.Nobody? && IsDoing(Exec(s, run), l, Idle)
  {
    run := LoopCanFinish(s, l);
    var t := Exec(s, run);
    RunKeepsInv(s, run);
    if t.writer.By? {
      assert WriterOk(t, l) && WriterOk(t, t.writer.loop);
      var more := HolderCanFinish(t, t.writer.loop);
      ExecConcat(s, run, more);
      run := run + more;
    }
  }

  lemma {:induction false} NothingAtInstances(s: State, n: nat, l: Loop, d: Delivery)
    requires n <= |s.redis| == |s.callbacks|
    requires forall i {:trigger Empty(s, i)} :: 0 <= i < n ==> Empty(s, i)
    ensures AtInstances(s, n, l, d) == 0
  {
    if n > 0 {
      NothingAtInstances(s, n - 1, l, d);
      assert Empty(s, n - 1);
    }
  }

  /** From every reachable state, without any new request, everything on its way to a loop can arrive. */
  lemma CanDrain(s: State, l: Loop, d: Delivery) returns (run: seq<Action>)
    requires Inv(s) && l in s.loops
    ensures NoRequests(run) && Possible(s, run)
    ensures var t := Exec(s, run);
            |t.redis| == |t.callbacks| && l in t.loops && Drained(t, l, d)
  {
    var end := ExclusiveCanEnd(s, l);
    var s1 := Exec(s, end);
    RunKeepsInv(s, end);
    var empty := InstancesCanEmpty(s1, |s1.redis|);
    var s2 := Exec(s1, empty);
    RunKeepsInv(s1, empty);
    var send := LoopCanEmpty(s2, l);
    var s3 := Exec(s2, send);
    forall i | 0 <= i < |s3.redis|
      ensures Empty(s3, i)
    {
      assert Empty(s2, i);
    }
    NothingAtInstances(s3, |s3.redis|, l, d);
    ExecConcat(s1, empty, send);
    ExecConcat(s, end, empty + send);
    run := end + (empty + send);
  }

  /** No copy is stuck: whatever is on its way to a connection that is logged in can be received by it, with
      nobody's help from outside and without the connection logging out; then it has all its copies. */
  lemma CopiesCanArrive(s: State, l: Loop, c: Conn, d: Delivery) returns (run: seq<Action>)
    requires Inv(s) && LoggedIn(s, l, c, d.user) && l in Online(s, d.user)
    ensures NoRequests(run) && Possible(s, run)
    ensures c in Exec(s, run).received && Received(Exec(s, run), c, d) == Copies(s, l, c, d)
  {
    run := CanDrain(s, l, d);
    QuietRun(s, run, l, c, d);
    ExactlyOnceAccepted(s, run, l, c, d);
    assert LocalOk(Exec(s, run), l, d.user);
  }
}
