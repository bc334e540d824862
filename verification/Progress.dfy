/** Deadlock freedom of the distributed server: from every reachable state, every thread has a finite
    continuation in which it finishes what it is doing. */
module Progress {
  import PubSub
  import opened ChatServer

  lemma {:induction false} ExecConcat(s: State, a: seq<Action>, b: seq<Action>)
    ensures Exec(s, a + b) == Exec(Exec(s, a), b)
    ensures Possible(s, a) && Possible(Exec(s, a), b) ==> Possible(s, a + b)
    decreases |b|
  {
    if b == [] {
      assert a + b == a;
    } else {
      ExecConcat(s, a, b[..|b| - 1]);
      assert (a + b)[..|a + b| - 1] == a + b[..|b| - 1];
    }
  }

  lemma ExecOne(s: State, a: Action)
    ensures Exec(s, [a]) == Next(s, a)
    ensures Enabled(s, a) ==> Possible(s, [a])
  {
    assert [a][..0] == [];
  }

  lemma ExecSnoc(s: State, run: seq<Action>, a: Action)
    ensures Exec(s, run + [a]) == Next(Exec(s, run), a)
  {
    assert (run + [a])[..|run|] == run;
  }

  // -------------------------------------------------------- the holder of the exclusive lock

  /** The steps of one instance as steps of the server. */
  function OnInstance(i: nat, run: seq<PubSub.Action>): (lifted: seq<Action>)
    ensures |lifted| == |run|
  {
    seq(|run|, k requires 0 <= k < |run| => Redis(i, run[k]))
  }

  predicate Inner(a: PubSub.Action)
  {
    a.GiveUp? || a.Lock? || a.Read? || a.Write? || a.Execute?
  }

  lemma InnerStep(s: State, i: nat, a: PubSub.Action)
    requires i < |s.redis| == |s.callbacks| && PubSub.Enabled(s.redis[i], a) && Inner(a)
    ensures Enabled(s, Redis(i, a)) && Do(s, Redis(i, a)) == s.(redis := s.redis[i := PubSub.Do(s.redis[i], a)])
  {
  }

  lemma {:induction false} InstanceRun(s: State, i: nat, run: seq<PubSub.Action>)
    requires i < |s.redis| == |s.callbacks| && PubSub.Possible(s.redis[i], run)
    requires forall k :: 0 <= k < |run| ==> Inner(run[k])
    ensures Possible(s, OnInstance(i, run))
    ensures Exec(s, OnInstance(i, run)) == s.(redis := s.redis[i := PubSub.Exec(s.redis[i], run)])
    decreases |run|
  {
    if run == [] {
      assert s.redis[i := s.redis[i]] == s.redis;
    } else {
      var front, last := run[..|run| - 1], run[|run| - 1];
      InstanceRun(s, i, front);
      assert OnInstance(i, run)[..|run| - 1] == OnInstance(i, front);
      InnerStep(Exec(s, OnInstance(i, front)), i, last);
    }
  }

  predicate NoLockShared(run: seq<Action>)
  {
    forall k :: 0 <= k < |run| ==> !run[k].LockShared?
  }

  /** Nothing new comes from outside: nobody logs in or out, connects or publishes. */
  predicate NoRequest(a: Action)
  {
    !a.ThreadInit? && !a.Connect? && !a.Login? && !a.Logout? && !a.Search? && !(a.Redis? && a.action.Publish?)
  }

  predicate NoRequests(run: seq<Action>)
  {
    forall k :: 0 <= k < |run| ==> NoRequest(run[k])
  }

  ghost predicate AtCall(s: State, l: Loop, i: nat)
  {
    && s.writer == By(l) && l in s.loops && i < |s.redis|
    && (s.loops[l].doing.Subscribing? || s.loops[l].doing.Unsubscribing?)
    && s.loops[l].doing.next == i
  }

  function CommandOf(doing: Doing): PubSub.Command
    requires doing.Subscribing? || doing.Unsubscribing?
  {
    if doing.Subscribing? then PubSub.Subscribe(UserChannel(doing.user)) else PubSub.Unsubscribe(UserChannel(doing.user))
  }

  /** The loop gets into the call, if it is not yet. */
  lemma CanEnter(s: State, l: Loop, i: nat) returns (run: seq<Action>)
    requires Inv(s) && AtCall(s, l, i)
    ensures Possible(s, run) && NoLockShared(run) && NoRequests(run)
    ensures var t := Exec(s, run);
            && t.loops == s.loops && t.writer == s.writer && |t.redis| == |s.redis|
            && l in t.redis[i].calls
  {
    if l in s.redis[i].calls {
      run := [];
    } else {
      var command := CommandOf(s.loops[l].doing);
      ChannelOfUser(s.loops[l].doing.user, command.channel);
      run := [Redis(i, PubSub.Enter(l, command))];
      ExecOne(s, run[0]);
    }
  }

  lemma OnlyListenerHoldsMutex(s: State, l: Loop, i: nat)
    requires Inv(s) && AtCall(s, l, i) && l in s.redis[i].calls && s.redis[i].calls[l].Trying?
    ensures !s.redis[i].mutex.ByThread? && PubSub.Inv(s.redis[i])
  {
    var r := s.redis[i];
    assert InstanceOk(r);
    assert PubSub.CallOk(r, l);
    if r.mutex.ByThread? {
      OnlyHolderCalls(s, i, r.mutex.thread);
    }
  }

  /** The loop gets the instance's mutex, from the listener if need be: no other thread can be inside, since
      only the holder of the exclusive lock calls subscribe and unsubscribe. */
  lemma FreeMutexIsInner(r: PubSub.State, l: Loop)
    requires !r.mutex.ByThread?
    ensures var run := PubSub.FreeMutex(r, l) + [PubSub.Lock(l)];
            forall k :: 0 <= k < |run| ==> Inner(run[k])
  {
  }

  lemma LockingRun(s: State, l: Loop, i: nat) returns (run: seq<PubSub.Action>)
    requires Inv(s) && AtCall(s, l, i) && l in s.redis[i].calls && s.redis[i].calls[l].Trying?
    ensures PubSub.Possible(s.redis[i], run) && forall k :: 0 <= k < |run| ==> Inner(run[k])
    ensures var r := PubSub.Exec(s.redis[i], run); l in r.calls && r.calls[l].Owning?
  {
    var r := s.redis[i];
    OnlyListenerHoldsMutex(s, l, i);
    PubSub.CanAlwaysLock(r, l);
    FreeMutexIsInner(r, l);
    run := PubSub.FreeMutex(r, l) + [PubSub.Lock(l)];
  }

  lemma CanLock(s: State, l: Loop, i: nat) returns (run: seq<Action>)
    requires Inv(s) && AtCall(s, l, i) && l in s.redis[i].calls
    ensures Possible(s, run) && NoLockShared(run) && NoRequests(run)
    ensures var t := Exec(s, run);
            && t.loops == s.loops && t.writer == s.writer && |t.redis| == |s.redis|
            && l in t.redis[i].calls && !t.redis[i].calls[l].Trying?
  {
    var r := s.redis[i];
    run := [];
    if r.calls[l].Trying? {
      var locking := LockingRun(s, l, i);
      InstanceRun(s, i, locking);
      run := OnInstance(i, locking);
    }
  }

  lemma OnlyHolderCalls(s: State, i: nat, t: Loop)
    requires Inv(s) && i < |s.redis| && t in s.redis[i].calls
    ensures s.writer == By(t)
  {
    assert CallOk(s, i, t) && WriterOk(s, t);
  }

  lemma CanReturn(s: State, l: Loop, i: nat) returns (run: seq<Action>)
    requires Inv(s) && AtCall(s, l, i) && l in s.redis[i].calls && !s.redis[i].calls[l].Trying?
    ensures Possible(s, run) && NoLockShared(run) && NoRequests(run)
    ensures var t := Exec(s, run);
            && t.loops == s.loops[l := s.loops[l].(doing := s.loops[l].doing.(next := i + 1))]
            && t.writer == s.writer && |t.redis| == |s.redis|
  {
    assert CallOk(s, i, l);
    if s.redis[i].calls[l].Owning? {
      ExecOne(s, Redis(i, PubSub.Write(l)));
      var t := Do(s, Redis(i, PubSub.Write(l)));
      StepKeepsInv(s, Redis(i, PubSub.Write(l)));
      assert CallOk(t, i, l);
      ExecOne(t, Redis(i, PubSub.Return(l)));
      ExecConcat(s, [Redis(i, PubSub.Write(l))], [Redis(i, PubSub.Return(l))]);
      run := [Redis(i, PubSub.Write(l))] + [Redis(i, PubSub.Return(l))];
    } else {
      ExecOne(s, Redis(i, PubSub.Return(l)));
      run := [Redis(i, PubSub.Return(l))];
    }
  }

  /** One iteration of the loop over the instances. */
  lemma CanCall(s: State, l: Loop, i: nat) returns (run: seq<Action>)
    requires Inv(s) && AtCall(s, l, i)
    ensures Possible(s, run) && NoLockShared(run) && NoRequests(run)
    ensures var t := Exec(s, run);
            && t.loops == s.loops[l := s.loops[l].(doing := s.loops[l].doing.(next := i + 1))]
            && t.writer == s.writer && |t.redis| == |s.redis|
  {
    var enter := CanEnter(s, l, i);
    RunKeepsInv(s, enter);
    var inside := Exec(s, enter);
    var lock := CanLock(inside, l, i);
    RunKeepsInv(inside, lock);
    var locked := Exec(inside, lock);
    var leave := CanReturn(locked, l, i);
    ExecConcat(inside, lock, leave);
    ExecConcat(s, enter, lock + leave);
    run := enter + (lock + leave);
  }

  /** The last step of the section: the loop releases the exclusive lock. */
  lemma CanUnlock(s: State, l: Loop) returns (run: seq<Action>)
    requires Inv(s) && s.writer == By(l) && !exists i :: AtCall(s, l, i)
    ensures Possible(s, run) && NoLockShared(run) && NoRequests(run)
    ensures var t := Exec(s, run);
            LockFree(t) && l in t.loops && t.loops == s.loops[l := s.loops[l].(doing := Idle)]
  {
    assert WriterOk(s, l);
    forall i | 0 <= i < |s.callbacks|
      ensures !s.callbacks[i].Queueing?
    {
      assert CallbackOk(s, i);
    }
    forall m | m in s.loops
      ensures !s.loops[m].doing.Searching?
    {
      assert SearchOk(s, m);
    }
    var doing := s.loops[l].doing;
    if doing.Subscribing? || doing.Unsubscribing? {
      assert !AtCall(s, l, doing.next);
    }
    run := [if doing.Subscribing? then Insert(l) else Unlock(l)];
    ExecOne(s, run[0]);
  }

  function Remaining(s: State, l: Loop): nat
    requires Inv(s) && s.writer == By(l)
  {
    assert WriterOk(s, l);
    var doing := s.loops[l].doing;
    if doing.Subscribing? || doing.Unsubscribing? then |s.redis| - doing.next else 0
  }

  /** A thread that holds online_users_mutex_ exclusively always has a finite continuation that releases it,
      whatever the listeners and everybody else are doing, and nobody else has to move but the listeners. */
  lemma {:induction false} HolderCanFinish(s: State, l: Loop) returns (run: seq<Action>)
    requires Inv(s) && s.writer == By(l)
    ensures Possible(s, run) && NoLockShared(run) && NoRequests(run)
    ensures var t := Exec(s, run);
            LockFree(t) && l in t.loops && t.loops == s.loops[l := s.loops[l].(doing := Idle)]
    decreases Remaining(s, l)
  {
    if i :| AtCall(s, l, i) {
      var call := CanCall(s, l, i);
      var t := Exec(s, call);
      RunKeepsInv(s, call);
      var rest := HolderCanFinish(t, l);
      ExecConcat(s, call, rest);
      run := call + rest;
      assert t.loops[l := t.loops[l].(doing := Idle)] == s.loops[l := s.loops[l].(doing := Idle)];
    } else {
      run := CanUnlock(s, l);
    }
  }

  // ---------------------------------------------------------------- shared holders of the lock

  /** What a run may change of the loops while it lets callbacks finish: their queues grow. */
  ghost predicate OnlyQueued(s: State, t: State)
  {
    && t.loops.Keys == s.loops.Keys
    && forall l {:trigger t.loops[l]} :: l in s.loops ==>
         t.loops[l].doing == s.loops[l].doing && t.loops[l].local == s.loops[l].local
  }

  /** A callback that holds the lock shared can queue to all its loops and release it. */
  lemma {:induction false} QueueingCanFinish(s: State, i: nat) returns (run: seq<Action>)
    requires Inv(s) && i < |s.redis| && s.callbacks[i].Queueing?
    ensures Possible(s, run) && NoRequests(run)
    ensures var t := Exec(s, run);
            t.callbacks == s.callbacks[i := Finished] && t.redis == s.redis && t.writer == s.writer && OnlyQueued(s, t)
    decreases |s.callbacks[i].todo|
  {
    if s.callbacks[i].todo == {} {
      UnlockOne(s, i);
      run := [UnlockShared(i)];
    } else {
      var l :| l in s.callbacks[i].todo;
      var step := QueueOne(s, i, l);
      var rest := QueueingCanFinish(Do(s, step), i);
      ExecConcat(s, [step], rest);
      run := [step] + rest;
    }
  }

  lemma UnlockOne(s: State, i: nat)
    requires i < |s.callbacks| && s.callbacks[i].Queueing? && s.callbacks[i].todo == {}
    ensures Possible(s, [UnlockShared(i)])
    ensures Exec(s, [UnlockShared(i)]) == s.(callbacks := s.callbacks[i := Finished])
  {
    ExecOne(s, UnlockShared(i));
  }

  lemma QueueOne(s: State, i: nat, l: Loop) returns (step: Action)
    requires Inv(s) && i < |s.redis| && s.callbacks[i].Queueing? && l in s.callbacks[i].todo
    ensures Enabled(s, step) && NoRequest(step)
    ensures Exec(s, [step]) == Do(s, step) && Possible(s, [step]) && Inv(Do(s, step))
    ensures var t := Do(s, step);
            && t.callbacks == s.callbacks[i := s.callbacks[i].(todo := s.callbacks[i].todo - {l})]
            && t.redis == s.redis && t.writer == s.writer && OnlyQueued(s, t)
  {
    assert CallbackOk(s, i);
    step := QueueTo(i, l);
    ExecOne(s, step);
    StepKeepsInv(s, step);
  }

  /** A search that holds the lock shared can look at all its users and release it. */
  lemma {:induction false} SearchCanFinish(s: State, l: Loop) returns (run: seq<Action>)
    requires Inv(s) && l in s.loops && s.loops[l].doing.Searching?
    ensures Possible(s, run) && NoRequests(run)
    ensures Exec(s, run) == SetDoing(s, l, Idle)
    decreases |s.loops[l].doing.unseen|
  {
    var unseen := s.loops[l].doing.unseen;
    if unseen == {} {
      ExecOne(s, UnlockSearch(l));
      run := [UnlockSearch(l)];
    } else {
      var user :| user in unseen;
      VisitOne(s, l, user);
      var rest := SearchCanFinish(Do(s, Visit(l, user)), l);
      ExecConcat(s, [Visit(l, user)], rest);
      run := [Visit(l, user)] + rest;
    }
  }

  lemma VisitOne(s: State, l: Loop, user: User)
    requires Inv(s) && SearchEnabled(s, Visit(l, user))
    ensures Enabled(s, Visit(l, user)) && Possible(s, [Visit(l, user)])
    ensures var t := Do(s, Visit(l, user));
            && t == Exec(s, [Visit(l, user)]) && Inv(t)
            && l in t.loops && t.loops[l].doing.Searching?
            && t.loops[l].doing.unseen == s.loops[l].doing.unseen - {user}
            && SetDoing(t, l, Idle) == SetDoing(s, l, Idle)
  {
    ExecOne(s, Visit(l, user));
    StepKeepsInv(s, Visit(l, user));
  }

  function Holders(s: State): set<nat>
  {
    set i | 0 <= i < |s.callbacks| && s.callbacks[i].Queueing?
  }

  lemma {:induction false} CallbacksCanFinish(s: State) returns (run: seq<Action>)
    requires Inv(s) && s.writer.Nobody?
    ensures Possible(s, run) && NoRequests(run)
    ensures var t := Exec(s, run); Holders(t) == {} && t.writer == s.writer && OnlyQueued(s, t)
    decreases |Holders(s)|
  {
    run := [];
    if i :| i in Holders(s) {
      var first := QueueingCanFinish(s, i);
      var t := Exec(s, first);
      RunKeepsInv(s, first);
      assert Holders(t) == Holders(s) - {i};
      var rest := CallbacksCanFinish(t);
      ExecConcat(s, first, rest);
      run := first + rest;
    }
  }

  function Searchers(s: State): set<Loop>
  {
    set l | l in s.loops && s.loops[l].doing.Searching?
  }

  /** What a run may change of the loops while it lets searches finish. */
  ghost predicate OnlySearched(s: State, t: State)
  {
    && t.loops.Keys == s.loops.Keys && t.writer == s.writer && t.callbacks == s.callbacks
    && forall l {:trigger t.loops[l]} :: l in s.loops && !s.loops[l].doing.Searching? ==> t.loops[l] == s.loops[l]
  }

  lemma {:induction false} SearchersCanFinish(s: State) returns (run: seq<Action>)
    requires Inv(s)
    ensures Possible(s, run) && NoRequests(run)
    ensures Searchers(Exec(s, run)) == {} && OnlySearched(s, Exec(s, run))
    decreases |Searchers(s)|
  {
    run := [];
    if l :| l in Searchers(s) {
      var first := SearchCanFinish(s, l);
      var t := Exec(s, first);
      RunKeepsInv(s, first);
      assert Searchers(t) == Searchers(s) - {l};
      var rest := SearchersCanFinish(t);
      ExecConcat(s, first, rest);
      run := first + rest;
    }
  }

  lemma SharedCanFinish(s: State) returns (run: seq<Action>)
    requires Inv(s) && s.writer.Nobody?
    ensures Possible(s, run) && NoRequests(run)
    ensures var t := Exec(s, run);
            && LockFree(t) && t.loops.Keys == s.loops.Keys
            && forall l {:trigger t.loops[l]} :: l in s.loops && !s.loops[l].doing.Searching? ==>
                 t.loops[l].doing == s.loops[l].doing
  {
    var callbacks := CallbacksCanFinish(s);
    var t := Exec(s, callbacks);
    RunKeepsInv(s, callbacks);
    var searches := SearchersCanFinish(t);
    ExecConcat(s, callbacks, searches);
    run := callbacks + searches;
    NoHolders(Exec(t, searches), t);
  }

  lemma NoHolders(s: State, t: State)
    requires s.writer.Nobody? && Searchers(s) == {} && Holders(t) == {} && s.callbacks == t.callbacks
    ensures LockFree(s)
  {
    forall i | 0 <= i < |s.callbacks|
      ensures !s.callbacks[i].Queueing?
    {
      assert i !in Holders(t);
    }
    forall l | l in s.loops
      ensures !s.loops[l].doing.Searching?
    {
      assert l !in Searchers(s);
    }
  }

  // ------------------------------------------------------------------------- everybody

  /** Whoever holds the lock, it can come free while a waiting loop keeps waiting. */
  lemma LockCanBeFree(s: State, l: Loop) returns (run: seq<Action>)
    requires Inv(s) && l in s.loops && s.writer != By(l) && !s.loops[l].doing.Searching?
    ensures Possible(s, run) && NoRequests(run)
    ensures LockFree(Exec(s, run)) && l in Exec(s, run).loops && Exec(s, run).loops[l].doing == s.loops[l].doing
  {
    if s.writer.By? {
      run := HolderCanFinish(s, s.writer.loop);
    } else {
      run := SharedCanFinish(s);
    }
  }

  lemma SendOne(s: State, l: Loop, c: Conn)
    requires Inv(s) && l in s.loops && s.loops[l].doing.Sending? && c in s.loops[l].doing.todo
    ensures Possible(s, [Send(l, c)])
    ensures var t, doing := Exec(s, [Send(l, c)]), s.loops[l].doing;
            && Inv(t) && t.loops == s.loops[l := s.loops[l].(doing := doing.(todo := doing.todo - {c}))]
            && t.redis == s.redis && t.callbacks == s.callbacks && t.writer == s.writer
  {
    assert SendingOk(s, l) && LocalOk(s, l, s.loops[l].doing.delivery.user);
    ExecOne(s, Send(l, c));
    StepKeepsInv(s, Send(l, c));
  }

  lemma {:induction false} SendingCanFinish(s: State, l: Loop) returns (run: seq<Action>)
    requires Inv(s) && l in s.loops && s.loops[l].doing.Sending?
    ensures Possible(s, run) && NoRequests(run)
    ensures var t := Exec(s, run);
            && t.loops == s.loops[l := s.loops[l].(doing := Idle)]
            && t.redis == s.redis && t.callbacks == s.callbacks && t.writer == s.writer
    decreases |s.loops[l].doing.todo|
  {
    if s.loops[l].doing.todo == {} {
      ExecOne(s, End(l));
      run := [End(l)];
    } else {
      var c :| c in s.loops[l].doing.todo;
      SendOne(s, l, c);
      var t := Exec(s, [Send(l, c)]);
      var rest := SendingCanFinish(t, l);
      ExecConcat(s, [Send(l, c)], rest);
      run := [Send(l, c)] + rest;
      assert t.loops[l := s.loops[l].(doing := Idle)] == s.loops[l := s.loops[l].(doing := Idle)];
    }
  }

  lemma LocksForSearch(s: State, l: Loop)
    requires Inv(s) && l in s.loops && s.loops[l].doing.WantSearch? && s.writer.Nobody?
    ensures var t := Exec(s, [LockSearch(l)]);
            Possible(s, [LockSearch(l)]) && Inv(t) && l in t.loops && t.loops[l].doing.Searching?
  {
    ExecOne(s, LockSearch(l));
    StepKeepsInv(s, LockSearch(l));
  }

  lemma WaitingSearchCanFinish(s: State, l: Loop) returns (run: seq<Action>)
    requires Inv(s) && l in s.loops && s.loops[l].doing.WantSearch? && s.writer != By(l)
    ensures Possible(s, run) && NoRequests(run)
    ensures l in Exec(s, run).loops && Exec(s, run).loops[l].doing.Idle?
  {
    var wait := LockCanBeFree(s, l);
    var free := Exec(s, wait);
    RunKeepsInv(s, wait);
    LocksForSearch(free, l);
    var locked := Exec(free, [LockSearch(l)]);
    var rest := SearchCanFinish(locked, l);
    ExecConcat(s, wait, [LockSearch(l)]);
    ExecConcat(s, wait + [LockSearch(l)], rest);
    run := wait + [LockSearch(l)] + rest;
  }

  lemma LocksWhenFree(s: State, l: Loop)
    requires Inv(s) && l in s.loops && (s.loops[l].doing.WantAdd? || s.loops[l].doing.WantRemove?) && LockFree(s)
    ensures var t := Exec(s, [LockExclusive(l)]);
            Possible(s, [LockExclusive(l)]) && Inv(t) && t.writer == By(l)
  {
    ExecOne(s, LockExclusive(l));
    StepKeepsInv(s, LockExclusive(l));
  }

  lemma FinishesWhenFree(s: State, l: Loop) returns (run: seq<Action>)
    requires Inv(s) && l in s.loops && (s.loops[l].doing.WantAdd? || s.loops[l].doing.WantRemove?) && LockFree(s)
    ensures Possible(s, run) && NoRequests(run)
    ensures l in Exec(s, run).loops && Exec(s, run).loops[l].doing.Idle?
  {
    LocksWhenFree(s, l);
    var rest := HolderCanFinish(Exec(s, [LockExclusive(l)]), l);
    ExecConcat(s, [LockExclusive(l)], rest);
    run := [LockExclusive(l)] + rest;
  }

  lemma WaitingCanFinish(s: State, l: Loop) returns (run: seq<Action>)
    requires Inv(s) && l in s.loops && (s.loops[l].doing.WantAdd? || s.loops[l].doing.WantRemove?) && s.writer != By(l)
    ensures Possible(s, run) && NoRequests(run)
    ensures l in Exec(s, run).loops && Exec(s, run).loops[l].doing.Idle?
  {
    var wait := LockCanBeFree(s, l);
    var free := Exec(s, wait);
    RunKeepsInv(s, wait);
    var rest := FinishesWhenFree(free, l);
    ExecConcat(s, wait, rest);
    run := wait + rest;
  }

  /** No loop is ever stuck: whatever it is doing, some finite continuation brings it back to its queue. */
  lemma LoopCanFinish(s: State, l: Loop) returns (run: seq<Action>)
    requires Inv(s) && l in s.loops
    ensures Possible(s, run) && NoRequests(run)
    ensures l in Exec(s, run).loops && Exec(s, run).loops[l].doing.Idle?
  {
    var doing := s.loops[l].doing;
    assert WriterOk(s, l);
    if HoldsLock(doing) {
      run := HolderCanFinish(s, l);
    } else if doing.Idle? {
      run := [];
    } else if doing.Sending? {
      run := SendingCanFinish(s, l);
    } else if doing.Searching? {
      run := SearchCanFinish(s, l);
    } else if doing.WantSearch? {
      run := WaitingSearchCanFinish(s, l);
    } else {
      run := WaitingCanFinish(s, l);
    }
  }

  lemma EnteredStep(s: State, a: Action, i: nat)
    requires i < |s.callbacks| == |s.redis| && s.callbacks[i].Entered? && CallbackOk(s, i) && a != LockShared(i)
    ensures i < |Next(s, a).callbacks| && Next(s, a).callbacks[i].Entered?
  {
    if Enabled(s, a) {
      if a.Redis? {
        EnteredAfterRedis(s, a.instance, a.action, i);
      } else if SessionEnabled(s, a) {
        SessionKeepsPipeline(s, a);
      } else if DeliveryEnabled(s, a) {
        EnteredAfterDelivery(s, a, i);
      }
    }
  }

  lemma EnteredAfterRedis(s: State, j: nat, a: PubSub.Action, i: nat)
    requires RedisEnabled(s, j, a) && i < |s.callbacks| && s.callbacks[i].Entered? && CallbackOk(s, i)
    ensures var t := RedisDo(s, j, a); i < |t.callbacks| && t.callbacks[i].Entered?
  {
  }

  lemma EnteredAfterDelivery(s: State, a: Action, i: nat)
    requires DeliveryEnabled(s, a) && i < |s.callbacks| && s.callbacks[i].Entered? && a != LockShared(i)
    ensures var t := DeliveryDo(s, a); i < |t.callbacks| && t.callbacks[i].Entered?
  {
  }

  lemma {:induction false} EnteredStays(s: State, run: seq<Action>, i: nat)
    requires i < |s.callbacks| && s.callbacks[i].Entered? && Inv(s) && LockShared(i) !in run
    ensures i < |Exec(s, run).callbacks| && Exec(s, run).callbacks[i].Entered?
    decreases |run|
  {
    if run != [] {
      var front, a := run[..|run| - 1], run[|run| - 1];
      EnteredStays(s, front, i);
      RunKeepsInv(s, front);
      assert CallbackOk(Exec(s, front), i);
      EnteredStep(Exec(s, front), a, i);
    }
  }

  /** A callback that waits for the shared lock gets it in the end. */
  lemma CanLockShared(s: State, i: nat) returns (run: seq<Action>)
    requires Inv(s) && i < |s.redis| && s.callbacks[i].Entered?
    ensures Possible(s, run) && NoRequests(run)
    ensures i < |Exec(s, run).redis| == |Exec(s, run).callbacks| && Exec(s, run).callbacks[i].Queueing?
  {
    var wait := [];
    if s.writer.By? {
      wait := HolderCanFinish(s, s.writer.loop);
    }
    EnteredStays(s, wait, i);
    RunKeepsInv(s, wait);
    var free := Exec(s, wait);
    assert CallbackOk(free, i) && InstanceOk(free.redis[i]);
    ExecOne(free, LockShared(i));
    ExecConcat(s, wait, [LockShared(i)]);
    run := wait + [LockShared(i)];
  }

  ghost predicate Back(s: State, i: nat)
  {
    i < |s.callbacks| && s.callbacks[i].Outside?
  }

  lemma FinishedCanReturn(s: State, i: nat) returns (run: seq<Action>)
    requires Inv(s) && i < |s.redis| && s.callbacks[i].Finished?
    ensures Possible(s, run) && NoRequests(run) && Back(Exec(s, run), i)
  {
    assert CallbackOk(s, i);
    run := [Redis(i, PubSub.CallbackReturns)];
    ExecOne(s, run[0]);
  }

  lemma QueueingCanReturn(s: State, i: nat) returns (run: seq<Action>)
    requires Inv(s) && i < |s.redis| && s.callbacks[i].Queueing?
    ensures Possible(s, run) && NoRequests(run) && Back(Exec(s, run), i)
  {
    var queue := QueueingCanFinish(s, i);
    RunKeepsInv(s, queue);
    var leave := FinishedCanReturn(Exec(s, queue), i);
    ExecConcat(s, queue, leave);
    run := queue + leave;
  }

  /** No listener is ever stuck inside its callback: some finite continuation takes it back to its loop. */
  lemma CallbackCanFinish(s: State, i: nat) returns (run: seq<Action>)
    requires Inv(s) && i < |s.redis|
    ensures Possible(s, run) && NoRequests(run) && Back(Exec(s, run), i)
  {
    match s.callbacks[i]
    case Outside => run := [];
    case Finished => run := FinishedCanReturn(s, i);
    case Queueing(_, _) => run := QueueingCanReturn(s, i);
    case Entered =>
      var lock := CanLockShared(s, i);
      RunKeepsInv(s, lock);
      var rest := QueueingCanReturn(Exec(s, lock), i);
      ExecConcat(s, lock, rest);
      run := lock + rest;
  }

  /** No reachable state is stuck: whatever has happened, and without any help from outside, every loop thread can
      still finish what it is doing and every listener can still get back from its callback. */
  lemma NobodyIsStuck(instances: nat, before: seq<Action>, l: Loop, i: nat)
    ensures var s := Exec(Initial(instances), before);
            && (l in s.loops ==> exists run :: Possible(s, run) && NoRequests(run) && IsDoing(Exec(s, run), l, Idle))
            && (i < |s.callbacks| ==> exists run :: Possible(s, run) && NoRequests(run) && Back(Exec(s, run), i))
  {
    var s := Exec(Initial(instances), before);
    InitialInv(instances);
    RunKeepsInv(Initial(instances), before);
    if l in s.loops {
      var run := LoopCanFinish(s, l);
      assert Possible(s, run) && NoRequests(run) && IsDoing(Exec(s, run), l, Idle);
    }
    if i < |s.callbacks| {
      var run := CallbackCanFinish(s, i);
      assert Possible(s, run) && NoRequests(run) && Back(Exec(s, run), i);
    }
  }
}
