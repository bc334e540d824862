/** What the three views of who is online have in common: the loops' own connections, the session index and
    the channel subscriptions. */
module Sessions {
  import PubSub
  import opened Strings
  import opened ChatServer
  import opened Progress
  import opened Tracing

  /** The loop is between its own map and the session index for this user. */
  predicate WorkingOn(doing: Doing, user: User)
  {
    match doing
    case WantAdd(u) => u == user
    case Subscribing(u, _) => u == user
    case WantRemove(u) => u == user
    case _ => false
  }

  /** In every interleaving only the loop that holds the session index exclusively is inside subscribe or unsubscribe
      of any instance: while nobody holds it, nobody is. */
  lemma OnlyTheWriterCalls(instances: nat, run: seq<Action>, i: nat, t: Loop)
    requires var s := Exec(Initial(instances), run);
             i < |s.redis| && t in s.redis[i].calls
    ensures Exec(Initial(instances), run).writer == By(t)
  {
    InitialInv(instances);
    RunKeepsInv(Initial(instances), run);
    OnlyHolderCalls(Exec(Initial(instances), run), i, t);
  }

  /** ... and only at the edges: while a loop subscribes or unsubscribes a user's channel, nobody has the user in the
      index, so one login of many subscribes, and one logout of many unsubscribes. */
  lemma CallsOnlyAtTheEdges(instances: nat, run: seq<Action>, i: nat, t: Loop, user: User)
    requires var s := Exec(Initial(instances), run);
             i < |s.redis| && t in s.redis[i].calls && s.redis[i].calls[t].command.channel == UserChannel(user)
    ensures var s := Exec(Initial(instances), run);
            && user !in s.online && t in s.loops
            && (Local(s, t, user) != {} <==> s.redis[i].calls[t].command.Subscribe?)
  {
    var s := Exec(Initial(instances), run);
    InitialInv(instances);
    RunKeepsInv(Initial(instances), run);
    assert CallOk(s, i, t) && WriterOk(s, t);
    ChannelsDiffer(user, s.loops[t].doing.user);
    IndexAgrees(instances, run, t, user);
  }

  /** In every interleaving a loop is in the session index for a user exactly when it has a connection logged
      in as the user, except for the one pair it is in the middle of changing; and that pair differs in the
      direction of the change only. */
  lemma IndexAgrees(instances: nat, run: seq<Action>, l: Loop, user: User)
    requires l in Exec(Initial(instances), run).loops
    ensures var s := Exec(Initial(instances), run);
            var doing, connected := s.loops[l].doing, Local(s, l, user) != {};
            && (!WorkingOn(doing, user) ==> (l in Online(s, user) <==> connected))
            && (WorkingOn(doing, user) ==> if doing.WantRemove? then l in Online(s, user) && !connected else connected)
  {
    var s := Exec(Initial(instances), run);
    InitialInv(instances);
    RunKeepsInv(Initial(instances), run);
    assert Agree(s, l, user);
    assert user in s.loops[l].local ==> LocalOk(s, l, user);
  }

  /** Neither map keeps an empty set, and a connection is only ever filed in its own loop. */
  lemma NoEmptySets(instances: nat, run: seq<Action>, l: Loop, user: User)
    ensures var s := Exec(Initial(instances), run);
            && (user in s.online ==> s.online[user] != {})
            && (l in s.loops && user in s.loops[l].local ==>
                  s.loops[l].local[user] != {}
                  && forall c :: c in s.loops[l].local[user] ==> c in s.home && s.home[c] == l)
  {
    var s := Exec(Initial(instances), run);
    InitialInv(instances);
    RunKeepsInv(Initial(instances), run);
    assert user in s.online ==> OnlineOk(s, user);
    assert l in s.loops && user in s.loops[l].local ==> LocalOk(s, l, user);
  }

  /** The user's channel will be subscribed once the instance has executed what was written to it. */
  ghost predicate RequestedAt(s: State, i: nat, user: User)
  {
    i < |s.redis| && UserChannel(user) in PubSub.Requested(s.redis[i])
  }

  ghost predicate SubscribedAt(s: State, i: nat, user: User)
  {
    i < |s.redis| && UserChannel(user) in s.redis[i].subscriptions
  }

  /** The instance has executed everything written to it. */
  ghost predicate CaughtUp(s: State, i: nat)
  {
    i < |s.redis| && s.redis[i].commands == []
  }

  /** Subscriptions have been requested for every user in the session index, on every Redis, at every moment, and
      for nobody else whenever no thread holds the lock exclusively. An instance that has caught up has exactly
      the subscriptions requested of it. */
  lemma SubscribedWhileOnline(instances: nat, run: seq<Action>, i: nat, user: User)
    requires i < |Exec(Initial(instances), run).redis|
    ensures var s := Exec(Initial(instances), run);
            && (user in s.online ==> RequestedAt(s, i, user))
            && (s.writer.Nobody? ==> (RequestedAt(s, i, user) <==> user in s.online))
            && (CaughtUp(s, i) ==> (SubscribedAt(s, i, user) <==> RequestedAt(s, i, user)))
  {
    InitialInv(instances);
    RunKeepsInv(Initial(instances), run);
    assert SubscriptionOk(Exec(Initial(instances), run), i, user);
  }

  ghost predicate Connected(s: State, user: User)
  {
    exists l :: l in s.loops && Local(s, l, user) != {}
  }

  /** The three views together: when no loop is in the middle of a login or logout of the user, and the lock is
      not held exclusively, the user has a connection on this server exactly when the session index has the
      user, and exactly when the user's channel has been subscribed, on each Redis alike; on one that has caught
      up the subscription is in effect. */
  lemma ThreeViewsAgree(instances: nat, run: seq<Action>, user: User)
    requires var s := Exec(Initial(instances), run);
             s.writer.Nobody? && forall l :: l in s.loops ==> !WorkingOn(s.loops[l].doing, user)
    ensures var s := Exec(Initial(instances), run);
            && (Connected(s, user) <==> user in s.online)
            && forall i :: 0 <= i < |s.redis| ==>
                 && (RequestedAt(s, i, user) <==> Connected(s, user))
                 && (CaughtUp(s, i) ==> (SubscribedAt(s, i, user) <==> Connected(s, user)))
  {
    var s := Exec(Initial(instances), run);
    InitialInv(instances);
    RunKeepsInv(Initial(instances), run);
    if user in s.online {
      assert OnlineOk(s, user);
      var l :| l in s.online[user];
      IndexAgrees(instances, run, l, user);
    }
    forall l | l in s.loops && Local(s, l, user) != {}
      ensures user in s.online
    {
      IndexAgrees(instances, run, l, user);
    }
    forall i | 0 <= i < |s.redis|
      ensures RequestedAt(s, i, user) <==> user in s.online
      ensures CaughtUp(s, i) ==> (SubscribedAt(s, i, user) <==> RequestedAt(s, i, user))
    {
      SubscribedWhileOnline(instances, run, i, user);
    }
  }

  /** Only users' channels ever reach the callback. */
  lemma OnlyUserChannels(instances: nat, run: seq<Action>, i: nat)
    requires i < |Exec(Initial(instances), run).redis| && Exec(Initial(instances), run).redis[i].listener.Calling?
    ensures IsUserChannel(Exec(Initial(instances), run).redis[i].listener.channel)
  {
    InitialInv(instances);
    RunKeepsInv(Initial(instances), run);
    assert InstanceOk(Exec(Initial(instances), run).redis[i]);
  }

  // -------------------------------------------------------------------------------- search

  lemma SearchingStep(s: State, a: Action, l: Loop)
    requires Inv(s) && Enabled(s, a) && l in s.loops && s.loops[l].doing.Searching? && a != UnlockSearch(l)
    ensures var t := Do(s, a);
            && l in t.loops && t.loops[l].doing.Searching?
            && t.loops[l].doing.keyword == s.loops[l].doing.keyword && t.online == s.online
  {
    assert SearchOk(s, l);
    if a.Redis? {
      assert RedisDo(s, a.instance, a.action).online == s.online;
    } else if SessionEnabled(s, a) {
      SearchingAfterSession(s, a, l);
    } else if DeliveryEnabled(s, a) {
      assert DeliveryDo(s, a).online == s.online;
    }
  }

  lemma SearchingAfterSession(s: State, a: Action, l: Loop)
    requires Inv(s) && SessionEnabled(s, a) && l in s.loops && s.loops[l].doing.Searching?
    ensures var t := SessionDo(s, a);
            && l in t.loops && t.loops[l].doing == s.loops[l].doing && t.online == s.online
  {
    assert SearchOk(s, l);
    if a.loop in s.loops {
      assert WriterOk(s, a.loop);
    }
  }

  lemma {:induction false} StillSearching(s: State, run: seq<Action>, l: Loop)
    requires Inv(s) && l in s.loops && s.loops[l].doing.Searching? && UnlockSearch(l) !in run
    ensures var t := Exec(s, run);
            && l in t.loops && t.loops[l].doing.Searching?
            && t.loops[l].doing.keyword == s.loops[l].doing.keyword && t.online == s.online
    decreases |run|
  {
    if run != [] {
      var front, a := run[..|run| - 1], run[|run| - 1];
      assert a in run;
      StillSearching(s, front, l);
      RunKeepsInv(s, front);
      if Enabled(Exec(s, front), a) {
        SearchingStep(Exec(s, front), a, l);
      }
    }
  }

  /** A search among the online users sees one moment: whatever logins and logouts run beside it, what it has
      found when it has looked at everybody is exactly the matching users of the moment it took the lock, and
      still of the moment it releases it. */
  lemma SearchSeesOneMoment(instances: nat, before: seq<Action>, rest: seq<Action>, l: Loop)
    requires Enabled(Exec(Initial(instances), before), LockSearch(l)) && UnlockSearch(l) !in rest
    requires var end := Exec(Do(Exec(Initial(instances), before), LockSearch(l)), rest);
             Enabled(end, UnlockSearch(l))
    ensures var start := Exec(Initial(instances), before);
            var end := Exec(Do(start, LockSearch(l)), rest);
            && end.online == start.online
            && forall user :: user in end.loops[l].doing.found <==>
                 user in start.online && Contains(user, start.loops[l].doing.keyword)
  {
    var start := Exec(Initial(instances), before);
    InitialInv(instances);
    RunKeepsInv(Initial(instances), before);
    StepKeepsInv(start, LockSearch(l));
    var locked := Do(start, LockSearch(l));
    StillSearching(locked, rest, l);
    RunKeepsInv(locked, rest);
    assert SearchOk(Exec(locked, rest), l);
  }

  // ------------------------------------------------------------------------------ connected

  lemma ConnectedStep(s: State, a: Action, l: Loop, c: Conn)
    requires Enabled(s, a) && l in s.loops && c in s.home && c in s.received
    ensures var t := Do(s, a); l in t.loops && c in t.home && t.home[c] == s.home[c] && c in t.received
  {
    if a.Redis? {
      RedisKeepsLocals(s, a.instance, a.action, l);
      assert RedisDo(s, a.instance, a.action).home == s.home && RedisDo(s, a.instance, a.action).received == s.received;
    } else if SessionEnabled(s, a) {
      ConnectedAfterSession(s, a, l, c);
    }
  }

  lemma ConnectedAfterSession(s: State, a: Action, l: Loop, c: Conn)
    requires SessionEnabled(s, a) && l in s.loops && c in s.home && c in s.received
    ensures var t := SessionDo(s, a); l in t.loops && c in t.home && t.home[c] == s.home[c] && c in t.received
  {
  }

  lemma {:induction false} ConnectedStays(s: State, run: seq<Action>, l: Loop, c: Conn)
    requires l in s.loops && c in s.home && c in s.received
    ensures var t := Exec(s, run); l in t.loops && c in t.home && t.home[c] == s.home[c] && c in t.received
    decreases |run|
  {
    if run != [] {
      var front, a := run[..|run| - 1], run[|run| - 1];
      ConnectedStays(s, front, l, c);
      if Enabled(Exec(s, front), a) {
        ConnectedStep(Exec(s, front), a, l, c);
      }
    }
  }

  /** A connection belongs to the loop in which it came up, for good; that loop, and no other, can log it in whenever it
      is at its queue. */
  lemma LogsInAtHome(instances: nat, before: seq<Action>, l: Loop, c: Conn, rest: seq<Action>, m: Loop, user: User)
    requires Enabled(Exec(Initial(instances), before), Connect(l, c))
    ensures var t := Exec(Initial(instances), before + [Connect(l, c)] + rest);
            && l in t.loops && c in t.received
            && (Enabled(t, Login(m, c, user)) <==> m == l && t.loops[l].doing.Idle?)
  {
    var start := before + [Connect(l, c)];
    ExecSnoc(Initial(instances), before, Connect(l, c));
    ConnectedStays(Exec(Initial(instances), start), rest, l, c);
    ExecConcat(Initial(instances), start, rest);
  }

  // ------------------------------------------------------------------------------ logged in

  /** In the course of the run the connection logged in as the user, and has not been logged out since. */
  ghost predicate HasLoggedIn(s: State, run: seq<Action>, l: Loop, c: Conn, user: User)
    decreases |run|
  {
    && run != []
    && var front, a := run[..|run| - 1], run[|run| - 1];
       if Enabled(Exec(s, front), a) && (a == Login(l, c, user) || a == Action.Logout(l, c, user)) then a.Login?
       else HasLoggedIn(s, front, l, c, user)
  }

  lemma LoggedInStep(s: State, a: Action, l: Loop, c: Conn, user: User)
    requires Enabled(s, a)
    ensures LoggedIn(Do(s, a), l, c, user) <==>
              a == Login(l, c, user) || (a != Action.Logout(l, c, user) && LoggedIn(s, l, c, user))
  {
    if a.Redis? {
      RedisKeepsLocals(s, a.instance, a.action, l);
    } else if SessionEnabled(s, a) {
      LoggedInAfterSession(s, a, l, c, user);
    } else if DeliveryEnabled(s, a) {
      assert l in s.loops ==> DeliveryDo(s, a).loops[l].local == s.loops[l].local;
    }
  }

  lemma RedisKeepsLocals(s: State, i: nat, a: PubSub.Action, l: Loop)
    requires RedisEnabled(s, i, a)
    ensures var t := RedisDo(s, i, a); t.loops.Keys == s.loops.Keys && (l in s.loops ==> t.loops[l].local == s.loops[l].local)
  {
  }

  lemma LoggedInAfterSession(s: State, a: Action, l: Loop, c: Conn, user: User)
    requires SessionEnabled(s, a)
    ensures LoggedIn(SessionDo(s, a), l, c, user) <==>
              a == Login(l, c, user) || (a != Action.Logout(l, c, user) && LoggedIn(s, l, c, user))
  {
  }

  /** In every interleaving a loop holds a connection under a name exactly if it logged in under the name and has not
      been logged out of it since. */
  lemma {:induction false} LoggedInExactly(instances: nat, run: seq<Action>, l: Loop, c: Conn, user: User)
    ensures LoggedIn(Exec(Initial(instances), run), l, c, user) <==> HasLoggedIn(Initial(instances), run, l, c, user)
    decreases |run|
  {
    if run != [] {
      var front, a := run[..|run| - 1], run[|run| - 1];
      LoggedInExactly(instances, front, l, c, user);
      if Enabled(Exec(Initial(instances), front), a) {
        LoggedInStep(Exec(Initial(instances), front), a, l, c, user);
      }
    }
  }

  // -------------------------------------------------------------------------------- logout

  /** The names under which the loop holds the connection. */
  ghost function Names(s: State, l: Loop, c: Conn): set<User>
    requires l in s.loops
  {
    set user | user in s.loops[l].local && c in s.loops[l].local[user]
  }

  /** A logout takes the connection from one name and touches no other connection. */
  lemma LogoutRemovesOneName(s: State, l: Loop, c: Conn, user: User, other: Conn)
    requires Enabled(s, Logout(l, c, user))
    ensures var t := Do(s, Logout(l, c, user));
            && l in t.loops && Names(t, l, c) == Names(s, l, c) - {user}
            && (other != c ==> Names(t, l, other) == Names(s, l, other))
  {
    var t := Do(s, Logout(l, c, user));
    assert Names(t, l, c) == Names(s, l, c) - {user};
    if other != c {
      assert other in s.loops[l].local[user] <==> other in s.loops[l].local[user] - {c};
      assert Names(t, l, other) == Names(s, l, other);
    }
  }

  /** The connection is in no loop's map. */
  ghost predicate Gone(s: State, c: Conn)
  {
    forall l, user {:trigger Local(s, l, user)} :: l in s.loops ==> c !in Local(s, l, user)
  }

  /** A disconnect, which logs the connection out once, leaves no trace of it exactly when the connection was
      held under that name only; logout stops at the first name it finds. */
  lemma DisconnectLeavesNoTrace(s: State, l: Loop, c: Conn, user: User)
    requires Inv(s) && Enabled(s, Logout(l, c, user))
    ensures Gone(Do(s, Logout(l, c, user)), c) <==> Names(s, l, c) == {user}
  {
    var t := Do(s, Logout(l, c, user));
    LogoutRemovesOneName(s, l, c, user, c);
    assert user in Names(s, l, c);
    if Gone(t, c) {
      forall u | u in Names(s, l, c)
        ensures u == user
      {
        assert c !in Local(t, l, u);
      }
    }
    if Names(s, l, c) == {user} {
      forall m, u | m in t.loops
        ensures c !in Local(t, m, u)
      {
        assert LocalOk(s, l, user);
        assert u in s.loops[m].local ==> LocalOk(s, m, u);
        assert u in Names(t, l, c) <==> c in Local(t, l, u);
      }
    }
  }

  /** Nothing more is sent on a connection that is in no loop's map, until it logs in again. */
  lemma {:induction false} GoneReceivesNothing(s: State, run: seq<Action>, c: Conn)
    requires Inv(s) && c in s.received && Gone(s, c)
    requires forall k :: 0 <= k < |run| && run[k].Login? ==> run[k].conn != c
    ensures var t := Exec(s, run); Inv(t) && Gone(t, c) && c in t.received && t.received[c] == s.received[c]
    decreases |run|
  {
    if run != [] {
      var front, a := run[..|run| - 1], run[|run| - 1];
      GoneReceivesNothing(s, front, c);
      if Enabled(Exec(s, front), a) {
        GoneStep(Exec(s, front), a, c);
      }
    }
  }

  lemma GoneStep(s: State, a: Action, c: Conn)
    requires Inv(s) && c in s.received && Gone(s, c) && Enabled(s, a) && (a.Login? ==> a.conn != c)
    ensures Inv(Do(s, a)) && Gone(Do(s, a), c) && c in Do(s, a).received && Do(s, a).received[c] == s.received[c]
  {
    StepKeepsInv(s, a);
    OnlyHoldersReceive(s, a, c);
    forall l, user | l in Do(s, a).loops
      ensures c !in Local(Do(s, a), l, user)
    {
      LoggedInStep(s, a, l, c, user);
      assert l in s.loops ==> c !in Local(s, l, user);
    }
  }

  /** Only these names are logged in under. */
  ghost predicate LoginsIn(run: seq<Action>, names: iset<User>)
  {
    forall k :: 0 <= k < |run| && run[k].Login? ==> run[k].user in names
  }

  /** A login that finds the lock free, to its end. */
  lemma LoginCompletes(s: State, l: Loop, c: Conn, user: User) returns (run: seq<Action>)
    requires Inv(s) && LockFree(s) && Enabled(s, Login(l, c, user))
    ensures Inv(Exec(s, run)) && LockFree(Exec(s, run)) && LoginsIn(run, iset{user})
    ensures var local := s.loops[l].local[user := Local(s, l, user) + {c}];
            Exec(s, run).loops == s.loops[l := s.loops[l].(local := local, doing := Idle)]
  {
    ExecOne(s, Login(l, c, user));
    StepKeepsInv(s, Login(l, c, user));
    var started := Do(s, Login(l, c, user));
    var rest := WaitingLoginCompletes(started, l);
    ExecConcat(s, [Login(l, c, user)], rest);
    run := [Login(l, c, user)] + rest;
  }

  lemma WaitingLoginCompletes(s: State, l: Loop) returns (run: seq<Action>)
    requires Inv(s) && LockFree(s) && l in s.loops && s.loops[l].doing.WantAdd?
    ensures Inv(Exec(s, run)) && LockFree(Exec(s, run)) && NoRequests(run)
    ensures Exec(s, run).loops == s.loops[l := s.loops[l].(doing := Idle)]
  {
    ExecOne(s, LockExclusive(l));
    StepKeepsInv(s, LockExclusive(l));
    var locked := Do(s, LockExclusive(l));
    assert WriterOk(locked, l);
    var rest := HolderCanFinish(locked, l);
    RunKeepsInv(locked, rest);
    ExecConcat(s, [LockExclusive(l)], rest);
    run := [LockExclusive(l)] + rest;
    assert locked.loops[l := locked.loops[l].(doing := Idle)] == s.loops[l := s.loops[l].(doing := Idle)];
  }

  /** A second login leaves the connection in two sets. */
  lemma SecondLogin(s: State, l: Loop, c: Conn, first: User, second: User) returns (run: seq<Action>)
    requires Inv(s) && LockFree(s) && IsDoing(s, l, Idle) && c in Local(s, l, first) && first != second
    ensures Inv(Exec(s, run)) && IsDoing(Exec(s, run), l, Idle)
    ensures {first, second} <= Names(Exec(s, run), l, c)
  {
    assert LocalOk(s, l, first);
    run := LoginCompletes(s, l, c, second);
  }

  lemma FirstConnection(instances: nat, user: User)
    ensures var s := Exec(Initial(instances), [ThreadInit(0)] + [Connect(0, 0)]);
            Inv(s) && LockFree(s) && Enabled(s, Login(0, 0, user)) && |s.redis| == instances
  {
    var s := Initial(instances);
    ExecOne(s, ThreadInit(0));
    ExecOne(Next(s, ThreadInit(0)), Connect(0, 0));
    ExecConcat(s, [ThreadInit(0)], [Connect(0, 0)]);
    InitialInv(instances);
    RunKeepsInv(s, [ThreadInit(0)] + [Connect(0, 0)]);
  }

  lemma LoginsConcat(a: seq<Action>, b: seq<Action>, names: iset<User>)
    requires LoginsIn(a, names) && LoginsIn(b, names)
    ensures LoginsIn(a + b, names)
  {
  }

  /** The first connection of a server logs in. */
  lemma FirstLogin(instances: nat, user: User) returns (run: seq<Action>)
    ensures LoginsIn(run, iset{user})
    ensures var s := Exec(Initial(instances), run);
            && Inv(s) && LockFree(s) && |s.redis| == instances
            && 0 in s.loops && s.loops[0].doing.Idle? && 0 in Local(s, 0, user) && 0 in Online(s, user)
  {
    var s0, start := Initial(instances), [ThreadInit(0)] + [Connect(0, 0)];
    FirstConnection(instances, user);
    var s1 := Exec(s0, start);
    var login := LoginCompletes(s1, 0, 0, user);
    assert Agree(Exec(s1, login), 0, user);
    InstancesStay(s1, login);
    ExecConcat(s0, start, login);
    run := start + login;
    LoginsConcat(start, login, iset{user});
  }

  /** The promise fails on a connection that logs in as a and then as b: disconnecting it takes it from one of
      the two, and leaves it behind in the other. */
  lemma TwoNamesOneDisconnect(instances: nat) returns (run: seq<Action>)
    ensures var s := Exec(Initial(instances), run);
            Enabled(s, Logout(0, 0, "a")) && !Gone(Do(s, Logout(0, 0, "a")), 0)
  {
    var s0, start := Initial(instances), [ThreadInit(0)] + [Connect(0, 0)];
    FirstConnection(instances, "a");
    var s1 := Exec(s0, start);
    var first := LoginCompletes(s1, 0, 0, "a");
    var second := SecondLogin(Exec(s1, first), 0, 0, "a", "b");
    ExecConcat(s1, first, second);
    ExecConcat(s0, start, first + second);
    run := start + (first + second);
    var s := Exec(s0, run);
    assert "a" in Names(s, 0, 0) && "b" in Names(s, 0, 0);
    DisconnectLeavesNoTrace(s, 0, 0, "a");
  }
}
