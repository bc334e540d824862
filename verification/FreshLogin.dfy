/** What a user who has just logged in may miss: subscribe returns when its command is written, and until the
    instance has executed it, publishes to the user go nowhere. */
module FreshLogin {
  import PubSub
  import opened ChatServer
  import opened Progress
  import opened Tracing

  /** A publish for a logged-in user adds no copy exactly when the instance has not executed the subscription. */
  lemma MissedExactly(s: State, a: Action, l: Loop, c: Conn, d: Delivery)
    requires Inv(s) && LoggedIn(s, l, c, d.user) && l in Online(s, d.user) && Publishes(s, a, d)
    ensures Inv(Next(s, a)) && LoggedIn(Next(s, a), l, c, d.user)
    ensures Copies(Next(s, a), l, c, d) == Copies(s, l, c, d) <==>
              UserChannel(d.user) !in s.redis[a.instance].subscriptions
  {
    if Enabled(s, a) {
      RedisKeepsSessions(s, a.instance, a.action);
      assert SameLoop(s.loops[l], Do(s, a).loops[l]);
    }
    CopiesStep(s, a, l, c, d);
  }

  // --------------------------------------------------------------- a run that misses a message

  /** One Redis, one loop, one connection. */
  function Small(r: PubSub.State, user: User, doing: Doing, online: map<User, set<Loop>>, writer: Writer): State
  {
    State([r], [Outside], map[0 := LoopState(map[user := {0}], [], doing)], online, writer, map[0 := 0], map[0 := []])
  }

  /** The connection before and inside subscribe, with what has been written to it. */
  function Connection(mutex: PubSub.Mutex, calls: map<PubSub.Thread, PubSub.Call>, written: seq<PubSub.Command>): PubSub.State
  {
    PubSub.INITIAL.(mutex := mutex, calls := calls, commands := PubSub.INITIAL.commands + written)
  }

  function Starting(user: User): seq<Action>
  {
    [ThreadInit(0)] + [Connect(0, 0)] + [Login(0, 0, user)] + [LockExclusive(0)]
  }

  /** One connection, not logged in. */
  const CONNECTED: State :=
    State([PubSub.INITIAL], [Outside], map[0 := LoopState(map[], [], Idle)], map[], Nobody, map[0 := 0], map[0 := []])

  lemma Connects()
    ensures Exec(Initial(1), [ThreadInit(0)] + [Connect(0, 0)]) == CONNECTED
  {
    ExecOne(Initial(1), ThreadInit(0));
    ExecSnoc(Initial(1), [ThreadInit(0)], Connect(0, 0));
    assert Initial(1).callbacks == [Outside] && Initial(1).redis == [PubSub.INITIAL];
  }

  lemma LoginStep(user: User)
    ensures Next(CONNECTED, Login(0, 0, user))
         == Small(Connection(PubSub.Free, map[], []), user, WantAdd(user), map[], Nobody)
  {
    var nobody: map<User, set<Conn>> := map[];
    assert {} + {0} == {0};
    assert nobody[user := {0}] == map[user := {0}];
    assert PubSub.INITIAL.commands + [] == PubSub.INITIAL.commands;
    assert Connection(PubSub.Free, map[], []) == PubSub.INITIAL;
  }

  lemma LockStep(r: PubSub.State, user: User)
    ensures Next(Small(r, user, WantAdd(user), map[], Nobody), LockExclusive(0))
         == Small(r, user, Subscribing(user, 0), map[], By(0))
  {
  }

  lemma Starts(user: User)
    ensures Exec(Initial(1), Starting(user))
         == Small(Connection(PubSub.Free, map[], []), user, Subscribing(user, 0), map[], By(0))
  {
    Connects();
    LoginStep(user);
    LockStep(Connection(PubSub.Free, map[], []), user);
    ExecSnoc(Initial(1), [ThreadInit(0)] + [Connect(0, 0)], Login(0, 0, user));
    ExecSnoc(Initial(1), [ThreadInit(0)] + [Connect(0, 0)] + [Login(0, 0, user)], LockExclusive(0));
  }

  function Subscribed(user: User): seq<Action>
  {
    var command := PubSub.Subscribe(UserChannel(user));
    [Redis(0, PubSub.Enter(0, command))] + [Redis(0, PubSub.Lock(0))] + [Redis(0, PubSub.Write(0))]
    + [Redis(0, PubSub.Return(0))] + [Insert(0)]
  }

  lemma InstanceStep(r: PubSub.State, a: PubSub.Action, user: User, doing: Doing)
    requires RedisEnabled(Small(r, user, doing, map[], By(0)), 0, a) && !a.Return? && !a.Dispatch? && !a.CallbackReturns?
    ensures Next(Small(r, user, doing, map[], By(0)), Redis(0, a)) == Small(PubSub.Do(r, a), user, doing, map[], By(0))
  {
    assert [r][0 := PubSub.Do(r, a)] == [PubSub.Do(r, a)];
  }

  lemma CallSteps(command: PubSub.Command)
    requires command.channel != PubSub.UNLOCK_CHANNEL
    ensures var idle := Connection(PubSub.Free, map[], []);
            var trying := Connection(PubSub.Free, map[0 := PubSub.Trying(command)], []);
            var owning := Connection(PubSub.ByThread(0), map[0 := PubSub.Owning(command)], []);
            var leaving := Connection(PubSub.ByThread(0), map[0 := PubSub.Leaving(command)], [command]);
            && PubSub.Enabled(idle, PubSub.Enter(0, command)) && PubSub.Do(idle, PubSub.Enter(0, command)) == trying
            && PubSub.Enabled(trying, PubSub.Lock(0)) && PubSub.Do(trying, PubSub.Lock(0)) == owning
            && PubSub.Enabled(owning, PubSub.Write(0)) && PubSub.Do(owning, PubSub.Write(0)) == leaving
            && PubSub.Enabled(leaving, PubSub.Return(0))
            && PubSub.Do(leaving, PubSub.Return(0)) == Connection(PubSub.Free, map[], [command])
  {
    assert map[0 := PubSub.Trying(command)][0 := PubSub.Owning(command)] == map[0 := PubSub.Owning(command)];
    assert map[0 := PubSub.Owning(command)][0 := PubSub.Leaving(command)] == map[0 := PubSub.Leaving(command)];
    assert map[0 := PubSub.Leaving(command)] - {0} == map[];
    assert PubSub.INITIAL.commands + [] + [command] == PubSub.INITIAL.commands + [command];
  }

  lemma ReturnStep(r: PubSub.State, user: User)
    requires RedisEnabled(Small(r, user, Subscribing(user, 0), map[], By(0)), 0, PubSub.Return(0))
    ensures Next(Small(r, user, Subscribing(user, 0), map[], By(0)), Redis(0, PubSub.Return(0)))
         == Small(PubSub.Do(r, PubSub.Return(0)), user, Subscribing(user, 1), map[], By(0))
  {
    assert [r][0 := PubSub.Do(r, PubSub.Return(0))] == [PubSub.Do(r, PubSub.Return(0))];
  }

  lemma InsertStep(r: PubSub.State, user: User)
    ensures Next(Small(r, user, Subscribing(user, 1), map[], By(0)), Insert(0)) == Small(r, user, Idle, map[user := {0}], Nobody)
  {
    var nobody: map<User, set<Loop>> := map[];
    assert {} + {0} == {0};
    assert nobody[user := {0}] == map[user := {0}];
  }

  lemma Subscribes(user: User)
    ensures var command := PubSub.Subscribe(UserChannel(user));
            Exec(Small(Connection(PubSub.Free, map[], []), user, Subscribing(user, 0), map[], By(0)), Subscribed(user))
            == Small(Connection(PubSub.Free, map[], [command]), user, Idle, map[user := {0}], Nobody)
  {
    var command, doing := PubSub.Subscribe(UserChannel(user)), Subscribing(user, 0);
    var enter, lock, write, leave :=
      Redis(0, PubSub.Enter(0, command)), Redis(0, PubSub.Lock(0)), Redis(0, PubSub.Write(0)), Redis(0, PubSub.Return(0));
    var s := Small(Connection(PubSub.Free, map[], []), user, doing, map[], By(0));
    ChannelOfUser(user, PubSub.UNLOCK_CHANNEL);
    CallSteps(command);
    InstanceStep(Connection(PubSub.Free, map[], []), PubSub.Enter(0, command), user, doing);
    InstanceStep(Connection(PubSub.Free, map[0 := PubSub.Trying(command)], []), PubSub.Lock(0), user, doing);
    InstanceStep(Connection(PubSub.ByThread(0), map[0 := PubSub.Owning(command)], []), PubSub.Write(0), user, doing);
    ReturnStep(Connection(PubSub.ByThread(0), map[0 := PubSub.Leaving(command)], [command]), user);
    InsertStep(Connection(PubSub.Free, map[], [command]), user);
    ExecOne(s, enter);
    ExecSnoc(s, [enter], lock);
    ExecSnoc(s, [enter] + [lock], write);
    ExecSnoc(s, [enter] + [lock] + [write], leave);
    ExecSnoc(s, [enter] + [lock] + [write] + [leave], Insert(0));
  }

  /** A user logs in, and anybody publishes to the user before Redis has executed anything: the login is complete,
      the publish succeeds, and it leaves no trace. */
  lemma FreshLoginMisses(user: User, text: Text) returns (run: seq<Action>)
    ensures var s, publish := Exec(Initial(1), run), Redis(0, PubSub.Publish(UserChannel(user), text));
            && Inv(s) && IsDoing(s, 0, Idle) && s.writer.Nobody? && LoggedIn(s, 0, 0, user) && 0 in Online(s, user)
            && |s.redis| == 1 && s.redis[0].subscriptions == {}
            && Publishes(s, publish, Delivery(user, text)) && Enabled(s, publish)
            && !Accepted(s, publish, Delivery(user, text)) && Next(s, publish) == s
  {
    Starts(user);
    Subscribes(user);
    ExecConcat(Initial(1), Starting(user), Subscribed(user));
    run := Starting(user) + Subscribed(user);
    InitialInv(1);
    RunKeepsInv(Initial(1), run);
  }
}
