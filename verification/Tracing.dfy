/** Routing: publish to one Redis, subscribe to all. Every copy of a message is followed from the instance it
    was published to, through the listener, its callback and the loop's queue, to each connection. */
module Tracing {
  import PubSub
  import opened ChatServer

  // ------------------------------------------------- where the copies for one connection are

  function MessageFor(d: Delivery): PubSub.Reply
  {
    PubSub.Message(UserChannel(d.user), d.text)
  }

  /** In one instance, its listener or its callback, with the loop still to be served. */
  ghost function AtInstance(s: State, i: nat, l: Loop, d: Delivery): nat
    requires i < |s.redis| == |s.callbacks|
  {
    InRedis(s.redis[i], MessageFor(d)) + InCallback(s.redis[i].listener, s.callbacks[i], l, d)
  }

  ghost function InRedis(r: PubSub.State, message: PubSub.Reply): nat
  {
    multiset(r.replies)[message] + if r.listener == PubSub.Handling(message) then 1 else 0
  }

  ghost function InCallback(listener: PubSub.Listener, callback: Callback, l: Loop, d: Delivery): nat
  {
    match callback
    case Entered => if listener == PubSub.Calling(UserChannel(d.user), d.text) then 1 else 0
    case Queueing(delivery, todo) => if delivery == d && l in todo then 1 else 0
    case _ => 0
  }

  ghost function AtInstances(s: State, n: nat, l: Loop, d: Delivery): nat
    requires n <= |s.redis| == |s.callbacks|
  {
    if n == 0 then 0 else AtInstances(s, n - 1, l, d) + AtInstance(s, n - 1, l, d)
  }

  /** In the loop: queued, or about to be sent on the connection. */
  ghost function AtLoop(s: State, l: Loop, c: Conn, d: Delivery): nat
    requires l in s.loops
  {
    var doing := s.loops[l].doing;
    multiset(s.loops[l].queue)[d]
    + if doing.Sending? && doing.delivery == d && c in doing.todo then 1 else 0
  }

  ghost function Received(s: State, c: Conn, d: Delivery): nat
    requires c in s.received
  {
    multiset(s.received[c])[d]
  }

  ghost predicate LoggedIn(s: State, l: Loop, c: Conn, user: User)
  {
    l in s.loops && c in Local(s, l, user)
  }

  /** All copies of d that connection c has received or will receive. */
  ghost function Copies(s: State, l: Loop, c: Conn, d: Delivery): nat
    requires Inv(s) && LoggedIn(s, l, c, d.user)
  {
    assert LocalOk(s, l, d.user);
    Received(s, c, d) + AtLoop(s, l, c, d) + AtInstances(s, |s.redis|, l, d)
  }

  // ------------------------------------------------------------------------------ one step

  predicate Publishes(s: State, a: Action, d: Delivery)
  {
    a.Redis? && a.instance < |s.redis| && a.action == PubSub.Publish(UserChannel(d.user), d.text)
  }

  /** ... on an instance that has executed our subscription to the user's channel. */
  predicate Accepted(s: State, a: Action, d: Delivery)
  {
    Publishes(s, a, d) && UserChannel(d.user) in s.redis[a.instance].subscriptions
  }

  lemma {:induction false} InstancesUnchanged(s: State, t: State, n: nat, l: Loop, d: Delivery)
    requires n <= |s.redis| == |s.callbacks| && n <= |t.redis| == |t.callbacks|
    requires forall i {:trigger AtInstance(t, i, l, d)} :: 0 <= i < n ==> AtInstance(t, i, l, d) == AtInstance(s, i, l, d)
    ensures AtInstances(t, n, l, d) == AtInstances(s, n, l, d)
  {
    if n > 0 {
      InstancesUnchanged(s, t, n - 1, l, d);
    }
  }

  lemma {:induction false} OneInstanceChanged(s: State, t: State, j: nat, n: nat, l: Loop, d: Delivery)
    requires j < n <= |s.redis| == |s.callbacks| && n <= |t.redis| == |t.callbacks|
    requires forall i {:trigger AtInstance(t, i, l, d)} ::
               0 <= i < n && i != j ==> AtInstance(t, i, l, d) == AtInstance(s, i, l, d)
    ensures AtInstances(t, n, l, d) - AtInstance(t, j, l, d) == AtInstances(s, n, l, d) - AtInstance(s, j, l, d)
  {
    if n - 1 == j {
      InstancesUnchanged(s, t, n - 1, l, d);
    } else {
      OneInstanceChanged(s, t, j, n - 1, l, d);
    }
  }

  lemma InRedisStep(r: PubSub.State, a: PubSub.Action, m: PubSub.Reply)
    requires PubSub.Enabled(r, a) && !a.Dispatch? && !a.Read?
    requires m.Message? && m.channel != PubSub.UNLOCK_CHANNEL
    ensures InRedis(PubSub.Do(r, a), m)
         == InRedis(r, m) + if a == PubSub.Publish(m.channel, m.text) && m.channel in r.subscriptions then 1 else 0
  {
  }

  lemma ReadStep(r: PubSub.State, m: PubSub.Reply)
    requires PubSub.Enabled(r, PubSub.Read)
    ensures InRedis(PubSub.Do(r, PubSub.Read), m) == InRedis(r, m)
  {
    assert r.replies == [r.replies[0]] + r.replies[1..];
  }

  lemma DispatchStep(s: State, j: nat, l: Loop, d: Delivery)
    requires RedisEnabled(s, j, PubSub.Dispatch) && CallbackOk(s, j)
    ensures AtInstance(RedisDo(s, j, PubSub.Dispatch), j, l, d) == AtInstance(s, j, l, d)
  {
    ChannelOfUser(d.user, PubSub.UNLOCK_CHANNEL);
  }

  lemma InCallbackStep(s: State, j: nat, a: PubSub.Action, l: Loop, d: Delivery)
    requires RedisEnabled(s, j, a) && CallbackOk(s, j) && !a.Dispatch?
    ensures var t := RedisDo(s, j, a);
            InCallback(t.redis[j].listener, t.callbacks[j], l, d) == InCallback(s.redis[j].listener, s.callbacks[j], l, d)
  {
  }

  lemma RedisStep(s: State, j: nat, a: PubSub.Action, l: Loop, d: Delivery)
    requires RedisEnabled(s, j, a) && CallbackOk(s, j)
    ensures var t := RedisDo(s, j, a);
            && |t.redis| == |t.callbacks| == |s.redis|
            && AtInstance(t, j, l, d)
               == AtInstance(s, j, l, d) + (if Accepted(s, Redis(j, a), d) then 1 else 0)
            && forall i {:trigger AtInstance(t, i, l, d)} ::
                 0 <= i < |s.redis| && i != j ==> AtInstance(t, i, l, d) == AtInstance(s, i, l, d)
  {
    ChannelOfUser(d.user, PubSub.UNLOCK_CHANNEL);
    if a.Dispatch? {
      DispatchStep(s, j, l, d);
    } else {
      if a.Read? {
        ReadStep(s.redis[j], MessageFor(d));
      } else {
        InRedisStep(s.redis[j], a, MessageFor(d));
      }
      InCallbackStep(s, j, a, l, d);
    }
  }

  lemma RedisStepAtLoop(s: State, j: nat, a: PubSub.Action, l: Loop, c: Conn, d: Delivery)
    requires RedisEnabled(s, j, a) && l in s.loops && c in s.received
    ensures var t := RedisDo(s, j, a);
            && l in t.loops && t.received == s.received && AtLoop(t, l, c, d) == AtLoop(s, l, c, d)
  {
  }

  lemma SessionStep(s: State, a: Action, l: Loop, c: Conn, d: Delivery)
    requires SessionEnabled(s, a) && l in s.loops && c in s.home && c in s.received
    ensures var t := SessionDo(s, a);
            && l in t.loops && c in t.received
            && t.redis == s.redis && t.callbacks == s.callbacks
            && AtLoop(t, l, c, d) == AtLoop(s, l, c, d) && Received(t, c, d) == Received(s, c, d)
  {
    SessionKeepsPipeline(s, a);
    SessionStepAtLoop(s, a, l, c, d);
  }

  lemma SessionStepAtLoop(s: State, a: Action, l: Loop, c: Conn, d: Delivery)
    requires SessionEnabled(s, a) && l in s.loops
    ensures l in SessionDo(s, a).loops && AtLoop(SessionDo(s, a), l, c, d) == AtLoop(s, l, c, d)
  {
    if a.loop != l {
      OthersUnchanged(s, a, l, d.user);
    }
  }

  /** The callback step that takes the shared lock picks the loops the user is online in. */
  lemma LockSharedStep(s: State, i: nat, l: Loop, d: Delivery)
    requires DeliveryEnabled(s, LockShared(i)) && |s.redis| == |s.callbacks| && InstanceOk(s.redis[i])
    requires l in Online(s, d.user)
    ensures AtInstance(DeliveryDo(s, LockShared(i)), i, l, d) == AtInstance(s, i, l, d)
  {
    ChannelOfUser(d.user, s.redis[i].listener.channel);
  }

  lemma QueueStep(s: State, i: nat, m: Loop, l: Loop, c: Conn, d: Delivery)
    requires DeliveryEnabled(s, QueueTo(i, m)) && |s.redis| == |s.callbacks| && l in s.loops
    ensures var t := DeliveryDo(s, QueueTo(i, m));
            AtInstance(t, i, l, d) + AtLoop(t, l, c, d) == AtInstance(s, i, l, d) + AtLoop(s, l, c, d)
  {
  }

  lemma LoopStep(s: State, a: Action, l: Loop, c: Conn, d: Delivery)
    requires DeliveryEnabled(s, a) && (a.Begin? || a.Send? || a.End?)
    requires LoggedIn(s, l, c, d.user) && c in s.received && LocalOk(s, l, d.user)
    requires SendingOk(s, a.loop) && (a.Send? ==> LocalOk(s, a.loop, s.loops[a.loop].doing.delivery.user))
    ensures var t := DeliveryDo(s, a);
            AtLoop(t, l, c, d) + Received(t, c, d) == AtLoop(s, l, c, d) + Received(s, c, d)
  {
    if a.Begin? {
      assert s.loops[a.loop].queue == [s.loops[a.loop].queue[0]] + s.loops[a.loop].queue[1..];
    }
  }

  lemma StaysOnline(s: State, a: Action, l: Loop, c: Conn, user: User)
    requires Inv(s) && Enabled(s, a) && LoggedIn(s, l, c, user) && l in Online(s, user)
    ensures l in Online(Do(s, a), user)
  {
    if a.Redis? {
      RedisKeepsSessions(s, a.instance, a.action);
    } else if SessionEnabled(s, a) {
      assert Agree(s, l, user);
      if a.loop != l {
        OthersUnchanged(s, a, l, user);
      }
    } else if DeliveryEnabled(s, a) {
      DeliveryKeepsSessions(s, a);
    } else {
      SearchKeepsSessions(s, a);
    }
  }

  lemma SearchStep(s: State, a: Action, l: Loop, c: Conn, d: Delivery)
    requires SearchEnabled(s, a) && l in s.loops && c in s.received
    ensures var t := SearchDo(s, a);
            && l in t.loops && t.received == s.received && t.redis == s.redis && t.callbacks == s.callbacks
            && AtLoop(t, l, c, d) == AtLoop(s, l, c, d)
  {
  }

  lemma DeliveryStep(s: State, a: Action, l: Loop, c: Conn, d: Delivery)
    requires Inv(s) && DeliveryEnabled(s, a) && LoggedIn(s, l, c, d.user) && l in Online(s, d.user)
    requires c in s.received
    ensures var t := DeliveryDo(s, a);
            && |t.redis| == |t.callbacks| == |s.redis| && l in t.loops && c in t.received
            && Received(t, c, d) + AtLoop(t, l, c, d) + AtInstances(t, |t.redis|, l, d)
               == Received(s, c, d) + AtLoop(s, l, c, d) + AtInstances(s, |s.redis|, l, d)
  {
    var t := DeliveryDo(s, a);
    if a.Begin? || a.Send? || a.End? {
      assert LocalOk(s, l, d.user) && SendingOk(s, a.loop);
      if a.Send? {
        assert LocalOk(s, a.loop, s.loops[a.loop].doing.delivery.user);
      }
      LoopStep(s, a, l, c, d);
      InstancesUnchanged(s, t, |s.redis|, l, d);
    } else {
      CallbackDeliveryStep(s, a, l, c, d);
    }
  }

  lemma CallbackDeliveryStep(s: State, a: Action, l: Loop, c: Conn, d: Delivery)
    requires Inv(s) && DeliveryEnabled(s, a) && (a.LockShared? || a.QueueTo? || a.UnlockShared?)
    requires l in s.loops && l in Online(s, d.user) && c in s.received
    ensures var t := DeliveryDo(s, a);
            && |t.redis| == |t.callbacks| == |s.redis| && l in t.loops && c in t.received
            && Received(t, c, d) + AtLoop(t, l, c, d) + AtInstances(t, |t.redis|, l, d)
               == Received(s, c, d) + AtLoop(s, l, c, d) + AtInstances(s, |s.redis|, l, d)
  {
    var t, i := DeliveryDo(s, a), a.instance;
    if a.LockShared? {
      assert InstanceOk(s.redis[i]);
      LockSharedStep(s, i, l, d);
    } else if a.QueueTo? {
      QueueStep(s, i, a.loop, l, c, d);
    }
    OneInstanceChanged(s, t, i, |s.redis|, l, d);
  }

  lemma PipelineStep(s: State, a: Action, l: Loop, c: Conn, d: Delivery)
    requires Inv(s) && Enabled(s, a) && LoggedIn(s, l, c, d.user) && l in Online(s, d.user) && LocalOk(s, l, d.user)
    ensures var t := Do(s, a);
            && |t.redis| == |t.callbacks| && l in t.loops && c in t.received
            && Received(t, c, d) + AtLoop(t, l, c, d) + AtInstances(t, |t.redis|, l, d)
               == Received(s, c, d) + AtLoop(s, l, c, d) + AtInstances(s, |s.redis|, l, d)
                  + if Accepted(s, a, d) then 1 else 0
  {
    var t := Do(s, a);
    if a.Redis? {
      RedisStepForUser(s, a.instance, a.action, l, c, d);
    } else if SessionEnabled(s, a) {
      SessionStep(s, a, l, c, d);
      InstancesUnchanged(s, t, |s.redis|, l, d);
    } else if DeliveryEnabled(s, a) {
      DeliveryStep(s, a, l, c, d);
    } else {
      SearchStep(s, a, l, c, d);
      InstancesUnchanged(s, t, |s.redis|, l, d);
    }
  }

  /** While a connection stays logged in, one step adds one copy if it is an accepted publish for its user, on
      whichever instance, and otherwise neither loses nor repeats any. */
  lemma CopiesStep(s: State, a: Action, l: Loop, c: Conn, d: Delivery)
    requires Inv(s) && LoggedIn(s, l, c, d.user) && l in Online(s, d.user) && LoggedIn(Next(s, a), l, c, d.user)
    ensures Inv(Next(s, a)) && l in Online(Next(s, a), d.user)
    ensures Copies(Next(s, a), l, c, d) == Copies(s, l, c, d) + if Accepted(s, a, d) then 1 else 0
  {
    assert LocalOk(s, l, d.user);
    if Enabled(s, a) {
      StepKeepsInv(s, a);
      StaysOnline(s, a, l, c, d.user);
      PipelineStep(s, a, l, c, d);
    }
  }

  lemma RedisStepForUser(s: State, j: nat, a: PubSub.Action, l: Loop, c: Conn, d: Delivery)
    requires Inv(s) && RedisEnabled(s, j, a) && l in s.loops && l in Online(s, d.user) && c in s.received
    ensures var t := RedisDo(s, j, a);
            && |t.redis| == |t.callbacks| == |s.redis| && l in t.loops && t.received == s.received
            && AtLoop(t, l, c, d) == AtLoop(s, l, c, d)
            && AtInstances(t, |s.redis|, l, d)
               == AtInstances(s, |s.redis|, l, d) + if Accepted(s, Redis(j, a), d) then 1 else 0
  {
    assert CallbackOk(s, j);
    RedisStep(s, j, a, l, d);
    RedisStepAtLoop(s, j, a, l, c, d);
    OneInstanceChanged(s, RedisDo(s, j, a), j, |s.redis|, l, d);
  }

  // ------------------------------------------------------------------------------ whole runs

  /** The connection is logged in as the user in every state of the run. */
  ghost predicate StaysLoggedIn(s: State, run: seq<Action>, l: Loop, c: Conn, user: User)
    decreases |run|
  {
    LoggedIn(Exec(s, run), l, c, user) && (run == [] || StaysLoggedIn(s, run[..|run| - 1], l, c, user))
  }

  /** How many times the run publishes the message for its user, on any instance. */
  ghost function PublishedCount(s: State, run: seq<Action>, d: Delivery): nat
    decreases |run|
  {
    if run == [] then 0
    else PublishedCount(s, run[..|run| - 1], d) + if Publishes(s, run[|run| - 1], d) then 1 else 0
  }

  lemma InstancesStayStep(s: State, a: Action)
    ensures |Next(s, a).redis| == |s.redis|
  {
    if Enabled(s, a) {
      if a.Redis? {
        RedisKeepsSessions(s, a.instance, a.action);
      } else if SessionEnabled(s, a) {
        SessionKeepsPipeline(s, a);
      } else if DeliveryEnabled(s, a) {
        DeliveryKeepsSessions(s, a);
      }
    }
  }

  lemma {:induction false} InstancesStay(s: State, run: seq<Action>)
    ensures |Exec(s, run).redis| == |s.redis|
    decreases |run|
  {
    if run != [] {
      InstancesStay(s, run[..|run| - 1]);
      InstancesStayStep(Exec(s, run[..|run| - 1]), run[|run| - 1]);
    }
  }

  /** How many of them found our subscription executed. */
  ghost function AcceptedCount(s: State, run: seq<Action>, d: Delivery): nat
    decreases |run|
  {
    if run == [] then 0
    else
      var front := run[..|run| - 1];
      AcceptedCount(s, front, d) + if Accepted(Exec(s, front), run[|run| - 1], d) then 1 else 0
  }

  /** Over any interleaving in which a connection stays logged in as u, its copies of a message grow by exactly
      the number of accepted publishes of it to u's channel. */
  lemma {:induction false} ExactlyOnceAccepted(s: State, run: seq<Action>, l: Loop, c: Conn, d: Delivery)
    requires Inv(s) && l in Online(s, d.user) && LoggedIn(s, l, c, d.user)
    requires StaysLoggedIn(s, run, l, c, d.user)
    ensures Inv(Exec(s, run)) && LoggedIn(Exec(s, run), l, c, d.user) && l in Online(Exec(s, run), d.user)
    ensures Copies(Exec(s, run), l, c, d) == Copies(s, l, c, d) + AcceptedCount(s, run, d)
    decreases |run|
  {
    if run != [] {
      var front, a := run[..|run| - 1], run[|run| - 1];
      ExactlyOnceAccepted(s, front, l, c, d);
      CopiesStep(Exec(s, front), a, l, c, d);
    }
  }

  // --------------------------------------------------------------- which publishes are accepted

  /** The instance has executed our subscription, and nothing written since will undo it. */
  ghost predicate Settled(s: State, i: nat, user: User)
    requires i < |s.redis|
  {
    UserChannel(user) in s.redis[i].subscriptions && PubSub.Unsubscribe(UserChannel(user)) !in s.redis[i].commands
  }

  ghost predicate SettledEverywhere(s: State, user: User)
  {
    forall i {:trigger Settled(s, i, user)} :: 0 <= i < |s.redis| ==> Settled(s, i, user)
  }

  lemma {:induction false} PendingSubscription(subscriptions: set<PubSub.Channel>, commands: seq<PubSub.Command>, c: PubSub.Channel)
    requires c in PubSub.AppliedAll(subscriptions, commands) && c !in subscriptions
    ensures PubSub.Subscribe(c) in commands
    decreases |commands|
  {
    if commands != [] && commands[|commands| - 1] != PubSub.Subscribe(c) {
      PendingSubscription(subscriptions, commands[..|commands| - 1], c);
    }
  }

  /** A publish for a user who is online here is missed only while our SUBSCRIBE for the user is written and not
      yet executed by that instance; once an instance has executed everything, it misses nothing. */
  lemma MissedOnlyWhilePending(s: State, i: nat, user: User)
    requires Inv(s) && i < |s.redis| && user in s.online
    ensures UserChannel(user) !in s.redis[i].subscriptions ==>
              PubSub.Subscribe(UserChannel(user)) in s.redis[i].commands
    ensures s.redis[i].commands == [] ==> Settled(s, i, user)
  {
    assert SubscriptionOk(s, i, user);
    if UserChannel(user) !in s.redis[i].subscriptions {
      PendingSubscription(s.redis[i].subscriptions, s.redis[i].commands, UserChannel(user));
    }
  }

  /** Nobody writes an UNSUBSCRIBE for a user who is online. */
  lemma WritesForOthers(s: State, i: nat, t: Loop, user: User)
    requires Inv(s) && i < |s.redis| && user in s.online && t in s.redis[i].calls
    ensures s.redis[i].calls[t].command != PubSub.Unsubscribe(UserChannel(user))
  {
    assert CallOk(s, i, t) && WriterOk(s, t);
    var u := s.loops[t].doing.user;
    if UserChannel(u) == UserChannel(user) {
      ChannelsDiffer(u, user);
    }
  }

  lemma InstanceStaysSettled(r: PubSub.State, a: PubSub.Action, c: PubSub.Channel)
    requires PubSub.Enabled(r, a) && c in r.subscriptions && PubSub.Unsubscribe(c) !in r.commands
    requires a.Write? ==> r.calls[a.thread].command != PubSub.Unsubscribe(c)
    ensures c in PubSub.Do(r, a).subscriptions && PubSub.Unsubscribe(c) !in PubSub.Do(r, a).commands
  {
    if a.Execute? {
      assert r.commands[0] in r.commands;
    }
  }

  lemma StaysSettled(s: State, a: Action, i: nat, user: User)
    requires Inv(s) && Enabled(s, a) && i < |s.redis| && user in s.online && Settled(s, i, user)
    ensures i < |Do(s, a).redis| && Settled(Do(s, a), i, user)
  {
    if a.Redis? {
      RedisKeepsSessions(s, a.instance, a.action);
      if a.instance == i {
        if a.action.Write? {
          WritesForOthers(s, i, a.action.thread, user);
        }
        InstanceStaysSettled(s.redis[i], a.action, UserChannel(user));
      }
    } else if SessionEnabled(s, a) {
      SessionKeepsPipeline(s, a);
    } else if DeliveryEnabled(s, a) {
      DeliveryKeepsSessions(s, a);
    }
  }

  lemma {:induction false} AllAccepted(s: State, run: seq<Action>, l: Loop, c: Conn, d: Delivery)
    requires Inv(s) && l in Online(s, d.user) && LoggedIn(s, l, c, d.user)
    requires StaysLoggedIn(s, run, l, c, d.user) && SettledEverywhere(s, d.user)
    ensures SettledEverywhere(Exec(s, run), d.user) && AcceptedCount(s, run, d) == PublishedCount(s, run, d)
    decreases |run|
  {
    if run != [] {
      var front, a := run[..|run| - 1], run[|run| - 1];
      var before := Exec(s, front);
      AllAccepted(s, front, l, c, d);
      ExactlyOnceAccepted(s, front, l, c, d);
      InstancesStay(s, front);
      InstancesStay(s, run);
      assert Publishes(before, a, d) ==> Settled(before, a.instance, d.user);
      forall i | 0 <= i < |Exec(s, run).redis|
        ensures Settled(Exec(s, run), i, d.user)
      {
        assert Settled(before, i, d.user);
        if Enabled(before, a) {
          StaysSettled(before, a, i, d.user);
        }
      }
    }
  }

  /** Exactly once: over any interleaving in which a connection stays logged in as u, from a moment at which all
      instances have executed our subscriptions to u's channel, its copies of a message grow by exactly the
      number of publishes of that message to u's channel. */
  lemma ExactlyOnce(s: State, run: seq<Action>, l: Loop, c: Conn, d: Delivery)
    requires Inv(s) && l in Online(s, d.user) && LoggedIn(s, l, c, d.user)
    requires StaysLoggedIn(s, run, l, c, d.user) && SettledEverywhere(s, d.user)
    ensures Inv(Exec(s, run)) && LoggedIn(Exec(s, run), l, c, d.user) && l in Online(Exec(s, run), d.user)
    ensures Copies(Exec(s, run), l, c, d) == Copies(s, l, c, d) + PublishedCount(s, run, d)
  {
    ExactlyOnceAccepted(s, run, l, c, d);
    AllAccepted(s, run, l, c, d);
  }

  /** Nothing is on its way to the loop any more, or being sent by it. */
  ghost predicate Drained(s: State, l: Loop, d: Delivery)
    requires |s.redis| == |s.callbacks| && l in s.loops
  {
    && AtInstances(s, |s.redis|, l, d) == 0
    && d !in s.loops[l].queue && !s.loops[l].doing.Sending?
  }

  /** Between two moments at which nothing is on its way, the connection has received the message exactly as
      many times as it was published. */
  lemma ReceivedAsPublished(s: State, run: seq<Action>, l: Loop, c: Conn, d: Delivery)
    requires Inv(s) && l in Online(s, d.user) && LoggedIn(s, l, c, d.user)
    requires StaysLoggedIn(s, run, l, c, d.user) && SettledEverywhere(s, d.user)
    requires Drained(s, l, d)
    requires |Exec(s, run).redis| == |Exec(s, run).callbacks| && l in Exec(s, run).loops && Drained(Exec(s, run), l, d)
    ensures c in s.received && c in Exec(s, run).received
    ensures Received(Exec(s, run), c, d) == Received(s, c, d) + PublishedCount(s, run, d)
  {
    assert LocalOk(s, l, d.user);
    ExactlyOnce(s, run, l, c, d);
    assert LocalOk(Exec(s, run), l, d.user);
  }

  lemma OnlySendsAreReceived(s: State, a: Action, c: Conn)
    requires Inv(s) && Enabled(s, a) && !a.Send? && c in s.received
    ensures c in Do(s, a).received && Do(s, a).received[c] == s.received[c]
  {
    if a.Redis? {
      RedisKeepsSessions(s, a.instance, a.action);
    } else if SessionEnabled(s, a) {
      SessionKeepsPipeline(s, a);
    } else if DeliveryEnabled(s, a) {
      DeliveryKeepsSessions(s, a);
    }
  }

  /** A connection receives a message on behalf of a user only while it is logged in as that user. */
  lemma OnlyHoldersReceive(s: State, a: Action, c: Conn)
    requires Inv(s) && Enabled(s, a) && c in s.received
    ensures c in Do(s, a).received
    ensures Do(s, a).received[c] == s.received[c]
         || (a.Send? && a.conn == c && a.loop in s.loops && s.loops[a.loop].doing.Sending?
             && var d := s.loops[a.loop].doing.delivery;
                Do(s, a).received[c] == s.received[c] + [d] && LoggedIn(s, a.loop, c, d.user))
  {
    if a.Send? {
      assert SendingOk(s, a.loop);
    } else {
      OnlySendsAreReceived(s, a, c);
    }
  }

  /** What was received on behalf of one user. */
  function OnBehalf(ds: seq<Delivery>, user: User): seq<Delivery>
    decreases |ds|
  {
    if ds == [] then []
    else
      var front, last := ds[..|ds| - 1], ds[|ds| - 1];
      if last.user == user then OnBehalf(front, user) + [last] else OnBehalf(front, user)
  }

  /** In no state of the run is the connection logged in as the user. */
  ghost predicate NeverLoggedIn(s: State, run: seq<Action>, c: Conn, user: User)
    decreases |run|
  {
    && (forall l {:trigger LoggedIn(Exec(s, run), l, c, user)} :: !LoggedIn(Exec(s, run), l, c, user))
    && (run == [] || NeverLoggedIn(s, run[..|run| - 1], c, user))
  }

  lemma StrangerStep(s: State, a: Action, c: Conn, user: User)
    requires Inv(s) && c in s.received && forall l {:trigger LoggedIn(s, l, c, user)} :: !LoggedIn(s, l, c, user)
    ensures Inv(Next(s, a)) && c in Next(s, a).received
    ensures OnBehalf(Next(s, a).received[c], user) == OnBehalf(s.received[c], user)
  {
    if Enabled(s, a) {
      StepKeepsInv(s, a);
      OnlyHoldersReceive(s, a, c);
      var before, after := s.received[c], Do(s, a).received[c];
      if after != before {
        assert after[..|before|] == before && LoggedIn(s, a.loop, c, after[|before|].user);
      }
    }
  }

  /** Over any interleaving in which a connection is never logged in as u, it receives nothing on u's behalf. */
  lemma {:induction false} StrangersReceiveNothing(s: State, run: seq<Action>, c: Conn, user: User)
    requires Inv(s) && c in s.received && NeverLoggedIn(s, run, c, user)
    ensures Inv(Exec(s, run)) && c in Exec(s, run).received
    ensures OnBehalf(Exec(s, run).received[c], user) == OnBehalf(s.received[c], user)
    decreases |run|
  {
    if run != [] {
      var front := run[..|run| - 1];
      StrangersReceiveNothing(s, front, c, user);
      NeverAtTheEnd(s, front, c, user);
      StrangerStep(Exec(s, front), run[|run| - 1], c, user);
    }
  }

  lemma NeverAtTheEnd(s: State, run: seq<Action>, c: Conn, user: User)
    requires NeverLoggedIn(s, run, c, user)
    ensures forall l {:trigger LoggedIn(Exec(s, run), l, c, user)} :: !LoggedIn(Exec(s, run), l, c, user)
  {
  }
}
