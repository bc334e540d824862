/** Order across instances: a sender publishes to the instances in turn, and each has its own listener, so with
    more than one instance a later message can overtake an earlier one. */
module Overtaking {
  import PubSub
  import Routing
  import opened ChatServer
  import opened Progress
  import opened Tracing
  import opened Sessions
  import Arrival
  import Order

  /** What the run publishes of the topic, in order, and where. */
  function Texts(instances: nat, run: seq<Action>, topic: Order.Topic): seq<Text>
    decreases |run|
  {
    if run == [] then [] else Texts(instances, run[..|run| - 1], topic) + Published(instances, run[|run| - 1], topic)
  }

  function Published(instances: nat, a: Action, topic: Order.Topic): seq<Text>
  {
    if a.Redis? && a.instance < instances && a.action.Publish?
    then Order.Heard(PubSub.Message(a.action.channel, a.action.text), topic) else []
  }

  function Instances(instances: nat, run: seq<Action>, topic: Order.Topic): seq<nat>
    decreases |run|
  {
    if run == [] then []
    else
      var front, a := run[..|run| - 1], run[|run| - 1];
      if Published(instances, a, topic) == [] then Instances(instances, front, topic)
      else Instances(instances, front, topic) + [a.instance]
  }

  /** The publishes of the topic are those of one sender with every instance working: to the instances in turn. */
  ghost predicate OneSender(instances: nat, run: seq<Action>, topic: Order.Topic)
    requires instances > 0
  {
    var at := Instances(instances, run, topic);
    forall k :: 0 <= k < |at| - 1 ==> at[k + 1] == Routing.After(at[k], instances)
  }

  /** Nothing of the topic has been received or is on its way. */
  ghost predicate Clear(s: State, l: Loop, c: Conn, topic: Order.Topic)
    requires |s.redis| == |s.callbacks| && l in s.loops && c in s.received
  {
    && Order.AtLoop(s, l, c, topic) == []
    && forall i {:trigger s.redis[i]} :: 0 <= i < |s.redis| ==> Order.AtInstance(s.redis[i], s.callbacks[i], l, topic) == []
  }

  /** A connection that is logged in, subscribed everywhere, and has nothing of the topic to expect. */
  ghost predicate Awaits(s: State, l: Loop, c: Conn, topic: Order.Topic)
  {
    && Inv(s) && LoggedIn(s, l, c, topic.user) && l in Online(s, topic.user) && SettledEverywhere(s, topic.user)
    && c in s.received && Clear(s, l, c, topic)
  }

  /** In every run from every reachable state, what a waiting connection receives of one sender's messages is a
      prefix of them, in the order in which they were sent. */
  ghost predicate AlwaysInOrder(instances: nat)
    requires instances > 0
  {
    forall before, run, l, c, topic {:trigger InOrder(instances, before, run, l, c, topic)} ::
      InOrder(instances, before, run, l, c, topic)
  }

  ghost predicate InOrder(instances: nat, before: seq<Action>, run: seq<Action>, l: Loop, c: Conn, topic: Order.Topic)
    requires instances > 0
  {
    var s := Exec(Initial(instances), before);
    Awaits(s, l, c, topic) && StaysLoggedIn(s, run, l, c, topic.user) && OneSender(instances, run, topic) ==>
      c in Exec(s, run).received && Order.AllSaid(Exec(s, run).received[c], topic) <= Texts(instances, run, topic)
  }

  // --------------------------------------------------------------------------- one instance

  lemma {:induction false} AllOnTheOne(s: State, run: seq<Action>, topic: Order.Topic)
    requires |s.redis| == 1
    ensures Order.StaysAtInstance(s, 0, run, topic) && Order.PublishedTexts(0, run, topic) == Texts(1, run, topic)
    decreases |run|
  {
    if run != [] {
      AllOnTheOne(s, run[..|run| - 1], topic);
      InstancesStay(s, run[..|run| - 1]);
    }
  }

  lemma OneIsInOrder()
    ensures AlwaysInOrder(1)
  {
    forall before, run, l, c, topic
      ensures InOrder(1, before, run, l, c, topic)
    {
      var s := Exec(Initial(1), before);
      if Awaits(s, l, c, topic) && StaysLoggedIn(s, run, l, c, topic.user) {
        InstancesStay(Initial(1), before);
        AllOnTheOne(s, run, topic);
        assert Settled(s, 0, topic.user);
        assert s.redis[0] in s.redis;
        Order.ReceivedInOrder(s, 0, run, l, c, topic);
      }
    }
  }

  // --------------------------------------------------------------------- more than one instance

  lemma {:induction false} Longer(used: set<Text>) returns (n: nat)
    ensures forall t :: t in used ==> |t| < n
  {
    n := 0;
    if t :| t in used {
      var m := Longer(used - {t});
      n := if m > |t| then m else |t| + 1;
    }
  }

  lemma FreshText(used: set<Text>) returns (t: Text)
    ensures t !in used
  {
    var n := Longer(used);
    t := seq(n, _ => 'x');
  }

  lemma {:induction false} SaidOnlyThose(ds: seq<Delivery>, topic: Order.Topic)
    requires forall d :: d in ds ==> d.text !in topic.texts
    ensures Order.AllSaid(ds, topic) == []
    decreases |ds|
  {
    if ds != [] {
      SaidOnlyThose(ds[..|ds| - 1], topic);
    }
  }

  lemma {:induction false} SaidIfReceived(ds: seq<Delivery>, topic: Order.Topic, t: Text)
    ensures t in Order.AllSaid(ds, topic) <==> t in topic.texts && Delivery(topic.user, t) in ds
    decreases |ds|
  {
    if ds != [] {
      SaidIfReceived(ds[..|ds| - 1], topic, t);
      assert ds == ds[..|ds| - 1] + [ds[|ds| - 1]];
    }
  }

  /** A connection logged in, its loop idle, and every instance caught up and empty. */
  ghost predicate Rested(s: State, instances: nat, user: User)
  {
    && Inv(s) && |s.redis| == |s.callbacks| == instances && s.writer.Nobody?
    && LoggedIn(s, 0, 0, user) && 0 in Online(s, user) && SettledEverywhere(s, user) && 0 in s.received
    && IsDoing(s, 0, Idle) && s.loops[0].queue == []
    && forall i {:trigger Arrival.Empty(s, i)} :: 0 <= i < instances ==> Arrival.Empty(s, i)
  }

  lemma CanRest(instances: nat, user: User) returns (run: seq<Action>)
    ensures Rested(Exec(Initial(instances), run), instances, user)
  {
    var login := FirstLogin(instances, user);
    var s := Exec(Initial(instances), login);
    var rest := CanRestAfterLogin(s, instances, user);
    ExecConcat(Initial(instances), login, rest);
    run := login + rest;
  }

  lemma CanRestAfterLogin(s: State, instances: nat, user: User) returns (run: seq<Action>)
    requires Inv(s) && LockFree(s) && |s.redis| == instances
    requires IsDoing(s, 0, Idle) && LoggedIn(s, 0, 0, user) && 0 in Online(s, user)
    ensures Rested(Exec(s, run), instances, user)
  {
    var catchUp := Arrival.AllCanCatchUp(s, instances);
    var s1 := Exec(s, catchUp);
    forall i | 0 <= i < |s1.redis|
      ensures Settled(s1, i, user)
    {
      MissedOnlyWhilePending(s1, i, user);
    }
    var empty := CanEmpty(s1, instances, user);
    ExecConcat(s, catchUp, empty);
    run := catchUp + empty;
  }

  lemma CanEmpty(s: State, instances: nat, user: User) returns (run: seq<Action>)
    requires Inv(s) && s.writer.Nobody? && |s.redis| == instances && SettledEverywhere(s, user)
    requires IsDoing(s, 0, Idle) && LoggedIn(s, 0, 0, user) && 0 in Online(s, user)
    ensures Rested(Exec(s, run), instances, user)
  {
    var empty := Arrival.InstancesCanEmpty(s, instances);
    var s1 := Exec(s, empty);
    RunKeepsInv(s, empty);
    var work := Arrival.LoopCanEmpty(s1, 0);
    ExecConcat(s, empty, work);
    run := empty + work;
    StaysSettledAll(s, run, user);
    RestedAtLast(s1, Exec(s1, work), instances, user);
  }

  lemma StaysSettledAll(s: State, run: seq<Action>, user: User)
    requires Inv(s) && NoRequests(run) && LoggedIn(s, 0, 0, user) && 0 in Online(s, user) && SettledEverywhere(s, user)
    ensures var t := Exec(s, run);
            && Inv(t) && LoggedIn(t, 0, 0, user) && 0 in Online(t, user) && SettledEverywhere(t, user) && 0 in t.received
  {
    Arrival.QuietRun(s, run, 0, 0, Delivery(user, ""));
    AllAccepted(s, run, 0, 0, Delivery(user, ""));
    ExactlyOnceAccepted(s, run, 0, 0, Delivery(user, ""));
    assert LocalOk(Exec(s, run), 0, user);
  }

  lemma RestedAtLast(s: State, t: State, instances: nat, user: User)
    requires Inv(t) && |s.redis| == |s.callbacks| == instances && t.redis == s.redis && t.callbacks == s.callbacks
    requires s.writer.Nobody? && t.writer == s.writer
    requires LoggedIn(t, 0, 0, user) && 0 in Online(t, user) && SettledEverywhere(t, user) && 0 in t.received
    requires IsDoing(t, 0, Idle) && t.loops[0].queue == []
    requires forall i {:trigger Arrival.Empty(s, i)} :: 0 <= i < instances ==> Arrival.Empty(s, i)
    ensures Rested(t, instances, user)
  {
    forall i | 0 <= i < instances
      ensures Arrival.Empty(t, i)
    {
      assert Arrival.Empty(s, i);
    }
  }

  /** At rest only what has been received can be of the topic. */
  lemma RestedIsClear(s: State, instances: nat, user: User, topic: Order.Topic)
    requires Rested(s, instances, user) && topic.user == user
    requires forall d :: d in s.received[0] ==> d.text !in topic.texts
    ensures Awaits(s, 0, 0, topic)
  {
    SaidOnlyThose(s.received[0], topic);
    forall i | 0 <= i < |s.redis|
      ensures Order.AtInstance(s.redis[i], s.callbacks[i], 0, topic) == []
    {
      EmptyAtInstance(s, i, topic);
    }
  }

  lemma EmptyAtInstance(s: State, i: nat, topic: Order.Topic)
    requires Inv(s) && i < |s.redis| && Arrival.Empty(s, i)
    ensures i < |s.callbacks| && Order.AtInstance(s.redis[i], s.callbacks[i], 0, topic) == []
  {
    assert CallbackOk(s, i);
  }

  // ----------------------------------------------------------------------- the second overtakes

  function Publishing(i: nat, user: User, t: Text): Action
  {
    Redis(i, PubSub.Publish(UserChannel(user), t))
  }

  /** One publish adds its text to the line of its instance, and to no other. */
  lemma PublishStep(s: State, i: nat, j: nat, t: Text, topic: Order.Topic)
    requires Inv(s) && i < |s.redis| && j < |s.redis| && LoggedIn(s, 0, 0, topic.user) && 0 in Online(s, topic.user)
    requires 0 in s.received && SettledEverywhere(s, topic.user) && Order.OnlyAt(s, i, 0, topic)
    requires i == j || t !in topic.texts
    ensures var a := Publishing(j, topic.user, t);
            var s' := Next(s, a);
            && Inv(s') && |s'.redis| == |s'.callbacks| == |s.redis| && LoggedIn(s', 0, 0, topic.user) && 0 in Online(s', topic.user)
            && 0 in s'.received && SettledEverywhere(s', topic.user) && Order.OnlyAt(s', i, 0, topic)
            && s'.writer == s.writer && s'.loops == s.loops
            && (forall k {:trigger s'.redis[k]} :: 0 <= k < |s.redis| && k != j ==> s'.redis[k] == s.redis[k])
            && s'.callbacks == s.callbacks
            && Order.Line(s', i, 0, 0, topic)
               == Order.Line(s, i, 0, 0, topic) + if t in topic.texts then [t] else []
  {
    var a := Publishing(j, topic.user, t);
    assert Settled(s, j, topic.user) && Settled(s, i, topic.user);
    Order.LineStep(s, i, a, 0, 0, topic);
    StepKeepsInv(s, a);
    StaysOnline(s, a, 0, 0, topic.user);
    forall k | 0 <= k < |s.redis|
      ensures Settled(Do(s, a), k, topic.user)
    {
      assert Settled(s, k, topic.user);
      StaysSettled(s, a, k, topic.user);
    }
  }

  lemma {:induction false} QuietStaysAtInstance(s: State, i: nat, run: seq<Action>, topic: Order.Topic)
    requires NoRequests(run)
    ensures Order.StaysAtInstance(s, i, run, topic) && Order.PublishedTexts(i, run, topic) == []
    decreases |run|
  {
    if run != [] {
      QuietStaysAtInstance(s, i, run[..|run| - 1], topic);
    }
  }

  /** Without new publishes the line stays as it is. */
  lemma QuietLine(s: State, i: nat, run: seq<Action>, topic: Order.Topic)
    requires Inv(s) && i < |s.redis| && LoggedIn(s, 0, 0, topic.user) && 0 in Online(s, topic.user) && 0 in s.received
    requires NoRequests(run) && Order.OnlyAt(s, i, 0, topic) && Settled(s, i, topic.user)
    ensures var t := Exec(s, run);
            && i < |t.redis| == |t.callbacks| && 0 in t.loops && 0 in t.received
            && Order.Line(t, i, 0, 0, topic) == Order.Line(s, i, 0, 0, topic)
  {
    Arrival.QuietRun(s, run, 0, 0, Delivery(topic.user, ""));
    QuietStaysAtInstance(s, i, run, topic);
    Order.OrderKept(s, i, run, 0, 0, topic);
    assert Order.Line(s, i, 0, 0, topic) + [] == Order.Line(s, i, 0, 0, topic);
  }

  lemma ClearLine(s: State, i: nat, topic: Order.Topic)
    requires i < |s.redis| == |s.callbacks| && 0 in s.loops && 0 in s.received && Clear(s, 0, 0, topic)
    ensures Order.OnlyAt(s, i, 0, topic) && Order.Line(s, i, 0, 0, topic) == []
  {
    assert Order.AtInstance(s.redis[i], s.callbacks[i], 0, topic) == [];
  }

  /** After one publish on each of two instances. */
  ghost predicate BothPublished(s: State, instances: nat, first: Order.Topic, second: Order.Topic)
  {
    && Inv(s) && |s.redis| == |s.callbacks| == instances > 1 && s.writer.Nobody? && IsDoing(s, 0, Idle)
    && first.user == second.user && LoggedIn(s, 0, 0, first.user) && 0 in Online(s, first.user) && 0 in s.received
    && SettledEverywhere(s, first.user) && Order.OnlyAt(s, 0, 0, first) && Order.OnlyAt(s, 1, 0, second)
    && |Order.Line(s, 0, 0, 0, first)| == 1
    && Order.Line(s, 0, 0, 0, first) == Order.AtInstance(s.redis[0], s.callbacks[0], 0, first)
  }

  lemma PublishFirst(s: State, instances: nat, user: User, t1: Text, t2: Text)
    requires Rested(s, instances, user) && instances > 1 && t1 != t2
    requires forall d :: d in s.received[0] ==> d.text != t1 && d.text != t2
    ensures var s1, first, second := Next(s, Publishing(0, user, t1)), Order.Topic(user, {t1}), Order.Topic(user, {t2});
            && BothPublished(s1, instances, first, second)
            && Order.Line(s1, 1, 0, 0, second) == [] && Order.Line(s1, 0, 0, 0, first) == [t1]
  {
    var first, second := Order.Topic(user, {t1}), Order.Topic(user, {t2});
    RestedIsClear(s, instances, user, first);
    RestedIsClear(s, instances, user, second);
    ClearLine(s, 0, first);
    ClearLine(s, 1, second);
    PublishStep(s, 0, 0, t1, first);
    PublishStep(s, 1, 0, t1, second);
    FirstWaits(s, instances, user, t1, first);
  }

  lemma PublishSecond(s1: State, instances: nat, user: User, t1: Text, t2: Text)
    requires t1 != t2 && BothPublished(s1, instances, Order.Topic(user, {t1}), Order.Topic(user, {t2}))
    requires Order.Line(s1, 1, 0, 0, Order.Topic(user, {t2})) == []
    ensures var s2, first, second := Next(s1, Publishing(1, user, t2)), Order.Topic(user, {t1}), Order.Topic(user, {t2});
            && BothPublished(s2, instances, first, second) && Order.Line(s2, 1, 0, 0, second) == [t2]
  {
    PublishStep(s1, 0, 1, t2, Order.Topic(user, {t1}));
    PublishStep(s1, 1, 1, t2, Order.Topic(user, {t2}));
  }

  /** Two publishes on different instances; then the second instance's listener and the loop run, and the first
      instance's listener does not. */
  lemma SecondArrives(s: State, instances: nat, user: User, t1: Text, t2: Text) returns (rest: seq<Action>)
    requires Rested(s, instances, user) && instances > 1 && t1 != t2
    requires forall d :: d in s.received[0] ==> d.text != t1 && d.text != t2
    ensures NoRequests(rest)
    ensures var end := Exec(Next(Next(s, Publishing(0, user, t1)), Publishing(1, user, t2)), rest);
            && 0 in end.received && Delivery(user, t2) in end.received[0] && Delivery(user, t1) !in end.received[0]
  {
    var first, second := Order.Topic(user, {t1}), Order.Topic(user, {t2});
    PublishFirst(s, instances, user, t1, t2);
    var s1 := Next(s, Publishing(0, user, t1));
    PublishSecond(s1, instances, user, t1, t2);
    var s2 := Next(s1, Publishing(1, user, t2));
    rest := OnlySecondRuns(s2, instances, first, second);
    SaidIfReceived(Exec(s2, rest).received[0], second, t2);
    SaidIfReceived(Exec(s2, rest).received[0], first, t1);
  }

  lemma FirstWaits(s: State, instances: nat, user: User, t1: Text, first: Order.Topic)
    requires Rested(s, instances, user) && instances > 1 && first == Order.Topic(user, {t1}) && Clear(s, 0, 0, first)
    ensures var s1 := Next(s, Publishing(0, user, t1));
            |s1.redis| == |s1.callbacks| == instances && Order.AtInstance(s1.redis[0], s1.callbacks[0], 0, first) == [t1]
  {
    assert Settled(s, 0, user);
    EmptyAtInstance(s, 0, first);
    Order.RedisStep(s, 0, PubSub.Publish(UserChannel(user), t1), 0, first);
  }

  lemma OnlySecondRuns(s: State, instances: nat, first: Order.Topic, second: Order.Topic) returns (rest: seq<Action>)
    requires BothPublished(s, instances, first, second)
    ensures NoRequests(rest)
    ensures var end := Exec(s, rest);
            && 0 in end.received && Order.AllSaid(end.received[0], first) == []
            && Order.AllSaid(end.received[0], second) == Order.Line(s, 1, 0, 0, second)
  {
    rest := SecondListens(s, instances, second);
    assert Settled(s, 0, first.user) && Settled(s, 1, first.user);
    QuietLine(s, 0, rest, first);
    QuietLine(s, 1, rest, second);
  }

  /** The second instance's listener drains it and the loop works off its queue; the first instance stays as it is. */
  lemma SecondListens(s: State, instances: nat, topic: Order.Topic) returns (rest: seq<Action>)
    requires Inv(s) && |s.redis| == instances > 1 && s.writer.Nobody? && IsDoing(s, 0, Idle)
    ensures NoRequests(rest)
    ensures var end := Exec(s, rest);
            && |end.redis| == |end.callbacks| == |s.redis| == |s.callbacks|
            && end.redis[0] == s.redis[0] && end.callbacks[0] == s.callbacks[0]
            && Order.AtInstance(end.redis[1], end.callbacks[1], 0, topic) == []
            && IsDoing(end, 0, Idle) && end.loops[0].queue == []
  {
    var listen := Arrival.InstanceCanEmpty(s, 1);
    var heard := Exec(s, listen);
    RunKeepsInv(s, listen);
    EmptyAtInstance(heard, 1, topic);
    var work := Arrival.LoopCanEmpty(heard, 0);
    ExecConcat(s, listen, work);
    rest := listen + work;
  }

  // ------------------------------------------------------------------------ both directions

  lemma {:induction false} QuietPublishes(instances: nat, run: seq<Action>, topic: Order.Topic, rest: seq<Action>)
    requires NoRequests(rest)
    ensures Texts(instances, run + rest, topic) == Texts(instances, run, topic)
    ensures Instances(instances, run + rest, topic) == Instances(instances, run, topic)
    decreases |rest|
  {
    if rest == [] {
      assert run + rest == run;
    } else {
      var n := |rest| - 1;
      QuietPublishes(instances, run, topic, rest[..n]);
      assert (run + rest)[..|run + rest| - 1] == run + rest[..n];
      assert NoRequest(rest[n]);
    }
  }

  lemma TwoPublishes(instances: nat, user: User, t1: Text, t2: Text)
    requires instances > 1
    ensures var run, topic := [Publishing(0, user, t1)] + [Publishing(1, user, t2)], Order.Topic(user, {t1, t2});
            Texts(instances, run, topic) == [t1, t2] && Instances(instances, run, topic) == [0, 1]
  {
    var a, b, topic := Publishing(0, user, t1), Publishing(1, user, t2), Order.Topic(user, {t1, t2});
    assert [a][..0] == [];
    assert ([a] + [b])[..1] == [a];
    assert Texts(instances, [a], topic) == [t1];
    assert Instances(instances, [a], topic) == [0];
  }

  function TwoThen(user: User, t1: Text, t2: Text, rest: seq<Action>): seq<Action>
  {
    [Publishing(0, user, t1)] + [Publishing(1, user, t2)] + rest
  }

  lemma IsOneSenders(instances: nat, user: User, t1: Text, t2: Text, rest: seq<Action>)
    requires instances > 1 && NoRequests(rest)
    ensures var run, topic := TwoThen(user, t1, t2, rest), Order.Topic(user, {t1, t2});
            && OneSender(instances, run, topic) && Texts(instances, run, topic) == [t1, t2]
            && forall k :: 0 <= k < |run| ==> !run[k].Login? && !run[k].Logout?
  {
    TwoPublishes(instances, user, t1, t2);
    QuietPublishes(instances, [Publishing(0, user, t1)] + [Publishing(1, user, t2)], Order.Topic(user, {t1, t2}), rest);
    NextInstance(instances);
  }

  lemma ExecTwoThen(s: State, user: User, t1: Text, t2: Text, rest: seq<Action>)
    ensures Exec(s, TwoThen(user, t1, t2, rest))
         == Exec(Next(Next(s, Publishing(0, user, t1)), Publishing(1, user, t2)), rest)
  {
    ExecOne(s, Publishing(0, user, t1));
    ExecSnoc(s, [Publishing(0, user, t1)], Publishing(1, user, t2));
    ExecConcat(s, [Publishing(0, user, t1)] + [Publishing(1, user, t2)], rest);
  }

  lemma RunOvertakes(s: State, instances: nat, user: User, t1: Text, t2: Text) returns (run: seq<Action>)
    requires Rested(s, instances, user) && instances > 1 && t1 != t2
    requires forall d :: d in s.received[0] ==> d.text != t1 && d.text != t2
    ensures var topic := Order.Topic(user, {t1, t2});
            && Awaits(s, 0, 0, topic) && StaysLoggedIn(s, run, 0, 0, user) && OneSender(instances, run, topic)
            && 0 in Exec(s, run).received
            && !(Order.AllSaid(Exec(s, run).received[0], topic) <= Texts(instances, run, topic))
  {
    var rest := SecondArrives(s, instances, user, t1, t2);
    run := TwoThen(user, t1, t2, rest);
    ExecTwoThen(s, user, t1, t2, rest);
    IsOneSenders(instances, user, t1, t2, rest);
    RestedIsClear(s, instances, user, Order.Topic(user, {t1, t2}));
    Arrival.StaysWithoutLogout(s, run, 0, 0, user);
    Overtaken(Exec(s, run).received[0], Order.Topic(user, {t1, t2}), t1, t2);
  }

  /** The later message of one sender, who has rotated to the next instance, has arrived, and the earlier one
      has not. */
  lemma ManyAreNot(instances: nat)
    requires instances > 1
    ensures !AlwaysInOrder(instances)
  {
    var before := CanRest(instances, "u");
    var s := Exec(Initial(instances), before);
    var seen := set d | d in s.received[0] :: d.text;
    var t1 := FreshText(seen);
    var t2 := FreshText(seen + {t1});
    var run := RunOvertakes(s, instances, "u", t1, t2);
    assert !InOrder(instances, before, run, 0, 0, Order.Topic("u", {t1, t2}));
  }

  lemma NextInstance(instances: nat)
    requires instances > 1
    ensures Routing.After(0, instances) == 1
  {
  }

  lemma Overtaken(received: seq<Delivery>, topic: Order.Topic, t1: Text, t2: Text)
    requires topic.texts == {t1, t2} && Delivery(topic.user, t2) in received && Delivery(topic.user, t1) !in received
    ensures !(Order.AllSaid(received, topic) <= [t1, t2])
  {
    SaidIfReceived(received, topic, t1);
    SaidIfReceived(received, topic, t2);
    var said := Order.AllSaid(received, topic);
    assert said != [];
    assert said[0] in said;
  }

  /** Messages of one sender to one user arrive in the order in which they were sent, in every run, if and only
      if there is one instance. */
  lemma InOrderExactly(instances: nat)
    requires instances > 0
    ensures AlwaysInOrder(instances) <==> instances == 1
  {
    if instances == 1 {
      OneIsInOrder();
    } else {
      ManyAreNot(instances);
    }
  }
}
