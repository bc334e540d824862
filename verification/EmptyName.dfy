/** onRedisPubSubMessage asserts that the channel it is called for is longer than "user.". That can fail exactly
    when somebody may log in under the empty name, which nothing in the server forbids. */
module EmptyName {
  import PubSub
  import opened ChatServer
  import opened Progress
  import opened Tracing
  import Arrival
  import opened Sessions

  // ------------------------------------------------------------ without an empty name it holds

  ghost predicate Named(doing: Doing)
  {
    (doing.WantAdd? || doing.Subscribing?) ==> doing.user != ""
  }

  /** The channel of the empty name has never been subscribed, and nothing was received on it. */
  ghost predicate Unheard(r: PubSub.State)
  {
    var channel := UserChannel("");
    && channel !in r.subscriptions && PubSub.Subscribe(channel) !in r.commands
    && (forall t {:trigger r.calls[t]} :: t in r.calls ==> r.calls[t].command != PubSub.Subscribe(channel))
    && (forall k :: 0 <= k < |r.replies| ==> !(r.replies[k].Message? && r.replies[k].channel == channel))
    && (r.listener.Handling? ==> !(r.listener.reply.Message? && r.listener.reply.channel == channel))
    && (r.listener.Calling? ==> r.listener.channel != channel)
  }

  ghost predicate NobodyUnnamed(s: State)
  {
    && (forall l {:trigger s.loops[l]} :: l in s.loops ==> Named(s.loops[l].doing))
    && (forall i {:trigger Unheard(s.redis[i])} :: 0 <= i < |s.redis| ==> Unheard(s.redis[i]))
  }

  lemma StaysUnheard(r: PubSub.State, a: PubSub.Action)
    requires Unheard(r) && PubSub.Enabled(r, a)
    requires a.Enter? ==> a.command != PubSub.Subscribe(UserChannel(""))
    ensures Unheard(PubSub.Do(r, a))
  {
    ChannelOfUser("", PubSub.UNLOCK_CHANNEL);
    if a.Execute? {
      assert r.commands[0] in r.commands;
    }
  }

  lemma NamedAfterRedis(s: State, i: nat, a: PubSub.Action)
    requires NobodyUnnamed(s) && RedisEnabled(s, i, a)
    ensures NobodyUnnamed(RedisDo(s, i, a))
  {
    var t := RedisDo(s, i, a);
    assert Unheard(s.redis[i]);
    if a.Enter? {
      EntersNamed(s, i, a);
    }
    StaysUnheard(s.redis[i], a);
    forall j | 0 <= j < |t.redis|
      ensures Unheard(t.redis[j])
    {
      assert j != i ==> t.redis[j] == s.redis[j] && Unheard(s.redis[j]);
    }
  }

  lemma NamedAfterDelivery(s: State, a: Action)
    requires NobodyUnnamed(s) && DeliveryEnabled(s, a)
    ensures NobodyUnnamed(DeliveryDo(s, a))
  {
    DeliveryKeepsSessions(s, a);
  }

  lemma StaysNamed(s: State, a: Action)
    requires NobodyUnnamed(s) && Enabled(s, a) && !(a.Login? && a.user == "")
    ensures NobodyUnnamed(Do(s, a))
  {
    if a.Redis? {
      NamedAfterRedis(s, a.instance, a.action);
    } else if SessionEnabled(s, a) {
      SessionKeepsPipeline(s, a);
      NamedAfterSession(s, a);
    } else if DeliveryEnabled(s, a) {
      NamedAfterDelivery(s, a);
    }
  }

  lemma EntersNamed(s: State, i: nat, a: PubSub.Action)
    requires NobodyUnnamed(s) && RedisEnabled(s, i, a) && a.Enter?
    ensures a.command != PubSub.Subscribe(UserChannel(""))
  {
    var doing := s.loops[a.thread].doing;
    if a.command == PubSub.Subscribe(UserChannel("")) {
      ChannelsDiffer(doing.user, "");
    }
  }

  lemma NamedAfterSession(s: State, a: Action)
    requires NobodyUnnamed(s) && SessionEnabled(s, a) && !(a.Login? && a.user == "")
    ensures forall l {:trigger SessionDo(s, a).loops[l]} ::
              l in SessionDo(s, a).loops ==> Named(SessionDo(s, a).loops[l].doing)
  {
  }

  lemma {:induction false} RunStaysNamed(instances: nat, run: seq<Action>, names: iset<User>)
    requires LoginsIn(run, names) && "" !in names
    ensures NobodyUnnamed(Exec(Initial(instances), run))
    decreases |run|
  {
    if run == [] {
      ChannelOfUser("", PubSub.UNLOCK_CHANNEL);
    } else {
      var front, a := run[..|run| - 1], run[|run| - 1];
      RunStaysNamed(instances, front, names);
      if Enabled(Exec(Initial(instances), front), a) {
        StaysNamed(Exec(Initial(instances), front), a);
      }
    }
  }

  /** What the callback asserts of its channel. */
  predicate Asserted(channel: PubSub.Channel)
  {
    |channel| > 5 && channel[..5] == "user."
  }

  /** As long as nobody logs in under the empty name, the assertion holds in every interleaving. */
  lemma AssertionHolds(instances: nat, run: seq<Action>, i: nat, names: iset<User>)
    requires LoginsIn(run, names) && "" !in names
    requires i < |Exec(Initial(instances), run).redis| && Exec(Initial(instances), run).redis[i].listener.Calling?
    ensures Asserted(Exec(Initial(instances), run).redis[i].listener.channel)
  {
    var s := Exec(Initial(instances), run);
    InitialInv(instances);
    RunKeepsInv(Initial(instances), run);
    assert InstanceOk(s.redis[i]);
    OnlyOneIsShort(s.redis[i].listener.channel);
    RunStaysNamed(instances, run, names);
    assert Unheard(s.redis[i]);
  }

  lemma OnlyOneIsShort(channel: PubSub.Channel)
    requires IsUserChannel(channel)
    ensures |channel| > 5 || channel == UserChannel("")
  {
    ChannelOfUser("", channel);
  }

  // ----------------------------------------------------------------- with one it can fail

  /** The listener has the message in hand, or it is the next one to be read. */
  ghost predicate IsNext(s: State, i: nat, m: PubSub.Reply)
    requires i < |s.redis| == |s.callbacks|
  {
    var r := s.redis[i];
    && s.writer.Nobody? && s.callbacks[i].Outside?
    && (r.listener == PubSub.Handling(m)
        || ((r.listener.Testing? || r.listener.Waiting? || r.listener.Reading?) && r.replies != [] && r.replies[0] == m))
  }

  function StepsToCall(l: PubSub.Listener): nat
  {
    match l
    case Testing => 4
    case Waiting => 3
    case Reading => 2
    case _ => 1
  }

  lemma ListenerStep(s: State, i: nat, m: PubSub.Reply) returns (a: Action)
    requires Inv(s) && i < |s.redis| && IsNext(s, i, m)
    requires m.Message? && m.channel != PubSub.UNLOCK_CHANNEL
    ensures Enabled(s, a) && a.Redis? && |Do(s, a).redis| == |Do(s, a).callbacks| == |s.redis|
    ensures Do(s, a).redis[i].listener == PubSub.Calling(m.channel, m.text)
         || (IsNext(Do(s, a), i, m) && StepsToCall(Do(s, a).redis[i].listener) < StepsToCall(s.redis[i].listener))
  {
    assert InstanceOk(s.redis[i]);
    if !s.redis[i].listener.Reading? {
      Arrival.MutexIsFree(s, i);
    }
    a := Redis(i, PubSub.ListenerNext(s.redis[i]));
  }

  lemma {:induction false} CanCall(s: State, i: nat, m: PubSub.Reply) returns (run: seq<Action>)
    requires Inv(s) && i < |s.redis| && IsNext(s, i, m)
    requires m.Message? && m.channel != PubSub.UNLOCK_CHANNEL
    ensures i < |Exec(s, run).redis| && Exec(s, run).redis[i].listener == PubSub.Calling(m.channel, m.text)
    ensures LoginsIn(run, iset{})
    decreases StepsToCall(s.redis[i].listener)
  {
    var a := ListenerStep(s, i, m);
    ExecOne(s, a);
    run := [a];
    if Do(s, a).redis[i].listener != PubSub.Calling(m.channel, m.text) {
      StepKeepsInv(s, a);
      var rest := CanCall(Do(s, a), i, m);
      ExecConcat(s, [a], rest);
      run := [a] + rest;
    }
  }

  /** A connection logged in under the empty name, its subscription in effect and the listener idle. */
  ghost predicate Listening(s: State)
  {
    && Inv(s) && |s.redis| == 1 && s.writer.Nobody?
    && UserChannel("") in s.redis[0].subscriptions && Arrival.Empty(s, 0)
  }

  lemma CanListen() returns (run: seq<Action>)
    ensures Listening(Exec(Initial(1), run)) && LoginsIn(run, iset{""})
  {
    var login := FirstLogin(1, "");
    var s := Exec(Initial(1), login);
    var catchUp := Arrival.CanCatchUp(s, 0);
    var empty := SettlesEmpty(Exec(s, catchUp));
    ExecConcat(s, catchUp, empty);
    ExecConcat(Initial(1), login, catchUp + empty);
    run := login + (catchUp + empty);
    LoginsConcat(login, catchUp + empty, iset{""});
  }

  lemma SettlesEmpty(s: State) returns (run: seq<Action>)
    requires Inv(s) && |s.redis| == 1 && s.writer.Nobody? && s.redis[0].commands == []
    requires 0 in Online(s, "") && LoggedIn(s, 0, 0, "")
    ensures Listening(Exec(s, run)) && NoRequests(run)
  {
    MissedOnlyWhilePending(s, 0, "");
    run := Arrival.InstanceCanEmpty(s, 0);
    Arrival.QuietRun(s, run, 0, 0, Delivery("", ""));
    AllAccepted(s, run, 0, 0, Delivery("", ""));
    RunKeepsInv(s, run);
    assert Settled(Exec(s, run), 0, "");
  }

  lemma PublishIsNext(s: State, text: Text)
    requires Listening(s)
    ensures var a := Redis(0, PubSub.Publish(UserChannel(""), text));
            && Enabled(s, a) && Inv(Do(s, a)) && |Do(s, a).redis| == |Do(s, a).callbacks| == 1
            && IsNext(Do(s, a), 0, PubSub.Message(UserChannel(""), text))
  {
    assert InstanceOk(s.redis[0]) && CallbackOk(s, 0);
    StepKeepsInv(s, Redis(0, PubSub.Publish(UserChannel(""), text)));
  }

  /** A run that fails the assertion: one connection logs in under the empty name, nobody under any other, and
      anybody publishes to it. The callback is then called for a channel of exactly five characters. */
  lemma AssertionFails(text: Text) returns (run: seq<Action>)
    ensures LoginsIn(run, iset{""})
    ensures var s := Exec(Initial(1), run);
            |s.redis| > 0 && s.redis[0].listener.Calling? && !Asserted(s.redis[0].listener.channel)
  {
    var listen := CanListen();
    var s := Exec(Initial(1), listen);
    var publish := Redis(0, PubSub.Publish(UserChannel(""), text));
    PublishIsNext(s, text);
    ChannelOfUser("", PubSub.UNLOCK_CHANNEL);
    ExecOne(s, publish);
    var call := CanCall(Do(s, publish), 0, PubSub.Message(UserChannel(""), text));
    ExecConcat(s, [publish], call);
    ExecConcat(Initial(1), listen, [publish] + call);
    run := listen + ([publish] + call);
  }

  // ------------------------------------------------------------------------ both directions

  /** With logins under these names only, the assertion holds in every run, on any number of instances. */
  ghost predicate AlwaysAsserted(names: iset<User>)
  {
    forall instances, run, i {:trigger LoginsIn(run, names), Exec(Initial(instances), run).redis[i]} ::
      LoginsIn(run, names) && 0 <= i < |Exec(Initial(instances), run).redis|
      && Exec(Initial(instances), run).redis[i].listener.Calling? ==>
        Asserted(Exec(Initial(instances), run).redis[i].listener.channel)
  }

  /** The assertion can be relied on exactly if nobody may log in under the empty name. */
  lemma AssertedExactly(names: iset<User>)
    ensures AlwaysAsserted(names) <==> "" !in names
  {
    if "" in names {
      var run := AssertionFails("");
      assert LoginsIn(run, names);
      assert !Asserted(Exec(Initial(1), run).redis[0].listener.channel);
    } else {
      forall instances, run, i | LoginsIn(run, names) && 0 <= i < |Exec(Initial(instances), run).redis|
                                 && Exec(Initial(instances), run).redis[i].listener.Calling?
        ensures Asserted(Exec(Initial(instances), run).redis[i].listener.channel)
      {
        AssertionHolds(instances, run, i, names);
      }
    }
  }
}
