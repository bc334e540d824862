/** Order: what is published on one instance reaches a connection in the order in which it was published. */
module Order {
  import PubSub
  import opened ChatServer
  import opened Tracing

  /** The messages whose order is followed: some texts for one user. */
  datatype Topic = Topic(user: User, texts: set<Text>)

  function Said(d: Delivery, topic: Topic): seq<Text>
  {
    if d.user == topic.user && d.text in topic.texts then [d.text] else []
  }

  function Heard(m: PubSub.Reply, topic: Topic): seq<Text>
  {
    if m.Message? && m.channel == UserChannel(topic.user) && m.text in topic.texts then [m.text] else []
  }

  function AllSaid(ds: seq<Delivery>, topic: Topic): seq<Text>
    decreases |ds|
  {
    if ds == [] then [] else AllSaid(ds[..|ds| - 1], topic) + Said(ds[|ds| - 1], topic)
  }

  function AllHeard(replies: seq<PubSub.Reply>, topic: Topic): seq<Text>
    decreases |replies|
  {
    if replies == [] then [] else AllHeard(replies[..|replies| - 1], topic) + Heard(replies[|replies| - 1], topic)
  }

  lemma SaidSnoc(ds: seq<Delivery>, d: Delivery, topic: Topic)
    ensures AllSaid(ds + [d], topic) == AllSaid(ds, topic) + Said(d, topic)
  {
    assert (ds + [d])[..|ds|] == ds;
  }

  lemma {:induction false} SaidCons(ds: seq<Delivery>, topic: Topic)
    requires ds != []
    ensures AllSaid(ds, topic) == Said(ds[0], topic) + AllSaid(ds[1..], topic)
    decreases |ds|
  {
    if |ds| == 1 {
      assert ds[..0] == [] && ds[1..] == [];
    } else {
      var n := |ds| - 1;
      SaidCons(ds[..n], topic);
      assert ds[..n][1..] == ds[1..][..n - 1];
      Associative(Said(ds[0], topic), AllSaid(ds[1..][..n - 1], topic), Said(ds[n], topic));
    }
  }

  lemma HeardSnoc(replies: seq<PubSub.Reply>, m: PubSub.Reply, topic: Topic)
    ensures AllHeard(replies + [m], topic) == AllHeard(replies, topic) + Heard(m, topic)
  {
    assert (replies + [m])[..|replies|] == replies;
  }

  lemma {:induction false} HeardCons(replies: seq<PubSub.Reply>, topic: Topic)
    requires replies != []
    ensures AllHeard(replies, topic) == Heard(replies[0], topic) + AllHeard(replies[1..], topic)
    decreases |replies|
  {
    if |replies| == 1 {
      assert replies[..0] == [] && replies[1..] == [];
    } else {
      var n := |replies| - 1;
      HeardCons(replies[..n], topic);
      assert replies[..n][1..] == replies[1..][..n - 1];
      Associative(Heard(replies[0], topic), AllHeard(replies[1..][..n - 1], topic), Heard(replies[n], topic));
    }
  }

  lemma Associative(a: seq<Text>, b: seq<Text>, c: seq<Text>)
    ensures a + b + c == a + (b + c)
  {
  }

  // ----------------------------------------------------------- the line of one connection

  /** In one instance: in the callback that still has to serve the loop, in the listener's hand, and on the way. */
  function AtInstance(r: PubSub.State, callback: Callback, l: Loop, topic: Topic): seq<Text>
  {
    InCallback(r.listener, callback, l, topic) + (InHand(r.listener, topic) + AllHeard(r.replies, topic))
  }

  function InCallback(listener: PubSub.Listener, callback: Callback, l: Loop, topic: Topic): seq<Text>
  {
    match callback
    case Entered => if listener.Calling? then Heard(PubSub.Message(listener.channel, listener.text), topic) else []
    case Queueing(d, todo) => if l in todo then Said(d, topic) else []
    case _ => []
  }

  function InHand(listener: PubSub.Listener, topic: Topic): seq<Text>
  {
    if listener.Handling? then Heard(listener.reply, topic) else []
  }

  /** In the loop: received, being sent, and queued. */
  function AtLoop(s: State, l: Loop, c: Conn, topic: Topic): seq<Text>
    requires l in s.loops && c in s.received
  {
    AllSaid(s.received[c], topic) + (InSending(s.loops[l].doing, c, topic) + AllSaid(s.loops[l].queue, topic))
  }

  function InSending(doing: Doing, c: Conn, topic: Topic): seq<Text>
  {
    if doing.Sending? && c in doing.todo then Said(doing.delivery, topic) else []
  }

  // --------------------------------------------------------------------- steps of instances

  /** What an action adds to the line, if the instance has executed the subscription. */
  function Gain(r: PubSub.State, a: PubSub.Action, topic: Topic): seq<Text>
  {
    if a.Publish? && a.channel in r.subscriptions then Heard(PubSub.Message(a.channel, a.text), topic) else []
  }

  lemma ReplyStep(r: PubSub.State, a: PubSub.Action, topic: Topic)
    requires PubSub.Enabled(r, a) && !a.Read? && !a.Dispatch?
    ensures AllHeard(PubSub.Do(r, a).replies, topic) == AllHeard(r.replies, topic) + Gain(r, a, topic)
    ensures InHand(PubSub.Do(r, a).listener, topic) == InHand(r.listener, topic)
  {
    var after := PubSub.Do(r, a).replies;
    ChannelOfUser(topic.user, PubSub.UNLOCK_CHANNEL);
    if |after| > |r.replies| {
      HeardSnoc(r.replies, after[|r.replies|], topic);
      assert after == r.replies + [after[|r.replies|]];
    }
  }

  lemma ReadStep(r: PubSub.State, topic: Topic)
    requires PubSub.Enabled(r, PubSub.Read)
    ensures var t := PubSub.Do(r, PubSub.Read);
            InHand(t.listener, topic) + AllHeard(t.replies, topic) == InHand(r.listener, topic) + AllHeard(r.replies, topic)
  {
    HeardCons(r.replies, topic);
  }

  lemma RedisStep(s: State, j: nat, a: PubSub.Action, l: Loop, topic: Topic)
    requires RedisEnabled(s, j, a) && CallbackOk(s, j)
    ensures var t := RedisDo(s, j, a);
            && |t.redis| == |t.callbacks| == |s.redis|
            && AtInstance(t.redis[j], t.callbacks[j], l, topic)
               == AtInstance(s.redis[j], s.callbacks[j], l, topic) + Gain(s.redis[j], a, topic)
  {
    var t := RedisDo(s, j, a);
    if a.Dispatch? {
      DispatchStep(s, j, l, topic);
    } else {
      CallbackStep(s, j, a, l, topic);
      if a.Read? {
        ReadStep(s.redis[j], topic);
      } else {
        ReplyStep(s.redis[j], a, topic);
        Associative(InHand(s.redis[j].listener, topic), AllHeard(s.redis[j].replies, topic), Gain(s.redis[j], a, topic));
        Associative(InCallback(s.redis[j].listener, s.callbacks[j], l, topic),
                    InHand(s.redis[j].listener, topic) + AllHeard(s.redis[j].replies, topic), Gain(s.redis[j], a, topic));
      }
    }
  }

  lemma CallbackStep(s: State, j: nat, a: PubSub.Action, l: Loop, topic: Topic)
    requires RedisEnabled(s, j, a) && CallbackOk(s, j) && !a.Dispatch?
    ensures var t := RedisDo(s, j, a);
            InCallback(t.redis[j].listener, t.callbacks[j], l, topic)
            == InCallback(s.redis[j].listener, s.callbacks[j], l, topic)
  {
  }

  lemma DispatchStep(s: State, j: nat, l: Loop, topic: Topic)
    requires RedisEnabled(s, j, PubSub.Dispatch) && CallbackOk(s, j)
    ensures var t := RedisDo(s, j, PubSub.Dispatch);
            AtInstance(t.redis[j], t.callbacks[j], l, topic) == AtInstance(s.redis[j], s.callbacks[j], l, topic)
  {
    ChannelOfUser(topic.user, PubSub.UNLOCK_CHANNEL);
    var t := RedisDo(s, j, PubSub.Dispatch);
    assert t.redis[j].replies == s.redis[j].replies;
    assert InCallback(s.redis[j].listener, s.callbacks[j], l, topic) == [] && InHand(t.redis[j].listener, topic) == [];
    assert InCallback(t.redis[j].listener, t.callbacks[j], l, topic) == InHand(s.redis[j].listener, topic);
  }

  // ------------------------------------------------------------- steps of callbacks and loops

  lemma LockSharedStep(s: State, j: nat, l: Loop, topic: Topic)
    requires DeliveryEnabled(s, LockShared(j)) && |s.redis| == |s.callbacks| && l in Online(s, topic.user)
    ensures var t := DeliveryDo(s, LockShared(j));
            AtInstance(t.redis[j], t.callbacks[j], l, topic) == AtInstance(s.redis[j], s.callbacks[j], l, topic)
  {
    ChannelOfUser(topic.user, s.redis[j].listener.channel);
  }

  /** What the callback queues to the loop l. */
  function Moved(s: State, j: nat, m: Loop, l: Loop, topic: Topic): seq<Text>
    requires DeliveryEnabled(s, QueueTo(j, m))
  {
    if m == l then Said(s.callbacks[j].delivery, topic) else []
  }

  lemma QueueStep(s: State, j: nat, m: Loop, l: Loop, c: Conn, topic: Topic)
    requires DeliveryEnabled(s, QueueTo(j, m)) && |s.redis| == |s.callbacks| && l in s.loops && c in s.received
    ensures var t, moved := DeliveryDo(s, QueueTo(j, m)), Moved(s, j, m, l, topic);
            && l in t.loops && t.received == s.received
            && AtLoop(t, l, c, topic) == AtLoop(s, l, c, topic) + moved
            && moved + AtInstance(t.redis[j], t.callbacks[j], l, topic)
               == AtInstance(s.redis[j], s.callbacks[j], l, topic)
  {
    if m == l {
      var d, queue := s.callbacks[j].delivery, s.loops[l].queue;
      SaidSnoc(queue, d, topic);
      var received, sending := AllSaid(s.received[c], topic), InSending(s.loops[l].doing, c, topic);
      Associative(sending, AllSaid(queue, topic), Said(d, topic));
      Associative(received, sending + AllSaid(queue, topic), Said(d, topic));
    }
  }

  lemma BeginStep(s: State, l: Loop, c: Conn, topic: Topic)
    requires DeliveryEnabled(s, Begin(l)) && c in s.received && c in Local(s, l, topic.user)
    ensures AtLoop(DeliveryDo(s, Begin(l)), l, c, topic) == AtLoop(s, l, c, topic)
  {
    SaidCons(s.loops[l].queue, topic);
  }

  lemma SendStep(s: State, l: Loop, c: Conn, topic: Topic)
    requires DeliveryEnabled(s, Send(l, c)) && c in s.received
    ensures AtLoop(DeliveryDo(s, Send(l, c)), l, c, topic) == AtLoop(s, l, c, topic)
  {
    var doing := s.loops[l].doing;
    SaidSnoc(s.received[c], doing.delivery, topic);
    Associative(AllSaid(s.received[c], topic), Said(doing.delivery, topic), AllSaid(s.loops[l].queue, topic));
  }

  lemma OtherLoopStep(s: State, a: Action, l: Loop, c: Conn, topic: Topic)
    requires DeliveryEnabled(s, a) && ((a.Begin? && a.loop != l) || (a.Send? && (a.loop != l || a.conn != c)) || a.End?)
    requires l in s.loops && c in s.received && (a.Send? ==> a.conn != c)
    ensures l in DeliveryDo(s, a).loops && c in DeliveryDo(s, a).received
    ensures AtLoop(DeliveryDo(s, a), l, c, topic) == AtLoop(s, l, c, topic)
  {
  }

  lemma LoopStep(s: State, a: Action, l: Loop, c: Conn, topic: Topic)
    requires DeliveryEnabled(s, a) && (a.Begin? || a.Send? || a.End?)
    requires LoggedIn(s, l, c, topic.user) && c in s.received && LocalOk(s, l, topic.user)
    requires SendingOk(s, a.loop) && (a.Send? ==> LocalOk(s, a.loop, s.loops[a.loop].doing.delivery.user))
    ensures l in DeliveryDo(s, a).loops && c in DeliveryDo(s, a).received
    ensures AtLoop(DeliveryDo(s, a), l, c, topic) == AtLoop(s, l, c, topic)
  {
    if a.Begin? && a.loop == l {
      BeginStep(s, l, c, topic);
    } else if a.Send? && a.conn == c {
      assert a.loop == l;
      SendStep(s, l, c, topic);
    } else {
      OtherLoopStep(s, a, l, c, topic);
    }
  }

  // -------------------------------------------------------------------------- the whole line

  function Line(s: State, i: nat, l: Loop, c: Conn, topic: Topic): seq<Text>
    requires i < |s.redis| == |s.callbacks| && l in s.loops && c in s.received
  {
    AtLoop(s, l, c, topic) + AtInstance(s.redis[i], s.callbacks[i], l, topic)
  }

  /** Nothing of the topic is in any other instance. */
  ghost predicate OnlyAt(s: State, i: nat, l: Loop, topic: Topic)
    requires |s.redis| == |s.callbacks|
  {
    forall j {:trigger s.redis[j]} :: 0 <= j < |s.redis| && j != i ==> AtInstance(s.redis[j], s.callbacks[j], l, topic) == []
  }

  /** What the action adds to the line of instance i. */
  function LineGain(s: State, i: nat, a: Action, topic: Topic): seq<Text>
  {
    if a.Redis? && a.instance == i && i < |s.redis| then Gain(s.redis[i], a.action, topic) else []
  }

  /** The action publishes nothing of the topic on another instance. */
  predicate KeepsToInstance(s: State, i: nat, a: Action, topic: Topic)
  {
    a.Redis? && a.instance != i && a.instance < |s.redis| ==> Gain(s.redis[a.instance], a.action, topic) == []
  }

  lemma LineAfterRedis(s: State, i: nat, j: nat, a: PubSub.Action, l: Loop, c: Conn, topic: Topic)
    requires RedisEnabled(s, j, a) && CallbackOk(s, j) && i < |s.redis| && l in s.loops && c in s.received
    requires OnlyAt(s, i, l, topic) && (j != i ==> Gain(s.redis[j], a, topic) == [])
    ensures var t := RedisDo(s, j, a);
            && |t.redis| == |t.callbacks| == |s.redis| && l in t.loops && c in t.received
            && OnlyAt(t, i, l, topic)
            && Line(t, i, l, c, topic) == Line(s, i, l, c, topic) + if j == i then Gain(s.redis[i], a, topic) else []
  {
    var t := RedisDo(s, j, a);
    RedisStep(s, j, a, l, topic);
    assert l in t.loops && t.received == s.received && AtLoop(t, l, c, topic) == AtLoop(s, l, c, topic);
    forall k | 0 <= k < |t.redis| && k != i
      ensures AtInstance(t.redis[k], t.callbacks[k], l, topic) == []
    {
      assert AtInstance(s.redis[k], s.callbacks[k], l, topic) == [];
    }
    if j == i {
      Associative(AtLoop(s, l, c, topic), AtInstance(s.redis[i], s.callbacks[i], l, topic), Gain(s.redis[i], a, topic));
    }
  }

  lemma BothEmpty(a: seq<Text>, b: seq<Text>)
    requires a + b == []
    ensures a == [] && b == []
  {
    assert |a + b| == 0;
  }

  lemma LineAfterQueue(s: State, i: nat, j: nat, m: Loop, l: Loop, c: Conn, topic: Topic)
    requires DeliveryEnabled(s, QueueTo(j, m)) && |s.redis| == |s.callbacks| && i < |s.redis| && l in s.loops && c in s.received
    requires OnlyAt(s, i, l, topic)
    ensures var t := DeliveryDo(s, QueueTo(j, m));
            && |t.redis| == |t.callbacks| == |s.redis| && l in t.loops && c in t.received
            && OnlyAt(t, i, l, topic) && Line(t, i, l, c, topic) == Line(s, i, l, c, topic)
  {
    var t := DeliveryDo(s, QueueTo(j, m));
    var moved := Moved(s, j, m, l, topic);
    QueueStep(s, j, m, l, c, topic);
    var rest := AtInstance(t.redis[j], t.callbacks[j], l, topic);
    if j == i {
      Associative(AtLoop(s, l, c, topic), moved, rest);
    } else {
      assert AtInstance(s.redis[j], s.callbacks[j], l, topic) == [];
      BothEmpty(moved, rest);
      assert AtLoop(s, l, c, topic) + [] == AtLoop(s, l, c, topic);
    }
    OthersAfterQueue(s, i, j, m, l, rest, topic);
  }

  lemma OthersAfterQueue(s: State, i: nat, j: nat, m: Loop, l: Loop, rest: seq<Text>, topic: Topic)
    requires DeliveryEnabled(s, QueueTo(j, m)) && |s.redis| == |s.callbacks| && OnlyAt(s, i, l, topic) && j < |s.redis|
    requires var t := DeliveryDo(s, QueueTo(j, m)); rest == AtInstance(t.redis[j], t.callbacks[j], l, topic)
    requires j != i ==> rest == []
    ensures OnlyAt(DeliveryDo(s, QueueTo(j, m)), i, l, topic)
  {
    var t := DeliveryDo(s, QueueTo(j, m));
    forall k | 0 <= k < |t.redis| && k != i
      ensures AtInstance(t.redis[k], t.callbacks[k], l, topic) == []
    {
      assert AtInstance(s.redis[k], s.callbacks[k], l, topic) == [];
    }
  }

  lemma LineAfterCallback(s: State, i: nat, a: Action, l: Loop, c: Conn, topic: Topic)
    requires DeliveryEnabled(s, a) && (a.LockShared? || a.UnlockShared?)
    requires |s.redis| == |s.callbacks| && i < |s.redis| && l in s.loops && c in s.received && l in Online(s, topic.user)
    requires OnlyAt(s, i, l, topic)
    ensures var t := DeliveryDo(s, a);
            && |t.redis| == |t.callbacks| == |s.redis| && l in t.loops && c in t.received
            && OnlyAt(t, i, l, topic) && Line(t, i, l, c, topic) == Line(s, i, l, c, topic)
  {
    var t, j := DeliveryDo(s, a), a.instance;
    if a.LockShared? {
      LockSharedStep(s, j, l, topic);
    }
    assert AtInstance(t.redis[j], t.callbacks[j], l, topic) == AtInstance(s.redis[j], s.callbacks[j], l, topic);
    forall k | 0 <= k < |t.redis| && k != i
      ensures AtInstance(t.redis[k], t.callbacks[k], l, topic) == []
    {
      assert AtInstance(s.redis[k], s.callbacks[k], l, topic) == [];
    }
  }

  lemma LineAfterLoop(s: State, i: nat, a: Action, l: Loop, c: Conn, topic: Topic)
    requires Inv(s) && DeliveryEnabled(s, a) && (a.Begin? || a.Send? || a.End?) && i < |s.redis|
    requires LoggedIn(s, l, c, topic.user) && c in s.received && OnlyAt(s, i, l, topic)
    ensures var t := DeliveryDo(s, a);
            && |t.redis| == |t.callbacks| == |s.redis| && l in t.loops && c in t.received
            && OnlyAt(t, i, l, topic) && Line(t, i, l, c, topic) == Line(s, i, l, c, topic)
  {
    assert LocalOk(s, l, topic.user) && SendingOk(s, a.loop);
    if a.Send? {
      assert LocalOk(s, a.loop, s.loops[a.loop].doing.delivery.user);
    }
    LoopStep(s, a, l, c, topic);
    assert DeliveryDo(s, a).redis == s.redis && DeliveryDo(s, a).callbacks == s.callbacks;
  }

  lemma LineAfterSession(s: State, i: nat, a: Action, l: Loop, c: Conn, topic: Topic)
    requires SessionEnabled(s, a) && i < |s.redis| == |s.callbacks| && l in s.loops && c in s.home && c in s.received
    requires OnlyAt(s, i, l, topic)
    ensures var t := SessionDo(s, a);
            && |t.redis| == |t.callbacks| == |s.redis| && l in t.loops && c in t.received
            && OnlyAt(t, i, l, topic) && Line(t, i, l, c, topic) == Line(s, i, l, c, topic)
  {
    var t := SessionDo(s, a);
    SessionKeepsPipeline(s, a);
    SessionAtLoop(s, a, l, c, topic);
  }

  lemma SessionAtLoop(s: State, a: Action, l: Loop, c: Conn, topic: Topic)
    requires SessionEnabled(s, a) && l in s.loops
    ensures var t := SessionDo(s, a);
            && l in t.loops && t.loops[l].queue == s.loops[l].queue
            && InSending(t.loops[l].doing, c, topic) == InSending(s.loops[l].doing, c, topic)
  {
    if a.loop != l {
      OthersUnchanged(s, a, l, topic.user);
    }
  }

  lemma LineAfterSearch(s: State, i: nat, a: Action, l: Loop, c: Conn, topic: Topic)
    requires SearchEnabled(s, a) && i < |s.redis| == |s.callbacks| && l in s.loops && c in s.received
    requires OnlyAt(s, i, l, topic)
    ensures var t := SearchDo(s, a);
            && |t.redis| == |t.callbacks| == |s.redis| && l in t.loops && c in t.received
            && OnlyAt(t, i, l, topic) && Line(t, i, l, c, topic) == Line(s, i, l, c, topic)
  {
  }

  /** One step: the line grows at its end, by what is published on the instance, and never otherwise changes. */
  lemma LineStep(s: State, i: nat, a: Action, l: Loop, c: Conn, topic: Topic)
    requires Inv(s) && i < |s.redis| && LoggedIn(s, l, c, topic.user) && l in Online(s, topic.user) && c in s.received
    requires Enabled(s, a) && OnlyAt(s, i, l, topic) && KeepsToInstance(s, i, a, topic)
    ensures var t := Do(s, a);
            && |t.redis| == |t.callbacks| == |s.redis| && l in t.loops && c in t.received
            && OnlyAt(t, i, l, topic)
            && Line(t, i, l, c, topic) == Line(s, i, l, c, topic) + LineGain(s, i, a, topic)
  {
    assert LocalOk(s, l, topic.user);
    if a.Redis? {
      assert CallbackOk(s, a.instance);
      LineAfterRedis(s, i, a.instance, a.action, l, c, topic);
    } else if SessionEnabled(s, a) {
      LineAfterSession(s, i, a, l, c, topic);
    } else if DeliveryEnabled(s, a) {
      if a.QueueTo? {
        LineAfterQueue(s, i, a.instance, a.loop, l, c, topic);
      } else if a.LockShared? || a.UnlockShared? {
        LineAfterCallback(s, i, a, l, c, topic);
      } else {
        LineAfterLoop(s, i, a, l, c, topic);
      }
    } else {
      LineAfterSearch(s, i, a, l, c, topic);
    }
  }

  // ------------------------------------------------------------------------------ whole runs

  /** The run publishes nothing of the topic on another instance. */
  ghost predicate StaysAtInstance(s: State, i: nat, run: seq<Action>, topic: Topic)
    decreases |run|
  {
    run == [] ||
      (StaysAtInstance(s, i, run[..|run| - 1], topic)
       && KeepsToInstance(Exec(s, run[..|run| - 1]), i, run[|run| - 1], topic))
  }

  /** What the run publishes of the topic on the instance, in order. */
  function PublishedTexts(i: nat, run: seq<Action>, topic: Topic): seq<Text>
    decreases |run|
  {
    if run == [] then []
    else
      var a := run[|run| - 1];
      PublishedTexts(i, run[..|run| - 1], topic)
      + if a.Redis? && a.instance == i && a.action.Publish?
        then Heard(PubSub.Message(a.action.channel, a.action.text), topic) else []
  }

  /** On an instance that has executed our subscription, every publish of the topic is a gain. */
  lemma SettledGain(s: State, i: nat, a: Action, topic: Topic)
    requires i < |s.redis| && Settled(s, i, topic.user)
    ensures LineGain(s, i, a, topic)
         == if a.Redis? && a.instance == i && a.action.Publish?
            then Heard(PubSub.Message(a.action.channel, a.action.text), topic) else []
  {
  }

  /** Order: over any interleaving in which a connection stays logged in as u and some texts for u are published on
      one instance only, what the connection has received of them, and what is on its way to it, make one line
      that grows at its end in the order of the publishes. */
  lemma {:induction false} OrderKept(s: State, i: nat, run: seq<Action>, l: Loop, c: Conn, topic: Topic)
    requires Inv(s) && i < |s.redis| && LoggedIn(s, l, c, topic.user) && l in Online(s, topic.user) && c in s.received
    requires StaysLoggedIn(s, run, l, c, topic.user) && StaysAtInstance(s, i, run, topic)
    requires OnlyAt(s, i, l, topic) && Settled(s, i, topic.user)
    ensures var t := Exec(s, run);
            && Inv(t) && i < |t.redis| && l in t.loops && c in t.received && l in Online(t, topic.user)
            && OnlyAt(t, i, l, topic) && Settled(t, i, topic.user)
            && Line(t, i, l, c, topic) == Line(s, i, l, c, topic) + PublishedTexts(i, run, topic)
    decreases |run|
  {
    if run == [] {
      assert Line(s, i, l, c, topic) + [] == Line(s, i, l, c, topic);
    } else {
      var front, a := run[..|run| - 1], run[|run| - 1];
      OrderKept(s, i, front, l, c, topic);
      var before := Exec(s, front);
      SettledGain(before, i, a, topic);
      Associative(Line(s, i, l, c, topic), PublishedTexts(i, front, topic), LineGain(before, i, a, topic));
      if Enabled(before, a) {
        LineStep(before, i, a, l, c, topic);
        StepKeepsInv(before, a);
        StaysOnline(before, a, l, c, topic.user);
        StaysSettled(before, a, i, topic.user);
      } else {
        DisabledGain(before, i, a, topic);
      }
    }
  }

  lemma DisabledGain(s: State, i: nat, a: Action, topic: Topic)
    requires Inv(s) && !Enabled(s, a)
    ensures LineGain(s, i, a, topic) == []
  {
  }

  /** In particular, of texts that are published on one instance only, and of which nothing is there before, a
      connection has received a prefix of what was published, in that order. */
  lemma ReceivedInOrder(s: State, i: nat, run: seq<Action>, l: Loop, c: Conn, topic: Topic)
    requires Inv(s) && i < |s.redis| && LoggedIn(s, l, c, topic.user) && l in Online(s, topic.user) && c in s.received
    requires StaysLoggedIn(s, run, l, c, topic.user) && StaysAtInstance(s, i, run, topic)
    requires OnlyAt(s, i, l, topic) && Settled(s, i, topic.user) && Line(s, i, l, c, topic) == []
    ensures var t := Exec(s, run);
            && c in t.received && AllSaid(t.received[c], topic) <= PublishedTexts(i, run, topic)
  {
    OrderKept(s, i, run, l, c, topic);
    var t := Exec(s, run);
    Prefix(AllSaid(t.received[c], topic),
           InSending(t.loops[l].doing, c, topic) + AllSaid(t.loops[l].queue, topic),
           AtInstance(t.redis[i], t.callbacks[i], l, topic));
  }

  lemma Prefix(a: seq<Text>, b: seq<Text>, c: seq<Text>)
    ensures a <= a + b + c
  {
  }
}
