/** One RedisPubSub object and the Redis it is connected to: callers of subscribe and unsubscribe take the
    connection's mutex from a listener that holds it while it waits for a reply, by publishing a message that
    wakes it. */
module PubSub {

  type Thread = nat
  type Channel = string

  const UNLOCK_CHANNEL: Channel := "__UNLOCK_CHANNEL__"

  datatype Reply =
    | Message(channel: Channel, text: string)
    | Subscribed(channel: Channel)
    | Unsubscribed(channel: Channel)

  datatype Command =
    | Subscribe(channel: Channel)
    | Unsubscribe(channel: Channel)

  /** A thread inside subscribe or unsubscribe. */
  datatype Call =
    | Trying(command: Command)     // in the loop around try_lock_for
    | Owning(command: Command)     // holds mtx_, has not written its command to the socket
    | Leaving(command: Command)    // holds mtx_, about to return

  datatype Mutex = Free | ByListener | ByThread(thread: Thread)

  /** Where messageListener is. */
  datatype Listener =
    | Testing                               // about to look at stop_
    | Waiting                               // about to lock mtx_
    | Reading                               // holds mtx_, blocked until there is a reply
    | Handling(reply: Reply)                // has released mtx_
    | Calling(channel: Channel, text: string)   // inside callback_
    | Done

  datatype State = State(
    subscriptions: set<Channel>,     // of this connection, in Redis
    commands: seq<Command>,          // written by us, not yet executed by Redis
    replies: seq<Reply>,             // on their way to this connection
    mutex: Mutex,                    // mtx_
    listener: Listener,
    stop: bool,                      // stop_
    calls: map<Thread, Call>,
    consumed: seq<Reply>,            // replies read so far
    callbacks: seq<(Channel, string)>)   // calls of callback_ so far

  /** After the constructor, which has written its subscription and waits for nothing. */
  const INITIAL := State({}, [Subscribe(UNLOCK_CHANNEL)], [], Free, Testing, false, map[], [], [])

  datatype Action =
    | Publish(channel: Channel, text: string)     // by anybody, on any connection to this Redis
    | Enter(thread: Thread, command: Command)     // subscribe or unsubscribe is called
    | Stop(thread: Thread)                        // stop sets stop_ and calls unsubscribe
    | GiveUp(thread: Thread)                      // one attempt to lock timed out: publishes unlock
    | Lock(thread: Thread)                        // one attempt succeeded
    | Write(thread: Thread)
    | Return(thread: Thread)
    | Execute                                     // Redis executes the oldest command
    | TestStop                                    // the listener, one step at a time
    | ListenerLock
    | Read
    | Dispatch
    | CallbackReturns

  predicate Enabled(s: State, a: Action)
  {
    match a
    case Publish(_, _) => true
    case Enter(t, command) => t !in s.calls && command.channel != UNLOCK_CHANNEL
    case Stop(t) => t !in s.calls
    case GiveUp(t) => t in s.calls && s.calls[t].Trying?
    case Lock(t) => t in s.calls && s.calls[t].Trying? && s.mutex.Free?
    case Write(t) => t in s.calls && s.calls[t].Owning?
    case Return(t) => t in s.calls && s.calls[t].Leaving?
    case Execute => s.commands != []
    case TestStop => s.listener.Testing?
    case ListenerLock => s.listener.Waiting? && s.mutex.Free?
    case Read => s.listener.Reading? && s.replies != []
    case Dispatch => s.listener.Handling?
    case CallbackReturns => s.listener.Calling?
  }

  /** Redis forwards a message to its subscribers. */
  function Published(s: State, channel: Channel, text: string): State
  {
    if channel in s.subscriptions then s.(replies := s.replies + [Message(channel, text)]) else s
  }

  function Applied(subscriptions: set<Channel>, command: Command): set<Channel>
  {
    match command
    case Subscribe(c) => subscriptions + {c}
    case Unsubscribe(c) => subscriptions - {c}
  }

  function Acknowledgement(command: Command): Reply
  {
    match command
    case Subscribe(c) => Subscribed(c)
    case Unsubscribe(c) => Unsubscribed(c)
  }

  function Executed(s: State): State
    requires s.commands != []
  {
    s.(subscriptions := Applied(s.subscriptions, s.commands[0]), commands := s.commands[1..],
       replies := s.replies + [Acknowledgement(s.commands[0])])
  }

  function Dispatched(s: State, reply: Reply): State
  {
    if reply.Message? && reply.channel != UNLOCK_CHANNEL then
      s.(listener := Calling(reply.channel, reply.text), callbacks := s.callbacks + [(reply.channel, reply.text)])
    else
      s.(listener := Testing)
  }

  function Do(s: State, a: Action): State
    requires Enabled(s, a)
  {
    match a
    case Publish(channel, text) => Published(s, channel, text)
    case Enter(t, command) => s.(calls := s.calls[t := Trying(command)])
    case Stop(t) => s.(stop := true, calls := s.calls[t := Trying(Unsubscribe(UNLOCK_CHANNEL))])
    case GiveUp(t) => Published(s, UNLOCK_CHANNEL, "unlock")
    case Lock(t) => s.(mutex := ByThread(t), calls := s.calls[t := Owning(s.calls[t].command)])
    case Write(t) =>
      s.(commands := s.commands + [s.calls[t].command], calls := s.calls[t := Leaving(s.calls[t].command)])
    case Return(t) => s.(mutex := Free, calls := s.calls - {t})
    case Execute => Executed(s)
    case TestStop => s.(listener := if s.stop then Done else Waiting)
    case ListenerLock => s.(mutex := ByListener, listener := Reading)
    case Read =>
      s.(mutex := Free, listener := Handling(s.replies[0]), replies := s.replies[1..],
         consumed := s.consumed + [s.replies[0]])
    case Dispatch => Dispatched(s, s.listener.reply)
    case CallbackReturns => s.(listener := Testing)
  }

  function Next(s: State, a: Action): State
  {
    if Enabled(s, a) then Do(s, a) else s
  }

  /** Every interleaving is a sequence of actions; one that is not enabled when its turn comes has no effect. */
  function Exec(s: State, run: seq<Action>): State
    decreases |run|
  {
    if run == [] then s else Next(Exec(s, run[..|run| - 1]), run[|run| - 1])
  }

  /** The actions of the run are all enabled when their turn comes. */
  predicate Possible(s: State, run: seq<Action>)
    decreases |run|
  {
    run == [] || (Possible(s, run[..|run| - 1]) && Enabled(Exec(s, run[..|run| - 1]), run[|run| - 1]))
  }

  // ----------------------------------------------------------------- what has been written

  function AppliedAll(subscriptions: set<Channel>, commands: seq<Command>): set<Channel>
    decreases |commands|
  {
    if commands == [] then subscriptions
    else Applied(AppliedAll(subscriptions, commands[..|commands| - 1]), commands[|commands| - 1])
  }

  /** What the connection will be subscribed to once Redis has executed everything written so far. */
  function Requested(s: State): set<Channel>
  {
    AppliedAll(s.subscriptions, s.commands)
  }

  lemma {:induction false} OldestFirst(subscriptions: set<Channel>, commands: seq<Command>)
    requires commands != []
    ensures AppliedAll(Applied(subscriptions, commands[0]), commands[1..]) == AppliedAll(subscriptions, commands)
    decreases |commands|
  {
    if |commands| > 1 {
      OldestFirst(subscriptions, commands[..|commands| - 1]);
      assert commands[..|commands| - 1][1..] == commands[1..][..|commands| - 2];
    }
  }

  /** Only writing a command changes what is requested; executing one does not. */
  lemma RequestedStep(s: State, a: Action)
    requires Enabled(s, a)
    ensures Requested(Do(s, a)) == if a.Write? then Applied(Requested(s), s.calls[a.thread].command) else Requested(s)
  {
    if a.Execute? {
      OldestFirst(s.subscriptions, s.commands);
    } else if a.Write? {
      assert (s.commands + [s.calls[a.thread].command])[..|s.commands|] == s.commands;
    }
  }

  // ----------------------------------------------------------------------- invariant

  ghost predicate CallOk(s: State, t: Thread)
    requires t in s.calls
  {
    && (!s.calls[t].Trying? <==> s.mutex == ByThread(t))
    && (s.calls[t].command.channel == UNLOCK_CHANNEL ==> s.stop && s.calls[t].command.Unsubscribe?)
    && (s.calls[t].Leaving? ==>
          (s.calls[t].command.channel in Requested(s) <==> s.calls[t].command.Subscribe?))
  }

  /** The caller of stop still has to unsubscribe the unlock channel. */
  ghost predicate Stopping(s: State, t: Thread)
  {
    t in s.calls && !s.calls[t].Leaving? && s.calls[t].command == Unsubscribe(UNLOCK_CHANNEL)
  }

  /** A listener that may block has a reply, will get an acknowledgement, or can be woken. */
  ghost predicate CanWake(s: State)
  {
    s.replies != [] || s.commands != [] || UNLOCK_CHANNEL in s.subscriptions
  }

  ghost predicate Inv(s: State)
  {
    && (s.mutex.ByListener? <==> s.listener.Reading?)
    && (forall t {:trigger CallOk(s, t)} :: t in s.calls ==> CallOk(s, t))
    && (s.mutex.ByThread? ==> s.mutex.thread in s.calls)
    && (UNLOCK_CHANNEL !in Requested(s) ==> s.stop)
    && (s.listener.Waiting? || s.listener.Reading? ==> CanWake(s))
    && (s.stop && UNLOCK_CHANNEL in Requested(s) ==> exists t :: Stopping(s, t))
    && (s.listener.Done? ==> s.stop)
  }

  lemma CallStaysOk(s: State, a: Action, t: Thread)
    requires Inv(s) && Enabled(s, a) && t in Do(s, a).calls
    ensures CallOk(Do(s, a), t)
  {
    RequestedStep(s, a);
    assert t in s.calls ==> CallOk(s, t);
    if a.Lock? || a.Write? || a.Return? {
      assert CallOk(s, a.thread);
    }
  }

  lemma StoppingStays(s: State, a: Action, t: Thread)
    requires Inv(s) && Enabled(s, a) && Stopping(s, t) && UNLOCK_CHANNEL in Requested(Do(s, a))
    ensures Stopping(Do(s, a), t)
  {
    RequestedStep(s, a);
  }

  lemma CanStillWake(s: State, a: Action)
    requires Inv(s) && Enabled(s, a) && (Do(s, a).listener.Waiting? || Do(s, a).listener.Reading?)
    ensures CanWake(Do(s, a))
  {
  }

  lemma StepKeepsInv(s: State, a: Action)
    requires Inv(s) && Enabled(s, a)
    ensures Inv(Do(s, a))
  {
    var s' := Do(s, a);
    RequestedStep(s, a);
    if s'.listener.Waiting? || s'.listener.Reading? {
      CanStillWake(s, a);
    }
    forall t | t in s'.calls
      ensures CallOk(s', t)
    {
      CallStaysOk(s, a, t);
    }
    if a.Lock? || a.Write? || a.Return? {
      assert CallOk(s, a.thread);
    }
    if s'.stop && UNLOCK_CHANNEL in Requested(s') {
      if a.Stop? {
        assert Stopping(s', a.thread);
      } else {
        var t :| Stopping(s, t);
        StoppingStays(s, a, t);
      }
    }
  }

  lemma InitialInv()
    ensures Inv(INITIAL) && Requested(INITIAL) == {UNLOCK_CHANNEL}
  {
    assert [Subscribe(UNLOCK_CHANNEL)][..0] == [];
    assert AppliedAll({}, []) == {};
  }

  lemma {:induction false} RunKeepsInv(s: State, run: seq<Action>)
    requires Inv(s)
    ensures Inv(Exec(s, run))
    decreases |run|
  {
    if run != [] {
      RunKeepsInv(s, run[..|run| - 1]);
      if Enabled(Exec(s, run[..|run| - 1]), run[|run| - 1]) {
        StepKeepsInv(Exec(s, run[..|run| - 1]), run[|run| - 1]);
      }
    }
  }

  // -------------------------------------------------------------------- conservation

  /** The messages among the replies that callback_ is for. */
  function MessagesOf(replies: seq<Reply>): seq<(Channel, string)>
    decreases |replies|
  {
    if replies == [] then []
    else
      var front, last := replies[..|replies| - 1], replies[|replies| - 1];
      if last.Message? && last.channel != UNLOCK_CHANNEL then MessagesOf(front) + [(last.channel, last.text)]
      else MessagesOf(front)
  }

  /** What others published, while the connection was subscribed to it. */
  function PublishedToUs(run: seq<Action>): seq<(Channel, string)>
    decreases |run|
  {
    if run == [] then []
    else
      var front, last := run[..|run| - 1], run[|run| - 1];
      if last.Publish? && last.channel != UNLOCK_CHANNEL && last.channel in Exec(INITIAL, front).subscriptions then
        PublishedToUs(front) + [(last.channel, last.text)]
      else PublishedToUs(front)
  }

  /** The reply the listener has read and not looked at yet. */
  function InHand(s: State): seq<Reply>
  {
    if s.listener.Handling? then [s.listener.reply] else []
  }

  lemma {:induction false} MessagesOfConcat(a: seq<Reply>, b: seq<Reply>)
    ensures MessagesOf(a + b) == MessagesOf(a) + MessagesOf(b)
    decreases |b|
  {
    if b == [] {
      assert a + b == a;
    } else {
      MessagesOfConcat(a, b[..|b| - 1]);
      assert (a + b)[..|a + b| - 1] == a + b[..|b| - 1];
    }
  }

  lemma MessagesOfOne(r: Reply)
    ensures MessagesOf([r]) == if r.Message? && r.channel != UNLOCK_CHANNEL then [(r.channel, r.text)] else []
  {
    assert [r][..0] == [];
  }

  /** Everything the callback got or will get, in order. */
  function Stream(s: State): seq<(Channel, string)>
  {
    s.callbacks + MessagesOf(InHand(s) + s.replies)
  }

  lemma ReplyArrives(s: State, t: State, r: Reply)
    requires t.callbacks == s.callbacks && t.listener == s.listener && t.replies == s.replies + [r]
    ensures Stream(t) == Stream(s) + MessagesOf([r])
  {
    assert InHand(t) + t.replies == InHand(s) + s.replies + [r];
    MessagesOfConcat(InHand(s) + s.replies, [r]);
  }

  lemma DispatchKeepsStream(s: State)
    requires s.listener.Handling?
    ensures Stream(Do(s, Dispatch)) == Stream(s)
  {
    var t, now := Do(s, Dispatch), MessagesOf([s.listener.reply]);
    MessagesOfConcat([s.listener.reply], s.replies);
    assert InHand(t) + t.replies == s.replies;
    assert t.callbacks == s.callbacks + now by {
      MessagesOfOne(s.listener.reply);
    }
    Associative(s.callbacks, now, MessagesOf(s.replies));
  }

  lemma Associative(a: seq<(Channel, string)>, b: seq<(Channel, string)>, c: seq<(Channel, string)>)
    ensures a + b + c == a + (b + c)
  {
  }

  lemma StreamStep(s: State, a: Action)
    requires Inv(s)
    ensures Stream(Next(s, a)) == Stream(s)
         + if a.Publish? && a.channel != UNLOCK_CHANNEL && a.channel in s.subscriptions then [(a.channel, a.text)] else []
  {
    var t := Next(s, a);
    if |t.replies| > |s.replies| {
      ReplyArrives(s, t, t.replies[|s.replies|]);
      MessagesOfOne(t.replies[|s.replies|]);
    } else if Enabled(s, a) && a.Read? {
      assert InHand(t) + t.replies == s.replies == InHand(s) + s.replies;
    } else if Enabled(s, a) && a.Dispatch? {
      DispatchKeepsStream(s);
    }
  }

  lemma {:induction false} StreamOfRun(run: seq<Action>)
    ensures Stream(Exec(INITIAL, run)) == PublishedToUs(run)
    decreases |run|
  {
    if run == [] {
      assert InHand(INITIAL) + INITIAL.replies == [];
    } else {
      StreamOfRun(run[..|run| - 1]);
      InitialInv();
      RunKeepsInv(INITIAL, run[..|run| - 1]);
      StreamStep(Exec(INITIAL, run[..|run| - 1]), run[|run| - 1]);
    }
  }

  /** Nothing is lost, repeated or reordered: the callback has got a prefix of what was published to us, and
      all of it once the listener is back for more and no reply is left. */
  lemma CallbacksArePublished(run: seq<Action>)
    ensures var s := Exec(INITIAL, run);
            && s.callbacks <= PublishedToUs(run)
            && (s.replies == [] && !s.listener.Handling? ==> s.callbacks == PublishedToUs(run))
  {
    StreamOfRun(run);
    var s := Exec(INITIAL, run);
    if s.replies == [] && !s.listener.Handling? {
      assert InHand(s) + s.replies == [];
    }
  }

  lemma ReadStep(s: State, a: Action)
    requires s.callbacks + MessagesOf(InHand(s)) == MessagesOf(s.consumed)
    ensures Next(s, a).callbacks + MessagesOf(InHand(Next(s, a))) == MessagesOf(Next(s, a).consumed)
  {
    var t := Next(s, a);
    if t.listener.Handling? && !s.listener.Handling? {
      MessagesOfConcat(s.consumed, [t.listener.reply]);
    } else if s.listener.Handling? && !t.listener.Handling? {
      MessagesOfOne(s.listener.reply);
    }
  }

  /** The callback sequence is exactly the messages among the replies read, the unlock channel left out. */
  lemma {:induction false} CallbacksAreMessagesRead(run: seq<Action>)
    ensures var s := Exec(INITIAL, run); s.callbacks + MessagesOf(InHand(s)) == MessagesOf(s.consumed)
    decreases |run|
  {
    if run != [] {
      CallbacksAreMessagesRead(run[..|run| - 1]);
      ReadStep(Exec(INITIAL, run[..|run| - 1]), run[|run| - 1]);
    }
  }

  /** The commands that these replies acknowledge. */
  function CommandsOf(replies: seq<Reply>): seq<Command>
    decreases |replies|
  {
    if replies == [] then []
    else
      var front, last := CommandsOf(replies[..|replies| - 1]), replies[|replies| - 1];
      match last
      case Message(_, _) => front
      case Subscribed(c) => front + [Subscribe(c)]
      case Unsubscribed(c) => front + [Unsubscribe(c)]
  }

  /** What the callers of subscribe, unsubscribe and stop wrote in the course of the run. */
  function WrittenBy(run: seq<Action>): seq<Command>
    decreases |run|
  {
    if run == [] then []
    else
      var front, s, a := run[..|run| - 1], Exec(INITIAL, run[..|run| - 1]), run[|run| - 1];
      if Enabled(s, a) && a.Write? then WrittenBy(front) + [s.calls[a.thread].command] else WrittenBy(front)
  }

  lemma OneMoreReply(replies: seq<Reply>, r: Reply)
    ensures CommandsOf(replies + [r]) == CommandsOf(replies) + (match r case Message(_, _) => []
                                                                  case Subscribed(c) => [Subscribe(c)]
                                                                  case Unsubscribed(c) => [Unsubscribe(c)])
  {
    assert (replies + [r])[..|replies|] == replies;
  }

  lemma OneMoved(before: seq<Command>, commands: seq<Command>)
    requires commands != []
    ensures before + [commands[0]] + commands[1..] == before + commands
  {
  }

  /** What is acknowledged or yet to be executed. */
  function Acknowledged(s: State): seq<Command>
  {
    CommandsOf(s.consumed + s.replies) + s.commands
  }

  lemma ReplyAdded(s: State, t: State, r: Reply)
    requires t.consumed == s.consumed && t.replies == s.replies + [r]
    ensures CommandsOf(t.consumed + t.replies) == CommandsOf(s.consumed + s.replies) + CommandsOf([r])
  {
    assert t.consumed + t.replies == s.consumed + s.replies + [r];
    OneMoreReply(s.consumed + s.replies, r);
    OneMoreReply([], r);
    assert [] + [r] == [r];
  }

  lemma AcknowledgeStep(s: State, a: Action)
    requires Enabled(s, a)
    ensures Acknowledged(Do(s, a)) == Acknowledged(s) + if a.Write? then [s.calls[a.thread].command] else []
  {
    var t := Do(s, a);
    if a.Execute? {
      ExecuteAcknowledges(s);
    } else if a.Read? {
      assert t.consumed + t.replies == s.consumed + s.replies;
    } else if |t.replies| > |s.replies| {
      MessageAdded(s, t, t.replies[|s.replies|]);
    }
  }

  lemma ExecuteAcknowledges(s: State)
    requires s.commands != []
    ensures Acknowledged(Executed(s)) == Acknowledged(s)
  {
    ReplyAdded(s, Executed(s), Acknowledgement(s.commands[0]));
    OneMoreReply([], Acknowledgement(s.commands[0]));
    OneMoved(CommandsOf(s.consumed + s.replies), s.commands);
  }

  lemma MessageAdded(s: State, t: State, r: Reply)
    requires t.consumed == s.consumed && t.replies == s.replies + [r] && t.commands == s.commands && r.Message?
    ensures Acknowledged(t) == Acknowledged(s)
  {
    ReplyAdded(s, t, r);
    OneMoreReply([], r);
  }

  /** Every command written, the constructor's first, is acknowledged once and in order: those acknowledged so far, read
      or not, and those that Redis has not executed are all there are. */
  lemma {:induction false} EveryCommandAcknowledged(run: seq<Action>)
    ensures var s := Exec(INITIAL, run);
            Acknowledged(s) == [Subscribe(UNLOCK_CHANNEL)] + WrittenBy(run)
    decreases |run|
  {
    if run != [] {
      var front, a := run[..|run| - 1], run[|run| - 1];
      EveryCommandAcknowledged(front);
      if Enabled(Exec(INITIAL, front), a) {
        AcknowledgeStep(Exec(INITIAL, front), a);
      }
    }
  }

  /** The connection is used by one thread at a time: replies are read, and commands written, only under the
      mutex, and never while another thread is inside. */
  lemma MutualExclusion(run: seq<Action>, t: Thread, u: Thread)
    requires t in Exec(INITIAL, run).calls && !Exec(INITIAL, run).calls[t].Trying?
    ensures var s := Exec(INITIAL, run);
            && s.mutex == ByThread(t) && !s.listener.Reading?
            && (u in s.calls && !s.calls[u].Trying? ==> u == t)
  {
    InitialInv();
    RunKeepsInv(INITIAL, run);
    assert CallOk(Exec(INITIAL, run), t);
    assert u in Exec(INITIAL, run).calls ==> CallOk(Exec(INITIAL, run), u);
  }

  // ------------------------------------------------------------------------ progress

  lemma {:induction false} ExecConcat(s: State, a: seq<Action>, b: seq<Action>)
    ensures Exec(s, a + b) == Exec(Exec(s, a), b)
    ensures Possible(s, a) && Possible(Exec(s, a), b) ==> Possible(s, a + b)
    decreases |b|
  {
    if b == [] {
      assert a + b == a;
    } else {
      ExecConcat(s, a, b[..|b| - 1]);
      assert (a + b)[..|a + b| - 1] == a + b[..|b| - 1];
    }
  }

  lemma ExecOne(s: State, a: Action)
    ensures Exec(s, [a]) == Next(s, a)
    ensures Enabled(s, a) ==> Possible(s, [a])
  {
    assert [a][..0] == [];
  }

  lemma ExecTwo(s: State, a: Action, b: Action)
    ensures Exec(s, [a, b]) == Next(Next(s, a), b)
    ensures Enabled(s, a) && Enabled(Do(s, a), b) ==> Possible(s, [a, b])
  {
    assert [a, b][..1] == [a];
    ExecOne(s, a);
  }

  /** What it takes to give a blocked listener a reply: an acknowledgement, if one is due, or the unlock message
      of a waiting thread. */
  function Wake(s: State, waker: Thread): (run: seq<Action>)
    ensures |run| <= 1
  {
    if s.replies != [] then [] else if s.commands != [] then [Execute] else [GiveUp(waker)]
  }

  lemma Wakes(s: State, waker: Thread)
    requires Inv(s) && (s.listener.Waiting? || s.listener.Reading?)
    requires s.replies == [] && s.commands == [] ==> waker in s.calls && s.calls[waker].Trying?
    ensures var run := Wake(s, waker); var t := Exec(s, run);
            && Possible(s, run) && t.replies != [] && t.listener == s.listener && t.mutex == s.mutex && t.calls == s.calls
            && Requested(t) == Requested(s) && t.stop == s.stop
  {
    if s.replies == [] {
      ExecOne(s, Wake(s, waker)[0]);
      RequestedStep(s, Wake(s, waker)[0]);
    }
  }

  /** What it takes to free the mutex: its owner finishes, or the listener reads a reply. */
  function FreeMutex(s: State, waker: Thread): (run: seq<Action>)
    ensures |run| <= 2
  {
    match s.mutex
    case Free => []
    case ByThread(o) => if o in s.calls && s.calls[o].Owning? then [Write(o), Return(o)] else [Return(o)]
    case ByListener => Wake(s, waker) + [Read]
  }

  lemma MutexCanBeFreed(s: State, waker: Thread)
    requires Inv(s) && waker in s.calls && s.calls[waker].Trying?
    ensures var run := FreeMutex(s, waker);
            && Possible(s, run) && Exec(s, run).mutex.Free?
            && waker in Exec(s, run).calls && Exec(s, run).calls[waker] == s.calls[waker]
  {
    assert CallOk(s, waker);
    match s.mutex
    case Free =>
    case ByThread(o) =>
      assert CallOk(s, o);
      ExecOne(s, Return(o));
      ExecTwo(s, Write(o), Return(o));
    case ByListener =>
      Wakes(s, waker);
      ExecOne(Exec(s, Wake(s, waker)), Read);
      ExecConcat(s, Wake(s, waker), [Read]);
  }

  /** A thread in subscribe or unsubscribe is never stuck: from every reachable state, at most three steps by
      itself, Redis, the mutex's owner and the listener give it the mutex. */
  lemma CanAlwaysLock(s: State, t: Thread)
    requires Inv(s) && t in s.calls && s.calls[t].Trying?
    ensures var run := FreeMutex(s, t) + [Lock(t)];
            && Possible(s, run) && |run| <= 3
            && Exec(s, run).mutex == ByThread(t)
            && t in Exec(s, run).calls && Exec(s, run).calls[t] == Owning(s.calls[t].command)
  {
    MutexCanBeFreed(s, t);
    var free := Exec(s, FreeMutex(s, t));
    ExecOne(free, Lock(t));
    ExecConcat(s, FreeMutex(s, t), [Lock(t)]);
  }

  // ------------------------------------------------------------------------ shutdown

  /** How many steps the listener can still take once stop_ is set. */
  function Rank(l: Listener): nat
  {
    match l
    case Done => 0
    case Testing => 1
    case Calling(_, _) => 2
    case Handling(_) => 3
    case Reading => 4
    case Waiting => 5
  }

  predicate ByTheListener(a: Action)
  {
    a.TestStop? || a.ListenerLock? || a.Read? || a.Dispatch? || a.CallbackReturns?
  }

  function ListenerSteps(s: State, run: seq<Action>): nat
    decreases |run|
  {
    if run == [] then 0
    else
      var front, last := run[..|run| - 1], run[|run| - 1];
      ListenerSteps(s, front) + if ByTheListener(last) && Enabled(Exec(s, front), last) then 1 else 0
  }

  /** Once stop_ is set, in every interleaving the listener takes at most five more steps and consumes at most
      one more reply, and that only if it had already passed the loop test. */
  lemma {:induction false} StopsSoon(s: State, run: seq<Action>)
    requires s.stop
    ensures var s' := Exec(s, run);
            && s'.stop
            && ListenerSteps(s, run) + Rank(s'.listener) <= Rank(s.listener) <= 5
            && |s'.consumed| + (if s'.listener.Waiting? || s'.listener.Reading? then 1 else 0)
               <= |s.consumed| + (if s.listener.Waiting? || s.listener.Reading? then 1 else 0)
    decreases |run|
  {
    if run != [] {
      StopsSoon(s, run[..|run| - 1]);
    }
  }

  /** The listener's next step. */
  function ListenerNext(s: State): Action
  {
    match s.listener
    case Testing => TestStop
    case Waiting => ListenerLock
    case Reading => Read
    case Handling(_) => Dispatch
    case Calling(_, _) => CallbackReturns
    case Done => TestStop
  }

  /** What it takes to enable the listener's next step. */
  function MakeWay(s: State, stopper: Thread): seq<Action>
  {
    if s.listener.Waiting? && s.mutex.ByThread? then FreeMutex(s, s.mutex.thread)
    else if s.listener.Reading? then Wake(s, stopper)
    else []
  }

  lemma WayIsMade(s: State, stopper: Thread)
    requires Inv(s) && s.stop && !s.listener.Done?
    requires UNLOCK_CHANNEL in Requested(s) ==> Stopping(s, stopper)
    ensures var run := MakeWay(s, stopper);
            && Possible(s, run) && Exec(s, run).listener == s.listener
            && Enabled(Exec(s, run), ListenerNext(s))
  {
    if s.listener.Waiting? && s.mutex.ByThread? {
      var o := s.mutex.thread;
      assert CallOk(s, o);
      ExecOne(s, Return(o));
      ExecTwo(s, Write(o), Return(o));
    } else if s.listener.Reading? {
      if s.replies == [] && s.commands == [] {
        assert Requested(s) == s.subscriptions;
        assert CallOk(s, stopper);
      }
      Wakes(s, stopper);
    }
  }

  /** Shutdown cannot hang: once stop_ is set, some finite continuation ends the listener's loop. */
  lemma {:induction false} CanAlwaysFinish(s: State) returns (run: seq<Action>)
    requires Inv(s) && s.stop
    ensures Possible(s, run) && Exec(s, run).listener.Done?
    decreases Rank(s.listener)
  {
    run := [];
    if !s.listener.Done? {
      var stopper: Thread := 0;
      if UNLOCK_CHANNEL in Requested(s) {
        stopper :| Stopping(s, stopper);
      }
      var way := MakeWay(s, stopper);
      WayIsMade(s, stopper);
      var open := Exec(s, way);
      ExecOne(open, ListenerNext(s));
      RunKeepsInv(s, way);
      StopsSoon(s, way);
      StepKeepsInv(open, ListenerNext(s));
      var rest := CanAlwaysFinish(Do(open, ListenerNext(s)));
      ExecConcat(open, [ListenerNext(s)], rest);
      ExecConcat(s, way, [ListenerNext(s)] + rest);
      run := way + ([ListenerNext(s)] + rest);
    }
  }
}
