/** The distributed server: loop threads that log users in and out, one listener thread for each Redis, the
    shared map of online users under a readers-writer lock, and the channel subscriptions. Every lock, command
    and map operation is a step; an interleaving is any sequence of steps. */
module ChatServer {
  import PubSub
  import opened Strings

  type Loop = PubSub.Thread
  type Conn = nat
  type User = string
  type Text = string

  function UserChannel(user: User): PubSub.Channel
  {
    "user." + user
  }

  predicate IsUserChannel(channel: PubSub.Channel)
  {
    |channel| >= 5 && channel[..5] == "user."
  }

  function UserOf(channel: PubSub.Channel): User
    requires |channel| >= 5
  {
    channel[5..]
  }

  lemma ChannelOfUser(user: User, channel: PubSub.Channel)
    ensures channel == UserChannel(user) <==> IsUserChannel(channel) && UserOf(channel) == user
    ensures UserChannel(user) != PubSub.UNLOCK_CHANNEL
  {
    if channel == UserChannel(user) {
      assert channel[..5] == "user." && channel[5..] == user;
    }
    if IsUserChannel(channel) && UserOf(channel) == user {
      assert channel == channel[..5] + channel[5..];
    }
    assert UserChannel(user)[0] == 'u';
  }

  lemma ChannelsDiffer(user: User, other: User)
    requires UserChannel(user) == UserChannel(other)
    ensures user == other
  {
    assert UserChannel(user)[5..] == user && UserChannel(other)[5..] == other;
  }

  datatype Delivery = Delivery(user: User, text: Text)

  /** Where a loop thread is. */
  datatype Doing =
    | Idle
    | WantAdd(user: User)                   // addUserToOnlineUsers waits for the lock
    | Subscribing(user: User, next: nat)    // ... has it and is at instance next, or past the last one
    | WantRemove(user: User)                // removeUserFromOnlineUsers waits for the lock
    | Unsubscribing(user: User, next: nat)
    | Unlocking                             // other loops still have the user online
    | Sending(delivery: Delivery, todo: set<Conn>)   // sendTextMessage
    | WantSearch(keyword: string)           // an online-only onSearchRequest waits for the shared lock
    | Searching(keyword: string, unseen: set<User>, found: set<User>)   // ... has it

  datatype LoopState = LoopState(
    local: map<User, set<Conn>>,    // LocalConnections of the loop's thread
    queue: seq<Delivery>,           // functors queued in the loop
    doing: Doing)

  /** Where onRedisPubSubMessage is in one instance's listener. */
  datatype Callback =
    | Outside
    | Entered                             // waits for the shared lock
    | Queueing(delivery: Delivery, todo: set<Loop>)   // has it
    | Finished

  /** Who holds online_users_mutex_ exclusively; its shared holders are the callbacks that are queueing and the
      loops that are searching. */
  datatype Writer = Nobody | By(loop: Loop)

  datatype State = State(
    redis: seq<PubSub.State>,             // redis_pubsubs_
    callbacks: seq<Callback>,             // of their listeners
    loops: map<Loop, LoopState>,
    online: map<User, set<Loop>>,         // online_users_
    writer: Writer,
    home: map<Conn, Loop>,                // the loop each connection belongs to
    received: map<Conn, seq<Delivery>>)   // what was sent on each connection

  function Initial(instances: nat): State
  {
    State(seq(instances, _ => PubSub.INITIAL), seq(instances, _ => Outside), map[], map[], Nobody, map[], map[])
  }

  datatype Action =
    | ThreadInit(loop: Loop)
    | Connect(loop: Loop, conn: Conn)
    | Login(loop: Loop, conn: Conn, user: User)     // the password was right: LocalConnections is updated
    | Logout(loop: Loop, conn: Conn, user: User)    // of the user the loop over LocalConnections finds first
    | LockExclusive(loop: Loop)
    | Insert(loop: Loop)                            // into online_users_, and unlocks
    | Unlock(loop: Loop)
    | Redis(instance: nat, action: PubSub.Action)   // a step of one instance
    | LockShared(instance: nat)                     // onRedisPubSubMessage, step by step
    | QueueTo(instance: nat, loop: Loop)
    | UnlockShared(instance: nat)
    | Begin(loop: Loop)                             // sendTextMessage, step by step
    | Send(loop: Loop, conn: Conn)
    | End(loop: Loop)
    | Search(loop: Loop, keyword: string)           // onSearchRequest among online users, step by step
    | LockSearch(loop: Loop)
    | Visit(loop: Loop, user: User)
    | UnlockSearch(loop: Loop)

  predicate IsDoing(s: State, l: Loop, doing: Doing)
  {
    l in s.loops && s.loops[l].doing == doing
  }

  function Online(s: State, user: User): set<Loop>
  {
    if user in s.online then s.online[user] else {}
  }

  function Local(s: State, l: Loop, user: User): set<Conn>
    requires l in s.loops
  {
    if user in s.loops[l].local then s.loops[l].local[user] else {}
  }

  /** The lock can be taken exclusively. */
  predicate LockFree(s: State)
  {
    && s.writer.Nobody?
    && (forall i :: 0 <= i < |s.callbacks| ==> !s.callbacks[i].Queueing?)
    && (forall l :: l in s.loops ==> !s.loops[l].doing.Searching?)
  }

  /** The loop's next command on the instance. */
  predicate Calls(doing: Doing, i: nat, command: PubSub.Command)
  {
    match doing
    case Subscribing(user, next) => next == i && command == PubSub.Subscribe(UserChannel(user))
    case Unsubscribing(user, next) => next == i && command == PubSub.Unsubscribe(UserChannel(user))
    case _ => false
  }

  /** Which steps of an instance the server's threads take; the server never calls stop. */
  predicate RedisEnabled(s: State, i: nat, a: PubSub.Action)
  {
    && i < |s.redis| == |s.callbacks| && PubSub.Enabled(s.redis[i], a)
    && match a
       case Enter(l, command) => l in s.loops && Calls(s.loops[l].doing, i, command)
       case Return(l) => l in s.loops && Calls(s.loops[l].doing, i, s.redis[i].calls[l].command)
       case Stop(_) => false
       case CallbackReturns => s.callbacks[i].Finished?
       case _ => true
  }

  predicate SessionEnabled(s: State, a: Action)
  {
    match a
    case ThreadInit(l) => l !in s.loops
    case Connect(l, c) => l in s.loops && c !in s.home
    case Login(l, c, _) => IsDoing(s, l, Idle) && c in s.home && s.home[c] == l
    case Logout(l, c, user) => IsDoing(s, l, Idle) && c in Local(s, l, user)
    case LockExclusive(l) => l in s.loops && (s.loops[l].doing.WantAdd? || s.loops[l].doing.WantRemove?) && LockFree(s)
    case Insert(l) => l in s.loops && s.loops[l].doing.Subscribing? && s.loops[l].doing.next >= |s.redis|
    case Unlock(l) => l in s.loops && (s.loops[l].doing.Unlocking?
                                       || (s.loops[l].doing.Unsubscribing? && s.loops[l].doing.next >= |s.redis|))
    case _ => false
  }

  predicate DeliveryEnabled(s: State, a: Action)
  {
    match a
    case LockShared(i) => i < |s.callbacks| && s.callbacks[i].Entered? && s.writer.Nobody?
                          && i < |s.redis| && s.redis[i].listener.Calling? && IsUserChannel(s.redis[i].listener.channel)
    case QueueTo(i, l) => i < |s.callbacks| && s.callbacks[i].Queueing? && l in s.callbacks[i].todo && l in s.loops
    case UnlockShared(i) => i < |s.callbacks| && s.callbacks[i].Queueing? && s.callbacks[i].todo == {}
    case Begin(l) => IsDoing(s, l, Idle) && s.loops[l].queue != []
    case Send(l, c) => l in s.loops && s.loops[l].doing.Sending? && c in s.loops[l].doing.todo && c in s.received
    case End(l) => l in s.loops && s.loops[l].doing.Sending? && s.loops[l].doing.todo == {}
    case _ => false
  }

  predicate SearchEnabled(s: State, a: Action)
  {
    match a
    case Search(l, _) => IsDoing(s, l, Idle)
    case LockSearch(l) => l in s.loops && s.loops[l].doing.WantSearch? && s.writer.Nobody?
    case Visit(l, user) => l in s.loops && s.loops[l].doing.Searching? && user in s.loops[l].doing.unseen
    case UnlockSearch(l) => l in s.loops && s.loops[l].doing.Searching? && s.loops[l].doing.unseen == {}
    case _ => false
  }

  predicate Enabled(s: State, a: Action)
  {
    if a.Redis? then RedisEnabled(s, a.instance, a.action)
    else SessionEnabled(s, a) || DeliveryEnabled(s, a) || SearchEnabled(s, a)
  }

  function SetDoing(s: State, l: Loop, doing: Doing): State
    requires l in s.loops
  {
    s.(loops := s.loops[l := s.loops[l].(doing := doing)])
  }

  /** removeUserFromOnlineUsers up to its call of unsubscribe. */
  function Removed(s: State, l: Loop, user: User): State
    requires l in s.loops
  {
    var left := Online(s, user) - {l};
    if left == {} then SetDoing(s.(online := s.online - {user}), l, Unsubscribing(user, 0))
    else SetDoing(s.(online := s.online[user := left]), l, Unlocking)
  }

  /** LocalConnections after logout found the connection under the user; an emptied set goes. */
  function LoggedOut(local: map<User, set<Conn>>, c: Conn, user: User): map<User, set<Conn>>
    requires user in local
  {
    if local[user] - {c} == {} then local - {user} else local[user := local[user] - {c}]
  }

  function SessionDo(s: State, a: Action): State
    requires SessionEnabled(s, a)
  {
    match a
    case ThreadInit(l) => s.(loops := s.loops[l := LoopState(map[], [], Idle)])
    case Connect(l, c) => s.(home := s.home[c := l], received := s.received[c := []])
    case Login(l, c, user) =>
      s.(loops := s.loops[l := s.loops[l].(local := s.loops[l].local[user := Local(s, l, user) + {c}],
                                           doing := WantAdd(user))])
    case Logout(l, c, user) =>
      var local := LoggedOut(s.loops[l].local, c, user);
      s.(loops := s.loops[l := s.loops[l].(local := local,
                                           doing := if user in local then Idle else WantRemove(user))])
    case LockExclusive(l) =>
      var t, doing := s.(writer := By(l)), s.loops[l].doing;
      if doing.WantRemove? then Removed(t, l, doing.user)
      else SetDoing(t, l, Subscribing(doing.user, if doing.user in s.online then |s.redis| else 0))
    case Insert(l) =>
      var user := s.loops[l].doing.user;
      SetDoing(s.(online := s.online[user := Online(s, user) + {l}], writer := Nobody), l, Idle)
    case Unlock(l) => SetDoing(s.(writer := Nobody), l, Idle)
  }

  /** A return from subscribe or unsubscribe takes the loop to the next instance; a message dispatched by the
      listener enters the callback. */
  function RedisDo(s: State, i: nat, a: PubSub.Action): State
    requires RedisEnabled(s, i, a)
  {
    var t := s.(redis := s.redis[i := PubSub.Do(s.redis[i], a)]);
    match a
    case Return(l) => SetDoing(t, l, s.loops[l].doing.(next := i + 1))
    case Dispatch => t.(callbacks := s.callbacks[i := if t.redis[i].listener.Calling? then Entered else Outside])
    case CallbackReturns => t.(callbacks := s.callbacks[i := Outside])
    case _ => t
  }

  function DeliveryDo(s: State, a: Action): State
    requires DeliveryEnabled(s, a)
  {
    match a
    case LockShared(i) =>
      var channel, text := s.redis[i].listener.channel, s.redis[i].listener.text;
      s.(callbacks := s.callbacks[i := Queueing(Delivery(UserOf(channel), text), Online(s, UserOf(channel)))])
    case QueueTo(i, l) =>
      s.(callbacks := s.callbacks[i := s.callbacks[i].(todo := s.callbacks[i].todo - {l})],
         loops := s.loops[l := s.loops[l].(queue := s.loops[l].queue + [s.callbacks[i].delivery])])
    case UnlockShared(i) => s.(callbacks := s.callbacks[i := Finished])
    case Begin(l) =>
      var d := s.loops[l].queue[0];
      s.(loops := s.loops[l := s.loops[l].(queue := s.loops[l].queue[1..], doing := Sending(d, Local(s, l, d.user)))])
    case Send(l, c) =>
      var doing := s.loops[l].doing;
      SetDoing(s.(received := s.received[c := s.received[c] + [doing.delivery]]), l, doing.(todo := doing.todo - {c}))
    case End(l) => SetDoing(s, l, Idle)
  }

  /** What the loop does after its step of a search. */
  function SearchNext(s: State, a: Action): Doing
    requires SearchEnabled(s, a)
  {
    match a
    case Search(_, keyword) => WantSearch(keyword)
    case LockSearch(l) => Searching(s.loops[l].doing.keyword, s.online.Keys, {})
    case Visit(l, user) =>
      var doing := s.loops[l].doing;
      doing.(unseen := doing.unseen - {user},
             found := doing.found + if Contains(user, doing.keyword) then {user} else {})
    case UnlockSearch(_) => Idle
  }

  function SearchDo(s: State, a: Action): State
    requires SearchEnabled(s, a)
  {
    SetDoing(s, a.loop, SearchNext(s, a))
  }

  function Do(s: State, a: Action): State
    requires Enabled(s, a)
  {
    if a.Redis? then RedisDo(s, a.instance, a.action)
    else if SessionEnabled(s, a) then SessionDo(s, a)
    else if DeliveryEnabled(s, a) then DeliveryDo(s, a)
    else SearchDo(s, a)
  }

  function Next(s: State, a: Action): State
  {
    if Enabled(s, a) then Do(s, a) else s
  }

  /** Every interleaving is a sequence of actions; one that is not enabled when its turn comes has no effect. */
  function Exec(s: State, run: seq<Action>): State
    decreases |run|
  {
    if run == [] then s else Next(Exec(s, run[..|run| - 1]), run[|run| - 1])
  }

  /** The actions of the run are all enabled when their turn comes. */
  predicate Possible(s: State, run: seq<Action>)
    decreases |run|
  {
    run == [] || (Possible(s, run[..|run| - 1]) && Enabled(Exec(s, run[..|run| - 1]), run[|run| - 1]))
  }

  // ----------------------------------------------------------------------- invariant

  /** The session index agrees with the loop's own connections, but for the user the loop is working on. */
  ghost predicate Agree(s: State, l: Loop, user: User)
    requires l in s.loops
  {
    var here, there := user in s.loops[l].local, l in Online(s, user);
    match s.loops[l].doing
    case WantAdd(u) => if u == user then here else here == there
    case Subscribing(u, _) => if u == user then here else here == there
    case WantRemove(u) => if u == user then !here && there else here == there
    case _ => here == there
  }

  ghost predicate OnlineOk(s: State, user: User)
    requires user in s.online
  {
    s.online[user] != {} && s.online[user] <= s.loops.Keys
  }

  ghost predicate LocalOk(s: State, l: Loop, user: User)
    requires l in s.loops && user in s.loops[l].local
  {
    && s.loops[l].local[user] != {}
    && forall c :: c in s.loops[l].local[user] ==> c in s.home && s.home[c] == l && c in s.received
  }

  ghost predicate SendingOk(s: State, l: Loop)
    requires l in s.loops
  {
    s.loops[l].doing.Sending? ==> s.loops[l].doing.todo <= Local(s, l, s.loops[l].doing.delivery.user)
  }

  /** A search has found exactly the matching users among those it has seen, and nobody can come or go. */
  ghost predicate SearchOk(s: State, l: Loop)
    requires l in s.loops
  {
    var doing := s.loops[l].doing;
    doing.Searching? ==>
      && s.writer.Nobody? && doing.unseen <= s.online.Keys
      && forall user :: user in doing.found <==>
           user in s.online && user !in doing.unseen && Contains(user, doing.keyword)
  }

  ghost predicate HoldsLock(doing: Doing)
  {
    doing.Subscribing? || doing.Unsubscribing? || doing.Unlocking?
  }

  ghost predicate WriterOk(s: State, l: Loop)
    requires l in s.loops
  {
    && (HoldsLock(s.loops[l].doing) <==> s.writer == By(l))
    && match s.loops[l].doing
       case Subscribing(user, next) => next <= |s.redis| && (user in s.online ==> next == |s.redis|)
       case Unsubscribing(user, next) => next <= |s.redis| && user !in s.online
       case _ => true
  }

  ghost predicate CallOk(s: State, i: nat, t: Loop)
    requires i < |s.redis| && t in s.redis[i].calls
  {
    t in s.loops && Calls(s.loops[t].doing, i, s.redis[i].calls[t].command)
  }

  predicate Written(s: State, i: nat, l: Loop)
    requires i < |s.redis|
  {
    l in s.redis[i].calls && s.redis[i].calls[l].Leaving?
  }

  /** The user is not in the session index, but the lock's holder has yet to bring this instance in line. */
  ghost predicate InTransit(s: State, i: nat, user: User)
    requires i < |s.redis|
  {
    && s.writer.By? && s.writer.loop in s.loops
    && var l := s.writer.loop;
       match s.loops[l].doing
       case Subscribing(u, next) => u == user && (i < next || (i == next && Written(s, i, l)))
       case Unsubscribing(u, next) => u == user && !(i < next || (i == next && Written(s, i, l)))
       case _ => false
  }

  ghost predicate SubscriptionOk(s: State, i: nat, user: User)
    requires i < |s.redis|
  {
    UserChannel(user) in PubSub.Requested(s.redis[i]) <==> user in s.online || InTransit(s, i, user)
  }

  ghost predicate ChannelOk(channel: PubSub.Channel)
  {
    channel == PubSub.UNLOCK_CHANNEL || IsUserChannel(channel)
  }

  ghost predicate InstanceOk(r: PubSub.State)
  {
    && PubSub.Inv(r) && !r.stop
    && (forall t {:trigger r.calls[t]} :: t in r.calls ==> IsUserChannel(r.calls[t].command.channel))
    && (forall c :: c in r.subscriptions ==> ChannelOk(c))
    && (forall k :: 0 <= k < |r.commands| ==> ChannelOk(r.commands[k].channel))
    && (forall k :: 0 <= k < |r.replies| ==> ChannelOk(r.replies[k].channel))
    && (r.listener.Handling? ==> ChannelOk(r.listener.reply.channel))
    && (r.listener.Calling? ==> IsUserChannel(r.listener.channel))
  }

  ghost predicate CallbackOk(s: State, i: nat)
    requires i < |s.redis| == |s.callbacks|
  {
    && (s.redis[i].listener.Calling? <==> !s.callbacks[i].Outside?)
    && (s.callbacks[i].Queueing? ==> s.writer.Nobody? && s.callbacks[i].todo <= s.loops.Keys)
  }

  ghost predicate SessionsInv(s: State)
  {
    && s.home.Keys == s.received.Keys
    && (s.writer.By? ==> s.writer.loop in s.loops)
    && (forall l, user {:trigger Agree(s, l, user)} :: l in s.loops ==> Agree(s, l, user))
    && (forall user {:trigger OnlineOk(s, user)} :: user in s.online ==> OnlineOk(s, user))
    && (forall l, user {:trigger LocalOk(s, l, user)} :: l in s.loops && user in s.loops[l].local ==> LocalOk(s, l, user))
  }

  ghost predicate LocksInv(s: State)
  {
    && |s.callbacks| == |s.redis|
    && (forall l {:trigger SendingOk(s, l)} :: l in s.loops ==> SendingOk(s, l))
    && (forall l {:trigger SearchOk(s, l)} :: l in s.loops ==> SearchOk(s, l))
    && (forall l {:trigger WriterOk(s, l)} :: l in s.loops ==> WriterOk(s, l))
    && (forall i, t {:trigger CallOk(s, i, t)} :: 0 <= i < |s.redis| && t in s.redis[i].calls ==> CallOk(s, i, t))
    && (forall i, user {:trigger SubscriptionOk(s, i, user)} :: 0 <= i < |s.redis| ==> SubscriptionOk(s, i, user))
    && (forall i {:trigger InstanceOk(s.redis[i])} :: 0 <= i < |s.redis| ==> InstanceOk(s.redis[i]))
    && (forall i {:trigger CallbackOk(s, i)} :: 0 <= i < |s.redis| ==> CallbackOk(s, i))
  }

  ghost predicate Inv(s: State)
  {
    SessionsInv(s) && LocksInv(s)
  }

  // ------------------------------------------------- the session index: only session steps matter

  ghost predicate Passive(doing: Doing)
  {
    doing.Idle? || doing.Sending? || doing.WantSearch? || doing.Searching?
  }

  ghost predicate SameRole(d: Doing, e: Doing)
  {
    || d == e
    || (d.Subscribing? && e.Subscribing? && d.user == e.user)
    || (d.Unsubscribing? && e.Unsubscribing? && d.user == e.user)
    || (Passive(d) && Passive(e))
  }

  ghost predicate SameLoop(a: LoopState, b: LoopState)
  {
    a.local == b.local && SameRole(a.doing, b.doing)
  }

  /** Nothing about sessions has changed. */
  ghost predicate SameSessions(s: State, t: State)
  {
    && t.online == s.online && t.writer == s.writer && t.home == s.home && t.received.Keys == s.received.Keys
    && t.loops.Keys == s.loops.Keys
    && forall l {:trigger SameLoop(s.loops[l], t.loops[l])} {:trigger t.loops[l]} ::
         l in t.loops ==> SameLoop(s.loops[l], t.loops[l])
  }

  lemma RedisKeepsSessions(s: State, i: nat, a: PubSub.Action)
    requires RedisEnabled(s, i, a)
    ensures SameSessions(s, RedisDo(s, i, a))
    ensures |RedisDo(s, i, a).redis| == |s.redis| && RedisDo(s, i, a).received == s.received
  {
  }

  lemma DeliveryKeepsSessions(s: State, a: Action)
    requires DeliveryEnabled(s, a)
    ensures SameSessions(s, DeliveryDo(s, a))
    ensures DeliveryDo(s, a).redis == s.redis && (a.Send? || DeliveryDo(s, a).received == s.received)
  {
  }

  lemma SessionKeepsPipeline(s: State, a: Action)
    requires SessionEnabled(s, a)
    ensures var t := SessionDo(s, a);
            && t.redis == s.redis && t.callbacks == s.callbacks
            && t.received == if a.Connect? then s.received[a.conn := []] else s.received
  {
  }

  lemma SearchKeepsSessions(s: State, a: Action)
    requires SearchEnabled(s, a)
    ensures SameSessions(s, SearchDo(s, a))
  {
  }

  lemma SameSessionsKeepInv(s: State, t: State)
    requires SessionsInv(s) && SameSessions(s, t)
    ensures SessionsInv(t)
  {
    forall l, user | l in t.loops
      ensures Agree(t, l, user)
    {
      assert Agree(s, l, user) && SameLoop(s.loops[l], t.loops[l]);
    }
    forall user | user in t.online
      ensures OnlineOk(t, user)
    {
      assert OnlineOk(s, user);
    }
    forall l, user | l in t.loops && user in t.loops[l].local
      ensures LocalOk(t, l, user)
    {
      assert SameLoop(s.loops[l], t.loops[l]) && LocalOk(s, l, user);
    }
  }

  lemma OthersUnchanged(s: State, a: Action, l: Loop, user: User)
    requires SessionEnabled(s, a) && l in s.loops && l != a.loop
    ensures var t := SessionDo(s, a);
            l in t.loops && t.loops[l] == s.loops[l] && (l in Online(t, user) <==> l in Online(s, user))
  {
  }

  lemma AgreeStays(s: State, a: Action, l: Loop, user: User)
    requires SessionEnabled(s, a) && l in s.loops && Agree(s, l, user)
    ensures Agree(SessionDo(s, a), l, user)
  {
    if l != a.loop {
      OthersUnchanged(s, a, l, user);
    }
  }

  lemma AgreeStarts(s: State, l: Loop, user: User)
    requires l !in s.loops && (user in s.online ==> OnlineOk(s, user))
    ensures Agree(SessionDo(s, ThreadInit(l)), l, user)
  {
  }

  lemma OnlineStaysOk(s: State, a: Action, user: User)
    requires SessionEnabled(s, a) && user in SessionDo(s, a).online && (user in s.online ==> OnlineOk(s, user))
    ensures OnlineOk(SessionDo(s, a), user)
  {
  }

  lemma LocalStaysOk(s: State, a: Action, l: Loop, user: User)
    requires SessionEnabled(s, a) && l in SessionDo(s, a).loops && user in SessionDo(s, a).loops[l].local
    requires l in s.loops && user in s.loops[l].local ==> LocalOk(s, l, user)
    requires s.home.Keys <= s.received.Keys
    ensures LocalOk(SessionDo(s, a), l, user)
  {
  }

  // ------------------------------------------- the lock and its holder's calls into the instances

  lemma WriterAfterSession(s: State, a: Action, l: Loop)
    requires SessionEnabled(s, a) && l in SessionDo(s, a).loops && (l in s.loops ==> WriterOk(s, l))
    requires a.loop in s.loops ==> WriterOk(s, a.loop)
    requires s.writer.By? ==> s.writer.loop in s.loops
    ensures WriterOk(SessionDo(s, a), l)
  {
  }

  lemma WriterAfterRedis(s: State, i: nat, a: PubSub.Action, l: Loop)
    requires RedisEnabled(s, i, a) && l in s.loops && WriterOk(s, l)
    ensures WriterOk(RedisDo(s, i, a), l)
  {
  }

  lemma WriterAfterDelivery(s: State, a: Action, l: Loop)
    requires DeliveryEnabled(s, a) && l in s.loops && WriterOk(s, l)
    ensures WriterOk(DeliveryDo(s, a), l)
  {
  }

  lemma CallAfterSession(s: State, a: Action, i: nat, t: Loop)
    requires SessionEnabled(s, a) && i < |s.redis| && t in s.redis[i].calls && CallOk(s, i, t)
    ensures CallOk(SessionDo(s, a), i, t)
  {
  }

  lemma CallAfterRedis(s: State, j: nat, a: PubSub.Action, i: nat, t: Loop)
    requires RedisEnabled(s, j, a) && i < |s.redis| && t in RedisDo(s, j, a).redis[i].calls
    requires t in s.redis[i].calls ==> CallOk(s, i, t)
    ensures CallOk(RedisDo(s, j, a), i, t)
  {
  }

  lemma CallAfterDelivery(s: State, a: Action, i: nat, t: Loop)
    requires DeliveryEnabled(s, a) && i < |s.redis| && t in s.redis[i].calls && CallOk(s, i, t)
    ensures CallOk(DeliveryDo(s, a), i, t)
  {
  }

  lemma SubscriptionAfterSession(s: State, a: Action, i: nat, user: User)
    requires SessionEnabled(s, a) && i < |s.redis| && SubscriptionOk(s, i, user)
    requires a.loop in s.loops ==> WriterOk(s, a.loop) && Agree(s, a.loop, user)
    requires a.loop in s.redis[i].calls ==> CallOk(s, i, a.loop)
    requires s.writer.By? ==> s.writer.loop in s.loops
    ensures SubscriptionOk(SessionDo(s, a), i, user)
  {
  }

  lemma OtherSubscriptionAfterRedis(s: State, j: nat, a: PubSub.Action, i: nat, user: User)
    requires RedisEnabled(s, j, a) && i < |s.redis| && i != j && SubscriptionOk(s, i, user)
    requires s.writer.By? && s.writer.loop in s.redis[i].calls ==> CallOk(s, i, s.writer.loop)
    ensures SubscriptionOk(RedisDo(s, j, a), i, user)
  {
  }

  lemma SubscriptionAfterWrite(s: State, i: nat, l: Loop, user: User)
    requires RedisEnabled(s, i, PubSub.Write(l)) && SubscriptionOk(s, i, user)
    requires CallOk(s, i, l) && WriterOk(s, l)
    ensures SubscriptionOk(RedisDo(s, i, PubSub.Write(l)), i, user)
  {
    PubSub.RequestedStep(s.redis[i], PubSub.Write(l));
    var u := s.loops[l].doing.user;
    if UserChannel(u) == UserChannel(user) {
      ChannelsDiffer(u, user);
    }
  }

  lemma SubscriptionAfterRedis(s: State, j: nat, a: PubSub.Action, i: nat, user: User)
    requires RedisEnabled(s, j, a) && i < |s.redis| && SubscriptionOk(s, i, user)
    requires s.writer.By? && s.writer.loop in s.redis[i].calls ==> CallOk(s, i, s.writer.loop)
    requires a.Write? ==> CallOk(s, j, a.thread) && WriterOk(s, a.thread)
    ensures SubscriptionOk(RedisDo(s, j, a), i, user)
  {
    if i != j {
      OtherSubscriptionAfterRedis(s, j, a, i, user);
    } else if a.Write? {
      SubscriptionAfterWrite(s, i, a.thread, user);
    } else {
      PubSub.RequestedStep(s.redis[j], a);
    }
  }

  lemma SubscriptionAfterDelivery(s: State, a: Action, i: nat, user: User)
    requires DeliveryEnabled(s, a) && i < |s.redis| && SubscriptionOk(s, i, user)
    ensures SubscriptionOk(DeliveryDo(s, a), i, user)
  {
  }

  lemma InstanceStaysOk(r: PubSub.State, a: PubSub.Action)
    requires InstanceOk(r) && PubSub.Enabled(r, a) && !a.Stop?
    requires a.Enter? ==> IsUserChannel(a.command.channel)
    ensures InstanceOk(PubSub.Do(r, a))
  {
    PubSub.StepKeepsInv(r, a);
  }

  lemma CallbackAfterSession(s: State, a: Action, i: nat)
    requires SessionEnabled(s, a) && i < |s.redis| == |s.callbacks| && CallbackOk(s, i)
    ensures CallbackOk(SessionDo(s, a), i)
  {
  }

  lemma CallbackAfterRedis(s: State, j: nat, a: PubSub.Action, i: nat)
    requires RedisEnabled(s, j, a) && i < |s.redis| == |s.callbacks| && CallbackOk(s, i)
    ensures CallbackOk(RedisDo(s, j, a), i)
  {
  }

  lemma CallbackAfterDelivery(s: State, a: Action, i: nat)
    requires DeliveryEnabled(s, a) && i < |s.redis| == |s.callbacks| && CallbackOk(s, i)
    requires forall user {:trigger s.online[user]} :: user in s.online ==> OnlineOk(s, user)
    ensures CallbackOk(DeliveryDo(s, a), i)
  {
  }

  lemma SendingAfterSession(s: State, a: Action, l: Loop)
    requires SessionEnabled(s, a) && l in s.loops && SendingOk(s, l)
    ensures SendingOk(SessionDo(s, a), l)
  {
  }

  lemma SendingAfterRedis(s: State, i: nat, a: PubSub.Action, l: Loop)
    requires RedisEnabled(s, i, a) && l in s.loops && SendingOk(s, l)
    ensures SendingOk(RedisDo(s, i, a), l)
  {
  }

  lemma SendingAfterDelivery(s: State, a: Action, l: Loop)
    requires DeliveryEnabled(s, a) && l in s.loops && SendingOk(s, l)
    ensures SendingOk(DeliveryDo(s, a), l)
  {
  }

  lemma SearchAfterSession(s: State, a: Action, l: Loop)
    requires SessionEnabled(s, a) && l in s.loops && SearchOk(s, l)
    requires a.loop in s.loops ==> WriterOk(s, a.loop)
    ensures SearchOk(SessionDo(s, a), l)
  {
  }

  lemma SearchAfterRedis(s: State, i: nat, a: PubSub.Action, l: Loop)
    requires RedisEnabled(s, i, a) && l in s.loops && SearchOk(s, l)
    ensures SearchOk(RedisDo(s, i, a), l)
  {
  }

  lemma SearchAfterDelivery(s: State, a: Action, l: Loop)
    requires DeliveryEnabled(s, a) && l in s.loops && SearchOk(s, l)
    ensures SearchOk(DeliveryDo(s, a), l)
  {
  }

  lemma SearchAfterSearch(s: State, a: Action, l: Loop)
    requires SearchEnabled(s, a) && l in s.loops && SearchOk(s, l)
    ensures SearchOk(SearchDo(s, a), l)
  {
  }

  // --------------------------------------------------------------------- every reachable state

  lemma SessionStep(s: State, a: Action)
    requires Inv(s) && SessionEnabled(s, a)
    ensures SessionsInv(SessionDo(s, a))
  {
    var t := SessionDo(s, a);
    forall l, user | l in t.loops
      ensures Agree(t, l, user)
    {
      if l in s.loops {
        assert Agree(s, l, user);
        AgreeStays(s, a, l, user);
      } else {
        assert user in s.online ==> OnlineOk(s, user);
        AgreeStarts(s, l, user);
      }
    }
    forall user | user in t.online
      ensures OnlineOk(t, user)
    {
      assert user in s.online ==> OnlineOk(s, user);
      OnlineStaysOk(s, a, user);
    }
    forall l, user | l in t.loops && user in t.loops[l].local
      ensures LocalOk(t, l, user)
    {
      assert l in s.loops && user in s.loops[l].local ==> LocalOk(s, l, user);
      LocalStaysOk(s, a, l, user);
    }
  }

  lemma LocksAfterSession(s: State, a: Action)
    requires Inv(s) && SessionEnabled(s, a)
    ensures LocksInv(SessionDo(s, a))
  {
    var t := SessionDo(s, a);
    assert a.loop in s.loops ==> WriterOk(s, a.loop);
    forall l | l in t.loops
      ensures WriterOk(t, l) && SendingOk(t, l) && SearchOk(t, l)
    {
      assert l in s.loops ==> WriterOk(s, l) && SendingOk(s, l) && SearchOk(s, l);
      WriterAfterSession(s, a, l);
      if l in s.loops {
        SendingAfterSession(s, a, l);
        SearchAfterSession(s, a, l);
      }
    }
    forall i, u | 0 <= i < |t.redis| && u in t.redis[i].calls
      ensures CallOk(t, i, u)
    {
      assert CallOk(s, i, u);
      CallAfterSession(s, a, i, u);
    }
    forall i, user | 0 <= i < |t.redis|
      ensures SubscriptionOk(t, i, user)
    {
      assert SubscriptionOk(s, i, user) && (a.loop in s.loops ==> Agree(s, a.loop, user));
      assert a.loop in s.redis[i].calls ==> CallOk(s, i, a.loop);
      SubscriptionAfterSession(s, a, i, user);
    }
    forall i | 0 <= i < |t.redis|
      ensures InstanceOk(t.redis[i]) && CallbackOk(t, i)
    {
      assert InstanceOk(s.redis[i]) && CallbackOk(s, i);
      CallbackAfterSession(s, a, i);
    }
  }

  lemma LocksAfterRedis(s: State, j: nat, a: PubSub.Action)
    requires Inv(s) && RedisEnabled(s, j, a)
    ensures LocksInv(RedisDo(s, j, a))
  {
    var t := RedisDo(s, j, a);
    forall l | l in t.loops
      ensures WriterOk(t, l) && SendingOk(t, l) && SearchOk(t, l)
    {
      assert WriterOk(s, l) && SendingOk(s, l) && SearchOk(s, l);
      WriterAfterRedis(s, j, a, l);
      SendingAfterRedis(s, j, a, l);
      SearchAfterRedis(s, j, a, l);
    }
    forall i, u | 0 <= i < |t.redis| && u in t.redis[i].calls
      ensures CallOk(t, i, u)
    {
      assert u in s.redis[i].calls ==> CallOk(s, i, u);
      CallAfterRedis(s, j, a, i, u);
    }
    if a.Write? {
      assert CallOk(s, j, a.thread) && WriterOk(s, a.thread);
    }
    forall i, user | 0 <= i < |t.redis|
      ensures SubscriptionOk(t, i, user)
    {
      assert SubscriptionOk(s, i, user);
      assert s.writer.By? && s.writer.loop in s.redis[i].calls ==> CallOk(s, i, s.writer.loop);
      SubscriptionAfterRedis(s, j, a, i, user);
    }
    InstancesAfterRedis(s, j, a);
  }

  lemma InstancesAfterRedis(s: State, j: nat, a: PubSub.Action)
    requires Inv(s) && RedisEnabled(s, j, a)
    ensures var t := RedisDo(s, j, a);
            forall i {:trigger t.redis[i]} :: 0 <= i < |t.redis| ==> InstanceOk(t.redis[i]) && CallbackOk(t, i)
  {
    var t := RedisDo(s, j, a);
    assert InstanceOk(s.redis[j]);
    if a.Enter? {
      ChannelOfUser(s.loops[a.thread].doing.user, a.command.channel);
    }
    InstanceStaysOk(s.redis[j], a);
    forall i | 0 <= i < |t.redis|
      ensures InstanceOk(t.redis[i]) && CallbackOk(t, i)
    {
      assert InstanceOk(s.redis[i]) && CallbackOk(s, i);
      CallbackAfterRedis(s, j, a, i);
    }
  }

  lemma LocksAfterDelivery(s: State, a: Action)
    requires Inv(s) && DeliveryEnabled(s, a)
    ensures LocksInv(DeliveryDo(s, a))
  {
    var t := DeliveryDo(s, a);
    forall l | l in t.loops
      ensures WriterOk(t, l) && SendingOk(t, l) && SearchOk(t, l)
    {
      assert WriterOk(s, l) && SendingOk(s, l) && SearchOk(s, l);
      WriterAfterDelivery(s, a, l);
      SendingAfterDelivery(s, a, l);
      SearchAfterDelivery(s, a, l);
    }
    forall i, u | 0 <= i < |t.redis| && u in t.redis[i].calls
      ensures CallOk(t, i, u)
    {
      assert CallOk(s, i, u);
      CallAfterDelivery(s, a, i, u);
    }
    forall i, user | 0 <= i < |t.redis|
      ensures SubscriptionOk(t, i, user)
    {
      assert SubscriptionOk(s, i, user);
      SubscriptionAfterDelivery(s, a, i, user);
    }
    forall i | 0 <= i < |t.redis|
      ensures InstanceOk(t.redis[i]) && CallbackOk(t, i)
    {
      assert InstanceOk(s.redis[i]) && CallbackOk(s, i);
      forall user | user in s.online
        ensures OnlineOk(s, user)
      {
      }
      CallbackAfterDelivery(s, a, i);
    }
  }

  /** A step from one passive state to another concerns neither the lock's holder nor its calls. */
  lemma PassiveCall(s: State, l: Loop, doing: Doing, i: nat, u: Loop)
    requires l in s.loops && Passive(s.loops[l].doing) && i < |s.redis|
    requires u in s.redis[i].calls && CallOk(s, i, u)
    ensures CallOk(SetDoing(s, l, doing), i, u)
  {
  }

  lemma PassiveSubscription(s: State, l: Loop, doing: Doing, i: nat, user: User)
    requires l in s.loops && Passive(s.loops[l].doing) && Passive(doing) && i < |s.redis|
    requires SubscriptionOk(s, i, user)
    ensures SubscriptionOk(SetDoing(s, l, doing), i, user)
  {
  }

  lemma LocksAfterSearch(s: State, a: Action)
    requires Inv(s) && SearchEnabled(s, a)
    ensures LocksInv(SearchDo(s, a))
  {
    var t := SearchDo(s, a);
    forall l | l in t.loops
      ensures WriterOk(t, l) && SendingOk(t, l) && SearchOk(t, l)
    {
      assert WriterOk(s, l) && SendingOk(s, l) && SearchOk(s, l);
      SearchAfterSearch(s, a, l);
    }
    forall i, u | 0 <= i < |t.redis| && u in t.redis[i].calls
      ensures CallOk(t, i, u)
    {
      assert CallOk(s, i, u);
      PassiveCall(s, a.loop, SearchNext(s, a), i, u);
    }
    forall i, user | 0 <= i < |t.redis|
      ensures SubscriptionOk(t, i, user)
    {
      assert SubscriptionOk(s, i, user);
      PassiveSubscription(s, a.loop, SearchNext(s, a), i, user);
    }
    forall i | 0 <= i < |t.redis|
      ensures InstanceOk(t.redis[i]) && CallbackOk(t, i)
    {
      assert InstanceOk(s.redis[i]) && CallbackOk(s, i);
    }
  }

  lemma StepKeepsInv(s: State, a: Action)
    requires Inv(s) && Enabled(s, a)
    ensures Inv(Do(s, a))
  {
    if a.Redis? {
      RedisKeepsSessions(s, a.instance, a.action);
      SameSessionsKeepInv(s, Do(s, a));
      LocksAfterRedis(s, a.instance, a.action);
    } else if SessionEnabled(s, a) {
      SessionStep(s, a);
      LocksAfterSession(s, a);
    } else if DeliveryEnabled(s, a) {
      DeliveryKeepsSessions(s, a);
      SameSessionsKeepInv(s, Do(s, a));
      LocksAfterDelivery(s, a);
    } else {
      SearchKeepsSessions(s, a);
      SameSessionsKeepInv(s, Do(s, a));
      LocksAfterSearch(s, a);
    }
  }

  lemma InitialInv(instances: nat)
    ensures Inv(Initial(instances))
  {
    var s := Initial(instances);
    PubSub.InitialInv();
    forall i, user | 0 <= i < instances
      ensures SubscriptionOk(s, i, user)
    {
      ChannelOfUser(user, PubSub.UNLOCK_CHANNEL);
    }
  }

  lemma {:induction false} RunKeepsInv(s: State, run: seq<Action>)
    requires Inv(s)
    ensures Inv(Exec(s, run))
    decreases |run|
  {
    if run != [] {
      var front := Exec(s, run[..|run| - 1]);
      RunKeepsInv(s, run[..|run| - 1]);
      if Enabled(front, run[|run| - 1]) {
        StepKeepsInv(front, run[|run| - 1]);
      }
    }
  }
}
