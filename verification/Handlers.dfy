/** The handlers of the distributed server as they are written. Login, logout and search run with whatever the other
    threads do between any two of their steps and while they wait, the listener's callback with whatever they do until
    it gets the lock. Each is shown to take exactly its own steps of the state machine, in between those of the
    others. */
module Handlers {
  import PubSub
  import opened Strings
  import opened ChatServer
  import opened Progress
  import opened Tracing
  import Sessions

  // ---------------------------------------------------------------------- the other threads

  /** A step that the thread of loop l does not take. */
  predicate ByOthers(l: Loop, a: Action)
  {
    match a
    case Redis(_, Enter(t, _)) => t != l
    case Redis(_, GiveUp(t)) => t != l
    case Redis(_, Lock(t)) => t != l
    case Redis(_, Write(t)) => t != l
    case Redis(_, Return(t)) => t != l
    case Redis(_, _) => true
    case LockShared(_) => true
    case QueueTo(_, _) => true
    case UnlockShared(_) => true
    case _ => a.loop != l
  }

  predicate AllByOthers(l: Loop, others: seq<Action>)
  {
    forall k :: 0 <= k < |others| ==> ByOthers(l, others[k])
  }

  lemma OthersStep(s: State, a: Action, l: Loop)
    requires ByOthers(l, a) && l in s.loops
    ensures var t := Next(s, a);
            l in t.loops && t.loops[l].local == s.loops[l].local && t.loops[l].doing == s.loops[l].doing
  {
    if Enabled(s, a) {
      if a.Redis? {
        assert RedisDo(s, a.instance, a.action).loops[l] == s.loops[l];
      } else if SessionEnabled(s, a) {
        OthersUnchanged(s, a, l, "");
      } else if DeliveryEnabled(s, a) {
        assert DeliveryDo(s, a).loops[l].local == s.loops[l].local;
      }
    }
  }

  /** Whatever the others do, a loop's own connections and its place in its handler stay. */
  lemma {:induction false} OthersKeep(s: State, others: seq<Action>, l: Loop)
    requires AllByOthers(l, others) && l in s.loops
    ensures var t := Exec(s, others);
            l in t.loops && t.loops[l].local == s.loops[l].local && t.loops[l].doing == s.loops[l].doing
    decreases |others|
  {
    if others != [] {
      OthersKeep(s, others[..|others| - 1], l);
      OthersStep(Exec(s, others[..|others| - 1]), others[|others| - 1], l);
    }
  }

  // ------------------------------------------------ what others cannot change while l holds the lock

  /** As far as l's calls go, the instance has not changed. */
  ghost predicate SameCall(r: PubSub.State, q: PubSub.State, l: Loop)
  {
    && PubSub.Requested(q) == PubSub.Requested(r)
    && (l in q.calls <==> l in r.calls) && (l in r.calls ==> q.calls[l] == r.calls[l])
  }

  ghost predicate Held(s: State, t: State, l: Loop)
  {
    && t.writer == s.writer && t.online == s.online && |t.redis| == |s.redis|
    && l in s.loops && l in t.loops && t.loops[l].local == s.loops[l].local && t.loops[l].doing == s.loops[l].doing
    && forall k {:trigger t.redis[k]} {:trigger s.redis[k]} :: 0 <= k < |s.redis| ==> SameCall(s.redis[k], t.redis[k], l)
  }

  /** The lock, the index, and what is requested of the instances are as they were, and so is l's place. */
  ghost predicate Kept(s: State, t: State, l: Loop)
  {
    && t.writer == s.writer && t.online == s.online && |t.redis| == |s.redis|
    && l in s.loops && l in t.loops && t.loops[l].local == s.loops[l].local && t.loops[l].doing == s.loops[l].doing
    && forall k {:trigger t.redis[k]} {:trigger s.redis[k]} :: 0 <= k < |s.redis| ==>
         PubSub.Requested(t.redis[k]) == PubSub.Requested(s.redis[k])
  }

  lemma HeldIsKept(s: State, t: State, l: Loop)
    requires Held(s, t, l)
    ensures Kept(s, t, l)
  {
    forall k | 0 <= k < |s.redis|
      ensures PubSub.Requested(t.redis[k]) == PubSub.Requested(s.redis[k])
    {
      assert SameCall(s.redis[k], t.redis[k], l);
    }
  }

  /** l's own steps on its way to the mutex. */
  lemma KeptAfterStep(s: State, i: nat, a: PubSub.Action, l: Loop)
    requires RedisEnabled(s, i, a) && l in s.loops && (a.Enter? || a.GiveUp? || a.Lock?)
    ensures Kept(s, RedisDo(s, i, a), l)
  {
    PubSub.RequestedStep(s.redis[i], a);
  }

  /** The same, but the command has been written to instance i. */
  ghost predicate Asked(s: State, t: State, l: Loop, i: nat, command: PubSub.Command)
  {
    && t.writer == s.writer && t.online == s.online && |t.redis| == |s.redis|
    && l in s.loops && l in t.loops && t.loops[l].local == s.loops[l].local
    && forall k {:trigger t.redis[k]} {:trigger s.redis[k]} :: 0 <= k < |s.redis| ==>
         PubSub.Requested(t.redis[k])
         == if k == i then PubSub.Applied(PubSub.Requested(s.redis[k]), command) else PubSub.Requested(s.redis[k])
  }

  lemma AskedThenKept(s: State, t: State, u: State, l: Loop, i: nat, command: PubSub.Command)
    requires Asked(s, t, l, i, command) && Kept(t, u, l)
    ensures Asked(s, u, l, i, command)
  {
    forall k | 0 <= k < |s.redis|
      ensures PubSub.Requested(u.redis[k])
           == if k == i then PubSub.Applied(PubSub.Requested(s.redis[k]), command) else PubSub.Requested(s.redis[k])
    {
      assert PubSub.Requested(u.redis[k]) == PubSub.Requested(t.redis[k]);
    }
  }

  lemma KeptThenAsked(s: State, t: State, u: State, l: Loop, i: nat, command: PubSub.Command)
    requires Kept(s, t, l) && Asked(t, u, l, i, command)
    ensures Asked(s, u, l, i, command)
  {
    forall k | 0 <= k < |s.redis|
      ensures PubSub.Requested(u.redis[k])
           == if k == i then PubSub.Applied(PubSub.Requested(s.redis[k]), command) else PubSub.Requested(s.redis[k])
    {
      assert PubSub.Requested(t.redis[k]) == PubSub.Requested(s.redis[k]);
    }
  }

  lemma AskedAfterWrite(s: State, i: nat, l: Loop, command: PubSub.Command)
    requires RedisEnabled(s, i, PubSub.Write(l)) && l in s.loops && s.redis[i].calls[l].command == command
    ensures Asked(s, RedisDo(s, i, PubSub.Write(l)), l, i, command)
  {
    PubSub.RequestedStep(s.redis[i], PubSub.Write(l));
  }

  lemma RequestedAfterReturn(s: State, i: nat, l: Loop)
    requires RedisEnabled(s, i, PubSub.Return(l))
    ensures forall k {:trigger s.redis[k]} :: 0 <= k < |s.redis| ==>
              PubSub.Requested(RedisDo(s, i, PubSub.Return(l)).redis[k]) == PubSub.Requested(s.redis[k])
  {
    PubSub.RequestedStep(s.redis[i], PubSub.Return(l));
  }

  /** l is inside no call. */
  ghost predicate NotInside(s: State, l: Loop)
  {
    forall k {:trigger s.redis[k]} :: 0 <= k < |s.redis| ==> l !in s.redis[k].calls
  }

  lemma OutsideAfterReturn(s: State, i: nat, l: Loop)
    requires Inv(s) && RedisEnabled(s, i, PubSub.Return(l))
    ensures NotInside(RedisDo(s, i, PubSub.Return(l)), l)
  {
    forall k | 0 <= k < |s.redis|
      ensures l !in RedisDo(s, i, PubSub.Return(l)).redis[k].calls
    {
      assert CallOk(s, i, l) && (l in s.redis[k].calls ==> CallOk(s, k, l));
    }
  }

  lemma OutsideWhenWaiting(s: State, l: Loop)
    requires Inv(s) && l in s.loops && !s.loops[l].doing.Subscribing? && !s.loops[l].doing.Unsubscribing?
    ensures NotInside(s, l)
  {
    forall k | 0 <= k < |s.redis|
      ensures l !in s.redis[k].calls
    {
      assert l in s.redis[k].calls ==> CallOk(s, k, l);
    }
  }

  lemma HeldTwice(s: State, t: State, u: State, l: Loop)
    requires Held(s, t, l) && Held(t, u, l)
    ensures Held(s, u, l)
  {
    forall k | 0 <= k < |s.redis|
      ensures SameCall(s.redis[k], u.redis[k], l)
    {
      assert SameCall(s.redis[k], t.redis[k], l) && SameCall(t.redis[k], u.redis[k], l);
    }
  }

  lemma HeldAfterRedis(s: State, i: nat, a: PubSub.Action, l: Loop)
    requires Inv(s) && s.writer == By(l) && RedisEnabled(s, i, a)
    requires ByOthers(l, Redis(i, a)) || a == PubSub.GiveUp(l)
    ensures Held(s, RedisDo(s, i, a), l)
  {
    RedisKeepsSessions(s, i, a);
    if a.Write? {
      OnlyHolderCalls(s, i, a.thread);
    } else {
      SameCallAfter(s.redis[i], a, l);
    }
    assert SameCall(s.redis[i], RedisDo(s, i, a).redis[i], l);
  }

  lemma SameCallAfter(r: PubSub.State, a: PubSub.Action, l: Loop)
    requires PubSub.Enabled(r, a) && !a.Write?
    requires (a.Enter? || a.Stop? || a.Lock? || a.Return?) ==> a.thread != l
    ensures SameCall(r, PubSub.Do(r, a), l)
  {
    PubSub.RequestedStep(r, a);
  }

  lemma HeldAfterSession(s: State, a: Action, l: Loop)
    requires Inv(s) && s.writer == By(l) && SessionEnabled(s, a) && a.loop != l
    ensures Held(s, SessionDo(s, a), l)
  {
    SessionKeepsPipeline(s, a);
    OthersUnchanged(s, a, l, "");
    if a.loop in s.loops {
      assert WriterOk(s, a.loop);
    }
  }

  lemma HeldStep(s: State, a: Action, l: Loop)
    requires Inv(s) && s.writer == By(l) && ByOthers(l, a)
    ensures Held(s, Next(s, a), l)
  {
    if Enabled(s, a) {
      if a.Redis? {
        HeldAfterRedis(s, a.instance, a.action, l);
      } else if SessionEnabled(s, a) {
        HeldAfterSession(s, a, l);
      } else if DeliveryEnabled(s, a) {
        DeliveryKeepsSessions(s, a);
        OthersStep(s, a, l);
      } else {
        OthersStep(s, a, l);
      }
    }
  }

  /** While l holds the lock exclusively, the others change neither the session index nor what is requested of any
      instance, and leave l's own calls alone. */
  lemma {:induction false} OthersWhileHeld(s: State, others: seq<Action>, l: Loop)
    requires Inv(s) && s.writer == By(l) && AllByOthers(l, others)
    ensures Held(s, Exec(s, others), l)
    decreases |others|
  {
    if others != [] {
      var front, a := others[..|others| - 1], others[|others| - 1];
      OthersWhileHeld(s, front, l);
      RunKeepsInv(s, front);
      HeldStep(Exec(s, front), a, l);
      HeldTwice(s, Exec(s, front), Exec(s, others), l);
    }
  }

  /** No other loop has the user online. */
  predicate IsLast(online: map<User, set<Loop>>, user: User, l: Loop)
  {
    user in online ==> online[user] <= {l}
  }

  /** The session index without the loop, and without the user if it was the last. */
  function Without(online: map<User, set<Loop>>, user: User, l: Loop): map<User, set<Loop>>
  {
    if IsLast(online, user, l) then online - {user} else online[user := online[user] - {l}]
  }

  lemma LockedToRemove(s: State, l: Loop, user: User)
    requires IsDoing(s, l, WantRemove(user)) && LockFree(s)
    ensures Next(s, LockExclusive(l))
         == s.(writer := By(l), online := Without(s.online, user, l),
               loops := s.loops[l := s.loops[l].(
                 doing := if IsLast(s.online, user, l) then Unsubscribing(user, 0) else Unlocking)])
  {
  }

  /** After the state in which l got the lock: its loop has left the index, and it has unlocked. */
  ghost predicate IndexLost(found: State, after: State, l: Loop, user: User)
  {
    after.online == Without(found.online, user, l) && after.writer.Nobody? && IsDoing(after, l, Idle)
  }

  /** ... its loop has joined the index. */
  ghost predicate IndexGained(found: State, after: State, l: Loop, user: User)
  {
    && after.online == found.online[user := Online(found, user) + {l}]
    && after.writer.Nobody? && IsDoing(after, l, Idle)
  }

  // ---------------------------------------------------------------- whose steps a run consists of

  /** A failed attempt to lock an instance's mutex: how many there are depends on the others. */
  predicate IsRetry(a: Action)
  {
    a.Redis? && a.action.GiveUp?
  }

  /** The steps of l's own thread, retries left out. */
  function OwnSteps(l: Loop, run: seq<Action>): seq<Action>
    decreases |run|
  {
    if run == [] then []
    else
      var front, a := run[..|run| - 1], run[|run| - 1];
      if ByOthers(l, a) || IsRetry(a) then OwnSteps(l, front) else OwnSteps(l, front) + [a]
  }

  /** How often l's own thread has given up an attempt, and published the unlock message. */
  function Retries(l: Loop, run: seq<Action>): nat
    decreases |run|
  {
    if run == [] then 0
    else
      var a := run[|run| - 1];
      Retries(l, run[..|run| - 1]) + if IsRetry(a) && !ByOthers(l, a) then 1 else 0
  }

  lemma RetriesSnoc(l: Loop, run: seq<Action>, a: Action)
    ensures Retries(l, run + [a]) == Retries(l, run) + if IsRetry(a) && !ByOthers(l, a) then 1 else 0
  {
    assert (run + [a])[..|run|] == run;
  }

  lemma {:induction false} RetriesOfOthers(l: Loop, run: seq<Action>, others: seq<Action>)
    requires AllByOthers(l, others)
    ensures Retries(l, run + others) == Retries(l, run)
    decreases |others|
  {
    if others == [] {
      assert run + others == run;
    } else {
      var front, last := others[..|others| - 1], others[|others| - 1];
      RetriesOfOthers(l, run, front);
      RetriesSnoc(l, run + front, last);
      assert run + others == run + front + [last];
    }
  }

  /** The steps of all other threads. */
  function Theirs(l: Loop, run: seq<Action>): seq<Action>
    decreases |run|
  {
    if run == [] then []
    else
      var front, a := run[..|run| - 1], run[|run| - 1];
      if ByOthers(l, a) then Theirs(l, front) + [a] else Theirs(l, front)
  }

  function Flat(schedule: seq<seq<Action>>): seq<Action>
  {
    if schedule == [] then [] else schedule[0] + Flat(schedule[1..])
  }

  lemma StepsSnoc(l: Loop, run: seq<Action>, a: Action)
    ensures OwnSteps(l, run + [a]) == if ByOthers(l, a) || IsRetry(a) then OwnSteps(l, run) else OwnSteps(l, run) + [a]
    ensures Theirs(l, run + [a]) == if ByOthers(l, a) then Theirs(l, run) + [a] else Theirs(l, run)
  {
    assert (run + [a])[..|run|] == run;
  }

  lemma Regroup(a: seq<Action>, b: seq<Action>, c: seq<Action>)
    ensures a + b + c == a + (b + c)
  {
  }

  lemma {:induction false} StepsOfOthers(l: Loop, run: seq<Action>, others: seq<Action>)
    requires AllByOthers(l, others)
    ensures OwnSteps(l, run + others) == OwnSteps(l, run) && Theirs(l, run + others) == Theirs(l, run) + others
    decreases |others|
  {
    if others == [] {
      assert run + others == run;
    } else {
      var front, last := others[..|others| - 1], others[|others| - 1];
      StepsOfOthers(l, run, front);
      StepsSnoc(l, run + front, last);
      Regroup(run, front, [last]);
      Regroup(Theirs(l, run), front, [last]);
      assert ByOthers(l, last);
      assert others == front + [last];
    }
  }

  /** The steps of one subscribe or unsubscribe on every instance, retries left out. */
  function CallSteps(l: Loop, command: PubSub.Command, instances: nat): seq<Action>
  {
    if instances == 0 then [] else CallSteps(l, command, instances - 1) + OneCall(l, instances - 1, command)
  }

  function OneCall(l: Loop, i: nat, command: PubSub.Command): seq<Action>
  {
    [Redis(i, PubSub.Enter(l, command)), Redis(i, PubSub.Lock(l)), Redis(i, PubSub.Write(l)), Redis(i, PubSub.Return(l))]
  }

  // -------------------------------------------------------------------- waiting in a callback

  lemma CallingStep(s: State, a: Action, i: nat)
    requires i < |s.callbacks| == |s.redis| && s.callbacks[i].Entered? && s.redis[i].listener.Calling?
    ensures i < |Next(s, a).redis| && Next(s, a).redis[i].listener == s.redis[i].listener
  {
    if Enabled(s, a) {
      if a.Redis? {
        CallingAfterRedis(s, a.instance, a.action, i);
      } else if SessionEnabled(s, a) {
        SessionKeepsPipeline(s, a);
      } else if DeliveryEnabled(s, a) {
        DeliveryKeepsSessions(s, a);
      }
    }
  }

  lemma CallingAfterRedis(s: State, j: nat, a: PubSub.Action, i: nat)
    requires RedisEnabled(s, j, a) && i < |s.redis|
    requires s.callbacks[i].Entered? && s.redis[i].listener.Calling?
    ensures i < |RedisDo(s, j, a).redis| && RedisDo(s, j, a).redis[i].listener == s.redis[i].listener
  {
  }

  /** A listener that waits in its callback stays in the same call. */
  lemma {:induction false} StaysCalling(s: State, others: seq<Action>, i: nat)
    requires Inv(s) && i < |s.redis| && s.callbacks[i].Entered? && LockShared(i) !in others
    ensures var t := Exec(s, others);
            && Inv(t) && i < |t.redis| == |t.callbacks| && t.callbacks[i].Entered?
            && t.redis[i].listener == s.redis[i].listener
    decreases |others|
  {
    RunKeepsInv(s, others);
    EnteredStays(s, others, i);
    if others != [] {
      var front := others[..|others| - 1];
      StaysCalling(s, front, i);
      assert CallbackOk(Exec(s, front), i);
      CallingStep(Exec(s, front), others[|others| - 1], i);
    }
  }

  // --------------------------------------------------------------------------- the class

  datatype LoginResponse = LoginResponse(username: string, success: bool, error: string)

  class Server {
    const instances: nat
    var users: map<User, string>                      // the hash of passwords in Redis
    var redis: seq<PubSub.State>                      // redis_pubsubs_
    var callbacks: seq<Callback>                      // where their listeners are in onRedisPubSubMessage
    var loops: map<Loop, LoopState>                   // LocalConnections and queue of each loop, and its place in a handler
    var online: map<User, set<Loop>>                  // online_users_
    var writer: Writer                                // the exclusive holder of online_users_mutex_
    var home: map<Conn, Loop>
    var received: map<Conn, seq<Delivery>>
    var schedule: seq<seq<Action>>                    // what other threads do at each point where this one may be interrupted
    ghost var trace: seq<Action>                      // all steps since the server was constructed

    function Now(): State
      reads this
    {
      State(redis, callbacks, loops, online, writer, home, received)
    }

    ghost predicate Valid()
      reads this
    {
      Now() == Exec(Initial(instances), trace)
    }

    constructor (users: map<User, string>, instances: nat, schedule: seq<seq<Action>>)
      ensures Valid() && trace == [] && this.users == users && this.instances == instances && this.schedule == schedule
    {
      this.users, this.instances, this.schedule := users, instances, schedule;
      redis, callbacks := Initial(instances).redis, Initial(instances).callbacks;
      loops, online, writer, home, received, trace := map[], map[], Nobody, map[], map[], [];
    }

    lemma Reachable()
      requires Valid()
      ensures Inv(Now()) && |redis| == instances
    {
      InitialInv(instances);
      RunKeepsInv(Initial(instances), trace);
      InstancesStay(Initial(instances), trace);
    }

    ghost predicate Ready(l: Loop)
      reads this
    {
      Valid() && l in loops && forall k :: 0 <= k < |schedule| ==> AllByOthers(l, schedule[k])
    }

    /** The thread of l has taken these steps, retries left out, and the others those that the schedule lost. */
    twostate predicate Did(l: Loop, own: seq<Action>)
      reads this
    {
      && Ready(l) && |schedule| <= |old(schedule)| && old(trace) <= trace
      && OwnSteps(l, trace) == OwnSteps(l, old(trace)) + own
      && Theirs(l, trace) + Flat(schedule) == Theirs(l, old(trace)) + Flat(old(schedule))
    }

    /** The thread of l has taken no step of its own but retries. */
    twostate predicate Waited(l: Loop)
      reads this
    {
      && Ready(l) && |schedule| <= |old(schedule)| && old(trace) <= trace
      && OwnSteps(l, trace) == OwnSteps(l, old(trace))
      && Theirs(l, trace) + Flat(schedule) == Theirs(l, old(trace)) + Flat(old(schedule))
    }

    /** The others take their next turn. */
    method Yield(l: Loop)
      requires Ready(l)
      modifies this`redis, this`callbacks, this`loops, this`online, this`writer, this`home, this`received, this`schedule, this`trace
      ensures Waited(l) && |schedule| == (if old(schedule) == [] then 0 else |old(schedule)| - 1)
      ensures Retries(l, trace) == Retries(l, old(trace))
      ensures loops[l].local == old(loops)[l].local && loops[l].doing == old(loops)[l].doing
      ensures old(writer) == By(l) ==> Held(old(Now()), Now(), l)
      ensures old(loops)[l].doing.Searching? ==> online == old(online)
    {
      if schedule != [] {
        var others := schedule[0];
        TurnOf(l, others);
        RetriesOfOthers(l, trace, others);
        trace := trace + others;
        schedule := schedule[1..];
        Become(Exec(Now(), others));
      }
    }

    method Become(s: State)
      modifies this`redis, this`callbacks, this`loops, this`online, this`writer, this`home, this`received
      ensures Now() == s
    {
      redis, callbacks, loops, online, writer, home, received :=
        s.redis, s.callbacks, s.loops, s.online, s.writer, s.home, s.received;
    }

    lemma TurnOf(l: Loop, others: seq<Action>)
      requires Valid() && l in loops && AllByOthers(l, others)
      ensures Exec(Initial(instances), trace + others) == Exec(Now(), others)
      ensures OwnSteps(l, trace + others) == OwnSteps(l, trace) && Theirs(l, trace + others) == Theirs(l, trace) + others
      ensures var t := Exec(Now(), others);
              && l in t.loops && t.loops[l].local == loops[l].local && t.loops[l].doing == loops[l].doing
              && (writer == By(l) ==> Held(Now(), t, l))
              && (loops[l].doing.Searching? ==> t.online == online)
    {
      Reachable();
      OthersKeep(Now(), others, l);
      if writer == By(l) {
        OthersWhileHeld(Now(), others, l);
      }
      if loops[l].doing.Searching? {
        Sessions.StillSearching(Now(), others, l);
      }
      ExecConcat(Initial(instances), trace, others);
      StepsOfOthers(l, trace, others);
    }

    lemma Recorded(l: Loop, a: Action)
      requires Valid()
      ensures Exec(Initial(instances), trace + [a]) == Next(Now(), a)
      ensures OwnSteps(l, trace + [a]) == if ByOthers(l, a) || IsRetry(a) then OwnSteps(l, trace) else OwnSteps(l, trace) + [a]
      ensures Theirs(l, trace + [a]) == if ByOthers(l, a) then Theirs(l, trace) + [a] else Theirs(l, trace)
    {
      ExecSnoc(Initial(instances), trace, a);
      StepsSnoc(l, trace, a);
    }

    // ------------------------------------------------- subscribe and unsubscribe of one instance

    /** One step of l's thread on an instance, before it returns from its call. */
    method Step(l: Loop, i: nat, a: PubSub.Action)
      requires Ready(l) && RedisEnabled(Now(), i, a) && !a.Return? && !a.GiveUp? && !ByOthers(l, Redis(i, a))
      modifies this`redis, this`trace
      ensures Did(l, [Redis(i, a)])
      ensures redis == old(redis)[i := PubSub.Do(old(redis)[i], a)]
    {
      Recorded(l, Redis(i, a));
      trace := trace + [Redis(i, a)];
      redis := redis[i := PubSub.Do(redis[i], a)];
    }

    /** The attempt to lock timed out: the unlock message goes out. */
    method GiveUp(l: Loop, i: nat)
      requires Ready(l) && RedisEnabled(Now(), i, PubSub.GiveUp(l))
      modifies this`redis, this`trace
      ensures Waited(l) && schedule == old(schedule) && trace == old(trace) + [Redis(i, PubSub.GiveUp(l))]
      ensures redis == old(redis)[i := PubSub.Do(old(redis)[i], PubSub.GiveUp(l))]
    {
      Recorded(l, Redis(i, PubSub.GiveUp(l)));
      trace := trace + [Redis(i, PubSub.GiveUp(l))];
      redis := redis[i := PubSub.Do(redis[i], PubSub.GiveUp(l))];
    }

    method Return(l: Loop, i: nat)
      requires Ready(l) && RedisEnabled(Now(), i, PubSub.Return(l))
      modifies this`redis, this`loops, this`trace
      ensures Did(l, [Redis(i, PubSub.Return(l))])
      ensures redis == old(redis)[i := PubSub.Do(old(redis)[i], PubSub.Return(l))]
      ensures l in old(loops) && (old(loops)[l].doing.Subscribing? || old(loops)[l].doing.Unsubscribing?)
      ensures loops == old(loops)[l := old(loops)[l].(doing := old(loops)[l].doing.(next := i + 1))]
    {
      Recorded(l, Redis(i, PubSub.Return(l)));
      trace := trace + [Redis(i, PubSub.Return(l))];
      redis := redis[i := PubSub.Do(redis[i], PubSub.Return(l))];
      loops := loops[l := loops[l].(doing := loops[l].doing.(next := i + 1))];
    }

    /** l holds the lock and is in its call on the instance. */
    ghost predicate InCall(l: Loop, i: nat, call: PubSub.Call)
      reads this
    {
      Ready(l) && AtCall(Now(), l, i) && l in redis[i].calls && redis[i].calls[l] == call
    }

    method Enter(l: Loop, i: nat, command: PubSub.Command)
      requires Ready(l) && AtCall(Now(), l, i) && command == CommandOf(loops[l].doing) && l !in redis[i].calls
      modifies this`redis, this`callbacks, this`loops, this`online, this`writer, this`home, this`received, this`schedule, this`trace
      ensures InCall(l, i, PubSub.Trying(command)) && Kept(old(Now()), Now(), l)
      ensures Did(l, [Redis(i, PubSub.Enter(l, command))])
    {
      Reachable();
      ChannelOfUser(loops[l].doing.user, command.channel);
      KeptAfterStep(Now(), i, PubSub.Enter(l, command), l);
      Step(l, i, PubSub.Enter(l, command));
      ghost var entered := Now();
      Yield(l);
      HeldIsKept(entered, Now(), l);
      assert SameCall(entered.redis[i], redis[i], l);
    }

    /** The loop around try_lock_for: each failed attempt publishes the unlock message, and then the others have
        their turn. It may be that they never let go of the mutex. */
    method Acquire(l: Loop, i: nat, command: PubSub.Command) returns (done: bool)
      requires InCall(l, i, PubSub.Trying(command))
      modifies this`redis, this`callbacks, this`loops, this`online, this`writer, this`home, this`received, this`schedule, this`trace
      ensures InCall(l, i, PubSub.Trying(command)) && Kept(old(Now()), Now(), l) && Waited(l)
      ensures Retries(l, trace) - Retries(l, old(trace)) == |old(schedule)| - |schedule|
      ensures done ==> redis[i].mutex.Free?
      ensures !done ==> schedule == []
    {
      while !redis[i].mutex.Free? && schedule != []
        invariant InCall(l, i, PubSub.Trying(command)) && Kept(old(Now()), Now(), l) && Waited(l)
        invariant Retries(l, trace) - Retries(l, old(trace)) == |old(schedule)| - |schedule|
        decreases |schedule|
      {
        Retry(l, i, command);
      }
      done := redis[i].mutex.Free?;
    }

    method Retry(l: Loop, i: nat, command: PubSub.Command)
      requires InCall(l, i, PubSub.Trying(command)) && schedule != []
      modifies this`redis, this`callbacks, this`loops, this`online, this`writer, this`home, this`received, this`schedule, this`trace
      ensures InCall(l, i, PubSub.Trying(command)) && Kept(old(Now()), Now(), l) && Waited(l)
      ensures |schedule| == |old(schedule)| - 1 && Retries(l, trace) == Retries(l, old(trace)) + 1
    {
      Reachable();
      KeptAfterStep(Now(), i, PubSub.GiveUp(l), l);
      RetriesSnoc(l, trace, Redis(i, PubSub.GiveUp(l)));
      GiveUp(l, i);
      ghost var told := Now();
      Yield(l);
      HeldIsKept(told, Now(), l);
      assert SameCall(told.redis[i], redis[i], l);
    }

    method LockMutex(l: Loop, i: nat, command: PubSub.Command)
      requires InCall(l, i, PubSub.Trying(command)) && redis[i].mutex.Free?
      modifies this`redis, this`callbacks, this`loops, this`online, this`writer, this`home, this`received, this`schedule, this`trace
      ensures InCall(l, i, PubSub.Owning(command)) && Kept(old(Now()), Now(), l)
      ensures Did(l, [Redis(i, PubSub.Lock(l))])
    {
      Reachable();
      KeptAfterStep(Now(), i, PubSub.Lock(l), l);
      Step(l, i, PubSub.Lock(l));
      ghost var locked := Now();
      Yield(l);
      HeldIsKept(locked, Now(), l);
      assert SameCall(locked.redis[i], redis[i], l);
    }

    method WriteCommand(l: Loop, i: nat, command: PubSub.Command)
      requires InCall(l, i, PubSub.Owning(command))
      modifies this`redis, this`callbacks, this`loops, this`online, this`writer, this`home, this`received, this`schedule, this`trace
      ensures InCall(l, i, PubSub.Leaving(command)) && Asked(old(Now()), Now(), l, i, command)
      ensures loops[l].doing == old(loops)[l].doing
      ensures Did(l, [Redis(i, PubSub.Write(l))])
    {
      Reachable();
      AskedAfterWrite(Now(), i, l, command);
      Step(l, i, PubSub.Write(l));
      ghost var written := Now();
      Yield(l);
      HeldIsKept(written, Now(), l);
      AskedThenKept(old(Now()), written, Now(), l, i, command);
      assert SameCall(written.redis[i], redis[i], l);
    }

    method Leave(l: Loop, i: nat, command: PubSub.Command)
      requires InCall(l, i, PubSub.Leaving(command))
      modifies this`redis, this`loops, this`trace
      ensures writer == old(writer) && online == old(online) && schedule == old(schedule) && |redis| == |old(redis)|
      ensures l in old(loops) && loops == old(loops)[l := old(loops)[l].(doing := old(loops)[l].doing.(next := i + 1))]
      ensures forall k {:trigger redis[k]} :: 0 <= k < |redis| ==> PubSub.Requested(redis[k]) == PubSub.Requested(old(redis)[k])
      ensures NotInside(Now(), l) && Did(l, [Redis(i, PubSub.Return(l))])
    {
      Reachable();
      assert CallOk(Now(), i, l);
      RequestedAfterReturn(Now(), i, l);
      OutsideAfterReturn(Now(), i, l);
      Return(l, i);
    }

    /** One subscribe or unsubscribe of one instance, from entry to return, unless it never gets the mutex. */
    method Call(l: Loop, i: nat, command: PubSub.Command) returns (done: bool)
      requires Ready(l) && AtCall(Now(), l, i) && NotInside(Now(), l) && command == CommandOf(loops[l].doing)
      modifies this`redis, this`callbacks, this`loops, this`online, this`writer, this`home, this`received, this`schedule, this`trace
      ensures !done ==> schedule == [] && InCall(l, i, PubSub.Trying(command)) && Kept(old(Now()), Now(), l)
      ensures !done ==> Did(l, [Redis(i, PubSub.Enter(l, command))])
      ensures done ==> Asked(old(Now()), Now(), l, i, command) && NotInside(Now(), l)
      ensures done ==> loops[l].doing == old(loops)[l].doing.(next := i + 1)
      ensures done ==> Did(l, OneCall(l, i, command))
    {
      Enter(l, i, command);
      ghost var entered := Now();
      done := Acquire(l, i, command);
      KeptTwice(old(Now()), entered, Now(), l);
      if done {
        ghost var acquired := Now();
        LockAndWrite(l, i, command);
        KeptThenAsked(old(Now()), acquired, Now(), l, i, command);
        FourSteps(OwnSteps(l, old(trace)), Redis(i, PubSub.Enter(l, command)), Redis(i, PubSub.Lock(l)),
                  Redis(i, PubSub.Write(l)), Redis(i, PubSub.Return(l)));
      }
    }

    method LockAndWrite(l: Loop, i: nat, command: PubSub.Command)
      requires InCall(l, i, PubSub.Trying(command)) && redis[i].mutex.Free?
      modifies this`redis, this`callbacks, this`loops, this`online, this`writer, this`home, this`received, this`schedule, this`trace
      ensures Asked(old(Now()), Now(), l, i, command) && NotInside(Now(), l)
      ensures loops[l].doing == old(loops)[l].doing.(next := i + 1)
      ensures Did(l, [Redis(i, PubSub.Lock(l)), Redis(i, PubSub.Write(l)), Redis(i, PubSub.Return(l))])
    {
      LockMutex(l, i, command);
      ghost var locked := Now();
      WriteCommand(l, i, command);
      KeptThenAsked(old(Now()), locked, Now(), l, i, command);
      ghost var written := Now();
      Leave(l, i, command);
      AskedAfterLeave(old(Now()), written, Now(), l, i, command);
    }

    // ------------------------------------------------------------------------ on all instances

    method CallNext(l: Loop, i: nat, command: PubSub.Command, ghost first: State, ghost steps: seq<Action>) returns (done: bool)
      requires Ready(l) && AtCall(Now(), l, i) && NotInside(Now(), l) && command == CommandOf(loops[l].doing)
      requires Everywhere(first, Now(), l, i, command) && OwnSteps(l, trace) == steps + CallSteps(l, command, i)
      modifies this`redis, this`callbacks, this`loops, this`online, this`writer, this`home, this`received, this`schedule, this`trace
      ensures !done ==> schedule == [] && Ready(l) && writer == old(writer) && loops[l].local == old(loops)[l].local
      ensures done ==> Everywhere(first, Now(), l, i + 1, command) && NotInside(Now(), l)
      ensures done ==> loops[l].doing == old(loops)[l].doing.(next := i + 1)
      ensures done ==> Ready(l) && OwnSteps(l, trace) == steps + CallSteps(l, command, i + 1)
      ensures done ==> |schedule| <= |old(schedule)| && old(trace) <= trace
      ensures done ==> Theirs(l, trace) + Flat(schedule) == Theirs(l, old(trace)) + Flat(old(schedule))
    {
      done := Call(l, i, command);
      if done {
        OneMoreInstance(first, old(Now()), Now(), l, i, command);
        Regroup(steps, CallSteps(l, command, i), OneCall(l, i, command));
      }
    }

    method Subscribe(l: Loop, user: User) returns (done: bool)
      requires Ready(l) && writer == By(l) && loops[l].doing == Subscribing(user, 0) && NotInside(Now(), l)
      modifies this`redis, this`callbacks, this`loops, this`online, this`writer, this`home, this`received, this`schedule, this`trace
      ensures !done ==> schedule == [] && Ready(l) && writer == By(l) && loops[l].local == old(loops)[l].local
      ensures done ==> Everywhere(old(Now()), Now(), l, |redis|, PubSub.Subscribe(UserChannel(user)))
      ensures done ==> NotInside(Now(), l) && loops[l].doing == Subscribing(user, |redis|)
      ensures done ==> Did(l, CallSteps(l, PubSub.Subscribe(UserChannel(user)), |redis|))
    {
      ghost var command := PubSub.Subscribe(UserChannel(user));
      var i := 0;
      assert OwnSteps(l, trace) == OwnSteps(l, trace) + [];
      while i < |redis|
        invariant i <= |redis| && writer == By(l) && NotInside(Now(), l)
        invariant l in loops && loops[l].doing == Subscribing(user, i)
        invariant Everywhere(old(Now()), Now(), l, i, command) && Did(l, CallSteps(l, command, i))
        decreases |redis| - i
      {
        done := CallNext(l, i, PubSub.Subscribe(UserChannel(user)), old(Now()), OwnSteps(l, old(trace)));
        if !done {
          return false;
        }
        i := i + 1;
      }
      done := true;
    }

    method Unsubscribe(l: Loop, user: User) returns (done: bool)
      requires Ready(l) && writer == By(l) && loops[l].doing == Unsubscribing(user, 0) && NotInside(Now(), l)
      modifies this`redis, this`callbacks, this`loops, this`online, this`writer, this`home, this`received, this`schedule, this`trace
      ensures !done ==> schedule == [] && Ready(l) && writer == By(l) && loops[l].local == old(loops)[l].local
      ensures done ==> Everywhere(old(Now()), Now(), l, |redis|, PubSub.Unsubscribe(UserChannel(user)))
      ensures done ==> NotInside(Now(), l) && loops[l].doing == Unsubscribing(user, |redis|)
      ensures done ==> Did(l, CallSteps(l, PubSub.Unsubscribe(UserChannel(user)), |redis|))
    {
      ghost var command := PubSub.Unsubscribe(UserChannel(user));
      var i := 0;
      assert OwnSteps(l, trace) == OwnSteps(l, trace) + [];
      while i < |redis|
        invariant i <= |redis| && writer == By(l) && NotInside(Now(), l)
        invariant l in loops && loops[l].doing == Unsubscribing(user, i)
        invariant Everywhere(old(Now()), Now(), l, i, command) && Did(l, CallSteps(l, command, i))
        decreases |redis| - i
      {
        done := CallNext(l, i, PubSub.Unsubscribe(UserChannel(user)), old(Now()), OwnSteps(l, old(trace)));
        if !done {
          return false;
        }
        i := i + 1;
      }
      done := true;
    }

    // ------------------------------------------------------------------------- session index

    method Goto(l: Loop, doing: Doing)
      requires l in loops
      modifies this`loops
      ensures loops == old(loops)[l := old(loops)[l].(doing := doing)]
    {
      loops := loops[l := loops[l].(doing := doing)];
    }

    /** Blocks until nobody has the lock; it may be that the others never let go of it. */
    method WaitExclusive(l: Loop) returns (done: bool)
      requires Ready(l)
      modifies this`redis, this`callbacks, this`loops, this`online, this`writer, this`home, this`received, this`schedule, this`trace
      ensures Waited(l) && loops[l].local == old(loops)[l].local && loops[l].doing == old(loops)[l].doing
      ensures done == LockFree(Now()) && (!done ==> schedule == [])
    {
      while !LockFree(Now()) && schedule != []
        invariant Waited(l) && loops[l].local == old(loops)[l].local && loops[l].doing == old(loops)[l].doing
        decreases |schedule|
      {
        Yield(l);
      }
      done := LockFree(Now());
    }

    method LockToAdd(l: Loop, user: User)
      requires Ready(l) && loops[l].doing == WantAdd(user) && LockFree(Now())
      modifies this`loops, this`writer, this`trace
      ensures trace == old(trace) + [LockExclusive(l)]
      ensures Did(l, [LockExclusive(l)]) && schedule == old(schedule) && writer == By(l) && NotInside(Now(), l)
      ensures loops == old(loops)[l := old(loops)[l].(doing := Subscribing(user, if user in online then |redis| else 0))]
    {
      Reachable();
      OutsideWhenWaiting(Now(), l);
      Recorded(l, LockExclusive(l));
      trace := trace + [LockExclusive(l)];
      writer := By(l);
      Goto(l, Subscribing(user, if user in online then |redis| else 0));
    }

    method InsertAndUnlock(l: Loop, user: User)
      requires Ready(l) && loops[l].doing == Subscribing(user, |redis|)
      modifies this`loops, this`online, this`writer, this`trace
      ensures Did(l, [Insert(l)]) && schedule == old(schedule)
      ensures online == old(online)[user := Online(old(Now()), user) + {l}]
      ensures loops == old(loops)[l := old(loops)[l].(doing := Idle)] && writer.Nobody?
    {
      Recorded(l, Insert(l));
      trace := trace + [Insert(l)];
      online := online[user := Online(Now(), user) + {l}];
      writer := Nobody;
      Goto(l, Idle);
    }

    /** l's own steps in addUserToOnlineUsers. */
    function AddSteps(l: Loop, user: User, known: bool): seq<Action>
    {
      [LockExclusive(l)] + NewSteps(l, user, known) + [Insert(l)]
    }

    function NewSteps(l: Loop, user: User, known: bool): seq<Action>
    {
      if known then [] else CallSteps(l, PubSub.Subscribe(UserChannel(user)), instances)
    }

    /** addUserToOnlineUsers from the moment it can have the lock. */
    method AddLocked(l: Loop, user: User) returns (done: bool, ghost found: State, ghost steps: seq<Action>)
      requires Ready(l) && loops[l].doing == WantAdd(user) && LockFree(Now())
      modifies this`redis, this`callbacks, this`loops, this`online, this`writer, this`home, this`received, this`schedule, this`trace
      ensures Ready(l) && loops[l].local == old(loops)[l].local && (!done ==> schedule == [] && writer == By(l))
      ensures found == old(Now()) && steps == old(trace) && (done ==> LockedIn(l, found, steps) && IndexGained(found, Now(), l, user))
      ensures done ==> Did(l, AddSteps(l, user, user in found.online))
    {
      found, steps := Now(), trace;
      LockToAdd(l, user);
      done := SubscribeIfNew(l, user);
      if done {
        Reachable();
        InsertAndUnlock(l, user);
        ThreeParts(OwnSteps(l, old(trace)), [LockExclusive(l)], NewSteps(l, user, user in old(online)), [Insert(l)]);
      }
    }

    /** With the lock held: subscribes unless the index has the user already. */
    method SubscribeIfNew(l: Loop, user: User) returns (done: bool)
      requires Ready(l) && writer == By(l) && NotInside(Now(), l)
      requires loops[l].doing == Subscribing(user, if user in online then |redis| else 0)
      modifies this`redis, this`callbacks, this`loops, this`online, this`writer, this`home, this`received, this`schedule, this`trace
      ensures Ready(l) && writer == By(l) && loops[l].local == old(loops)[l].local && (!done ==> schedule == [])
      ensures done ==> online == old(online) && loops[l].doing == Subscribing(user, |redis|)
      ensures done ==> Did(l, NewSteps(l, user, user in old(online)))
    {
      Reachable();
      ghost var locked := Now();
      Yield(l);
      YieldStaysOutside(locked, Now(), l);
      done := true;
      if user !in online {
        done := Subscribe(l, user);
        Reachable();
      }
    }

    method LockToRemove(l: Loop, user: User) returns (last: bool)
      requires Ready(l) && loops[l].doing == WantRemove(user) && LockFree(Now())
      modifies this`loops, this`online, this`writer, this`trace
      ensures trace == old(trace) + [LockExclusive(l)]
      ensures Did(l, [LockExclusive(l)]) && schedule == old(schedule) && writer == By(l) && NotInside(Now(), l)
      ensures last == IsLast(old(online), user, l) && online == Without(old(online), user, l)
      ensures loops == old(loops)[l := old(loops)[l].(doing := if last then Unsubscribing(user, 0) else Unlocking)]
    {
      Reachable();
      OutsideWhenWaiting(Now(), l);
      LockedToRemove(Now(), l, user);
      Recorded(l, LockExclusive(l));
      trace := trace + [LockExclusive(l)];
      last := IsLast(online, user, l);
      writer := By(l);
      online := Without(online, user, l);
      Goto(l, if last then Unsubscribing(user, 0) else Unlocking);
    }

    method UnlockIndex(l: Loop)
      requires Ready(l) && SessionEnabled(Now(), Unlock(l))
      modifies this`loops, this`writer, this`trace
      ensures Did(l, [Unlock(l)]) && schedule == old(schedule)
      ensures loops == old(loops)[l := old(loops)[l].(doing := Idle)] && writer.Nobody?
    {
      Recorded(l, Unlock(l));
      trace := trace + [Unlock(l)];
      writer := Nobody;
      Goto(l, Idle);
    }

    /** With the lock held: unsubscribes if the loop was the user's last. */
    method UnsubscribeIfLast(l: Loop, user: User, last: bool) returns (done: bool)
      requires Ready(l) && writer == By(l) && NotInside(Now(), l)
      requires loops[l].doing == if last then Unsubscribing(user, 0) else Unlocking
      modifies this`redis, this`callbacks, this`loops, this`online, this`writer, this`home, this`received, this`schedule, this`trace
      ensures Ready(l) && writer == By(l) && loops[l].local == old(loops)[l].local && (!done ==> schedule == [])
      ensures done ==> online == old(online) && SessionEnabled(Now(), Unlock(l))
      ensures done ==> Did(l, LastSteps(l, user, last))
    {
      Reachable();
      ghost var locked := Now();
      Yield(l);
      YieldStaysOutside(locked, Now(), l);
      done := true;
      if last {
        done := Unsubscribe(l, user);
        Reachable();
      }
    }

    function LastSteps(l: Loop, user: User, last: bool): seq<Action>
    {
      if last then CallSteps(l, PubSub.Unsubscribe(UserChannel(user)), instances) else []
    }

    /** l's own steps in removeUserFromOnlineUsers. */
    function RemoveSteps(l: Loop, user: User, last: bool): seq<Action>
    {
      [LockExclusive(l)] + LastSteps(l, user, last) + [Unlock(l)]
    }

    method RemoveLocked(l: Loop, user: User) returns (done: bool, ghost found: State, ghost steps: seq<Action>, ghost own: seq<Action>)
      requires Ready(l) && loops[l].doing == WantRemove(user) && LockFree(Now())
      modifies this`redis, this`callbacks, this`loops, this`online, this`writer, this`home, this`received, this`schedule, this`trace
      ensures Ready(l) && loops[l].local == old(loops)[l].local && (!done ==> schedule == [] && writer == By(l))
      ensures found == old(Now()) && steps == old(trace) && (done ==> LockedIn(l, found, steps) && IndexLost(found, Now(), l, user))
      ensures own == RemoveSteps(l, user, IsLast(found.online, user, l)) && (done ==> Did(l, own))
    {
      found, steps := Now(), trace;
      own := RemoveSteps(l, user, IsLast(found.online, user, l));
      var last := LockToRemove(l, user);
      done := UnsubscribeIfLast(l, user, last);
      if done {
        UnlockIndex(l);
        ThreeParts(OwnSteps(l, old(trace)), [LockExclusive(l)], LastSteps(l, user, last), [Unlock(l)]);
      }
    }

    /** The state, after the given steps, in which l got the lock. */
    ghost predicate LockedIn(l: Loop, s: State, steps: seq<Action>)
      reads this
    {
      s == Exec(Initial(instances), steps) && LockFree(s) && steps + [LockExclusive(l)] <= trace
    }

    /** Waits for the lock, interrupted by the others at every point. Once it has the lock, the index as the others
        left it gains the loop, and the user's first loop subscribes the channel everywhere. It ends unless the
        others never let go of a lock it needs. */
    method AddUserToOnlineUsers(l: Loop, user: User) returns (done: bool, ghost found: State, ghost steps: seq<Action>)
      requires Ready(l) && loops[l].doing == WantAdd(user)
      modifies this`redis, this`callbacks, this`loops, this`online, this`writer, this`home, this`received, this`schedule, this`trace
      ensures Ready(l) && loops[l].local == old(loops)[l].local && (!done ==> schedule == [])
      ensures done ==> LockedIn(l, found, steps) && old(trace) <= steps
      ensures done ==> IndexGained(found, Now(), l, user)
      ensures done ==> Did(l, AddSteps(l, user, user in found.online))
    {
      done := WaitExclusive(l);
      if done {
        done, found, steps := AddLocked(l, user);
      } else {
        found, steps := Now(), trace;
      }
    }

    method RemoveUserFromOnlineUsers(l: Loop, user: User) returns (done: bool, ghost found: State, ghost steps: seq<Action>)
      requires Ready(l) && loops[l].doing == WantRemove(user)
      modifies this`redis, this`callbacks, this`loops, this`online, this`writer, this`home, this`received, this`schedule, this`trace
      ensures Ready(l) && loops[l].local == old(loops)[l].local && (!done ==> schedule == [])
      ensures done ==> LockedIn(l, found, steps) && old(trace) <= steps
      ensures done ==> IndexLost(found, Now(), l, user)
      ensures done ==> Did(l, RemoveSteps(l, user, IsLast(found.online, user, l)))
    {
      done := WaitExclusive(l);
      found, steps := Now(), trace;
      if done {
        ghost var own;
        done, found, steps, own := RemoveLocked(l, user);
        assert done ==> Did(l, own);
      }
    }

    // ----------------------------------------------------------------------- login and logout

    /** What onLoginRequest does to LocalConnections. */
    method FileConnection(l: Loop, c: Conn, username: User)
      requires Ready(l) && loops[l].doing == Idle && c in home && home[c] == l
      modifies this`loops, this`trace
      ensures Did(l, [Login(l, c, username)]) && schedule == old(schedule)
      ensures loops == old(loops)[l := old(loops)[l].(
                local := old(loops)[l].local[username := Local(old(Now()), l, username) + {c}], doing := WantAdd(username))]
    {
      Recorded(l, Login(l, c, username));
      trace := trace + [Login(l, c, username)];
      loops := loops[l := loops[l].(
        local := loops[l].local[username := Local(Now(), l, username) + {c}], doing := WantAdd(username))];
    }

    /** l's own steps in a successful onLoginRequest. */
    function LoginSteps(l: Loop, c: Conn, username: User, known: bool): seq<Action>
    {
      [Login(l, c, username)] + AddSteps(l, username, known)
    }

    /** Succeeds for the stored password of a user who has a password, and only for it. A success files the
        connection and, once it gets the lock, the loop; a failure does nothing. */
    method OnLoginRequest(l: Loop, c: Conn, username: User, password: string)
      returns (response: LoginResponse, done: bool, ghost found: State, ghost steps: seq<Action>)
      requires Ready(l) && loops[l].doing == Idle && c in home && home[c] == l
      modifies this`redis, this`callbacks, this`loops, this`online, this`writer, this`home, this`received, this`schedule, this`trace
      ensures response.success <==> username in users && users[username] == password && password != ""
      ensures response == if response.success then LoginResponse(username, true, "")
                          else LoginResponse("guest", false, "Invalid username or password.")
      ensures !response.success ==> done && Now() == old(Now()) && trace == old(trace)
      ensures response.success ==>
                && Ready(l) && loops[l].local == old(loops)[l].local[username := Local(old(Now()), l, username) + {c}]
                && (!done ==> schedule == [])
      ensures response.success && done ==>
                && LockedIn(l, found, steps) && old(trace) <= steps
                && IndexGained(found, Now(), l, username)
                && Did(l, LoginSteps(l, c, username, username in found.online))
    {
      var stored := if username in users then users[username] else "";
      done, found, steps := true, Now(), trace;
      if stored != "" && stored == password {
        response := LoginResponse(username, true, "");
        FileConnection(l, c, username);
        done, found, steps := AddUserToOnlineUsers(l, username);
        Regroup(OwnSteps(l, old(trace)), [Login(l, c, username)], AddSteps(l, username, username in found.online));
      } else {
        response := LoginResponse("guest", false, "Invalid username or password.");
      }
    }

    /** What logout does to LocalConnections for the user it has found. */
    method Unfile(l: Loop, c: Conn, user: User) returns (last: bool)
      requires Ready(l) && loops[l].doing == Idle && c in Local(Now(), l, user)
      modifies this`loops, this`trace
      ensures Did(l, [Action.Logout(l, c, user)]) && schedule == old(schedule)
      ensures last == (Local(old(Now()), l, user) == {c})
      ensures loops == old(loops)[l := old(loops)[l].(
                local := LoggedOut(old(loops)[l].local, c, user), doing := if last then WantRemove(user) else Idle)]
    {
      Recorded(l, Action.Logout(l, c, user));
      trace := trace + [Action.Logout(l, c, user)];
      var local := loops[l].local;
      last := local[user] - {c} == {};
      if last {
        local := local - {user};
      } else {
        local := local[user := local[user] - {c}];
      }
      loops := loops[l := loops[l].(local := local, doing := if last then WantRemove(user) else Idle)];
    }

    /** l's own steps in logout; found is the state in which it got the lock. */
    function LogoutSteps(l: Loop, c: Conn, user: User, last: bool, found: State): seq<Action>
    {
      [Action.Logout(l, c, user)] + if last then RemoveSteps(l, user, IsLast(found.online, user, l)) else []
    }

    method LogoutFrom(l: Loop, c: Conn, user: User) returns (done: bool, ghost found: State, ghost steps: seq<Action>)
      requires Ready(l) && loops[l].doing == Idle && c in Local(Now(), l, user)
      modifies this`redis, this`callbacks, this`loops, this`online, this`writer, this`home, this`received, this`schedule, this`trace
      ensures Ready(l) && loops[l].local == LoggedOut(old(loops)[l].local, c, user) && (!done ==> schedule == [])
      ensures done ==> loops[l].doing == Idle
      ensures done ==> Did(l, LogoutSteps(l, c, user, Local(old(Now()), l, user) == {c}, found))
      ensures done && Local(old(Now()), l, user) == {c} ==> LockedIn(l, found, steps) && old(trace) <= steps
      ensures done ==> online == if Local(old(Now()), l, user) == {c} then Without(found.online, user, l) else old(online)
    {
      done := true;
      var last := Unfile(l, c, user);
      found, steps := Now(), trace;
      if last {
        done, found, steps := RemoveUserFromOnlineUsers(l, user);
        Regroup(OwnSteps(l, old(trace)), [Action.Logout(l, c, user)], RemoveSteps(l, user, IsLast(found.online, user, l)));
      }
    }

    /** Stops at the first user the connection is found under; does nothing if there is none. */
    method Logout(l: Loop, c: Conn)
      returns (success: bool, user: User, done: bool, ghost found: State, ghost steps: seq<Action>)
      requires Ready(l) && loops[l].doing == Idle
      modifies this`redis, this`callbacks, this`loops, this`online, this`writer, this`home, this`received, this`schedule, this`trace
      ensures success <==> exists u :: c in Local(old(Now()), l, u)
      ensures !success ==> done && Now() == old(Now()) && trace == old(trace)
      ensures success ==>
                && c in Local(old(Now()), l, user)
                && Ready(l) && loops[l].local == LoggedOut(old(loops)[l].local, c, user) && (!done ==> schedule == [])
      ensures success && done ==>
                && loops[l].doing == Idle
                && (Local(old(Now()), l, user) == {c} ==> LockedIn(l, found, steps) && old(trace) <= steps)
                && Did(l, LogoutSteps(l, c, user, Local(old(Now()), l, user) == {c}, found))
                && online == if Local(old(Now()), l, user) == {c} then Without(found.online, user, l) else old(online)
    {
      success, user, done, found, steps := false, "", true, Now(), trace;
      var todo := loops[l].local.Keys;
      while todo != {}
        invariant todo <= loops[l].local.Keys
        invariant forall u :: u in loops[l].local && u !in todo ==> c !in loops[l].local[u]
        decreases |todo|
        modifies {}
      {
        user :| user in todo;
        if c in loops[l].local[user] {
          success := true;
          break;
        }
        todo := todo - {user};
      }
      if success {
        done, found, steps := LogoutFrom(l, c, user);
      }
    }

    // --------------------------------------------------------------------------------- search

    /** A step of a search, recorded as it is taken. */
    method Advance(l: Loop, a: Action, doing: Doing)
      requires Ready(l) && SearchEnabled(Now(), a) && a.loop == l && doing == SearchNext(Now(), a)
      modifies this`loops, this`trace
      ensures Did(l, [a]) && schedule == old(schedule)
      ensures loops == old(loops)[l := old(loops)[l].(doing := doing)]
    {
      Recorded(l, a);
      trace := trace + [a];
      Goto(l, doing);
    }

    /** Blocks until no loop has the lock exclusively; it may be that the others never let go of it. */
    method WaitShared(l: Loop) returns (done: bool)
      requires Ready(l)
      modifies this`redis, this`callbacks, this`loops, this`online, this`writer, this`home, this`received, this`schedule, this`trace
      ensures Waited(l) && loops[l].local == old(loops)[l].local && loops[l].doing == old(loops)[l].doing
      ensures done == writer.Nobody? && (!done ==> schedule == [])
    {
      while !writer.Nobody? && schedule != []
        invariant Waited(l) && loops[l].local == old(loops)[l].local && loops[l].doing == old(loops)[l].doing
        decreases |schedule|
      {
        Yield(l);
      }
      done := writer.Nobody?;
    }

    function Visits(l: Loop, order: seq<User>): (steps: seq<Action>)
      ensures |steps| == |order|
    {
      seq(|order|, k requires 0 <= k < |order| => Visit(l, order[k]))
    }

    /** l's own steps in a search that got the lock. */
    function SearchSteps(l: Loop, keyword: string, order: seq<User>): seq<Action>
    {
      [Search(l, keyword)] + LockedSteps(l, order)
    }

    function LockedSteps(l: Loop, order: seq<User>): seq<Action>
    {
      [LockSearch(l)] + Visits(l, order) + [UnlockSearch(l)]
    }

    /** Lists every user who is online when it gets the lock and whose name contains the keyword, each once; others
        are at work between any two steps, and the index is still the same when it unlocks. */
    method OnSearchRequest(l: Loop, keyword: string) returns (names: seq<User>, done: bool, ghost order: seq<User>)
      requires Ready(l) && loops[l].doing == Idle
      modifies this`redis, this`callbacks, this`loops, this`online, this`writer, this`home, this`received, this`schedule, this`trace
      ensures Ready(l) && loops[l].local == old(loops)[l].local
      ensures !done ==> schedule == [] && !writer.Nobody? && loops[l].doing == WantSearch(keyword)
      ensures done ==> Did(l, SearchSteps(l, keyword, order)) && loops[l].doing == Idle
      ensures done ==> forall user :: user in order <==> user in online
      ensures done ==> forall user :: user in names <==> user in online && Contains(user, keyword)
      ensures done ==> forall a, b :: a + keyword + b in names <==> a + keyword + b in online
      ensures done ==> forall i, j :: 0 <= i < j < |names| ==> names[i] != names[j]
    {
      names, order := [], [];
      Advance(l, Search(l, keyword), WantSearch(keyword));
      done := WaitShared(l);
      if done {
        names, order := SearchLocked(l, keyword);
        ListedAround(names, online.Keys, keyword);
        Regroup(OwnSteps(l, old(trace)), [Search(l, keyword)], LockedSteps(l, order));
      }
    }

    method SearchLocked(l: Loop, keyword: string) returns (names: seq<User>, ghost order: seq<User>)
      requires Ready(l) && loops[l].doing == WantSearch(keyword) && writer.Nobody?
      modifies this`redis, this`callbacks, this`loops, this`online, this`writer, this`home, this`received, this`schedule, this`trace
      ensures Did(l, LockedSteps(l, order))
      ensures online == old(online) && loops[l].local == old(loops)[l].local && loops[l].doing == Idle
      ensures forall user :: user in order <==> user in online
      ensures forall user :: user in names <==> user in online && Contains(user, keyword)
      ensures forall i, j :: 0 <= i < j < |names| ==> names[i] != names[j]
    {
      LockIndexForSearch(l, keyword);
      ghost var found;
      names, found, order := LookAtAll(l, keyword);
      Advance(l, UnlockSearch(l), Idle);
      ThreeParts(OwnSteps(l, old(trace)), [LockSearch(l)], Visits(l, order), [UnlockSearch(l)]);
    }

    method LockIndexForSearch(l: Loop, keyword: string)
      requires Ready(l) && loops[l].doing == WantSearch(keyword) && writer.Nobody?
      modifies this`redis, this`callbacks, this`loops, this`online, this`writer, this`home, this`received, this`schedule, this`trace
      ensures Did(l, [LockSearch(l)]) && online == old(online) && loops[l].local == old(loops)[l].local
      ensures loops[l].doing == Searching(keyword, online.Keys, {})
    {
      Advance(l, LockSearch(l), Searching(keyword, online.Keys, {}));
      Yield(l);
    }

    /** The loop of the search. */
    method LookAtAll(l: Loop, keyword: string) returns (names: seq<User>, found: set<User>, ghost order: seq<User>)
      requires Ready(l) && loops[l].doing == Searching(keyword, online.Keys, {})
      modifies this`redis, this`callbacks, this`loops, this`online, this`writer, this`home, this`received, this`schedule, this`trace
      ensures Did(l, Visits(l, order)) && online == old(online) && loops[l].local == old(loops)[l].local
      ensures loops[l].doing == Searching(keyword, {}, found)
      ensures forall user :: user in order <==> user in online
      ensures forall user :: user in names <==> user in online && Contains(user, keyword)
      ensures forall i, j :: 0 <= i < j < |names| ==> names[i] != names[j]
    {
      names, found, order := [], {}, [];
      var todo := online.Keys;
      while todo != {}
        invariant Did(l, Visits(l, order)) && online == old(online) && loops[l].local == old(loops)[l].local
        invariant todo <= online.Keys && loops[l].doing == Searching(keyword, todo, found)
        invariant forall user :: user in order <==> user in online.Keys - todo
        invariant Lists(names, online.Keys - todo, keyword)
        decreases |todo|
      {
        var user :| user in todo;
        found, order := LookAt(l, keyword, todo, found, user, OwnSteps(l, old(trace)), order);
        names := Listed(names, online.Keys - todo, user, keyword);
        assert online.Keys - todo + {user} == online.Keys - (todo - {user});
        todo := todo - {user};
      }
    }

    /** The names are the matching users among those seen, each once. */
    static ghost predicate Lists(names: seq<User>, seen: set<User>, keyword: string)
    {
      && (forall user :: user in names <==> user in seen && Contains(user, keyword))
      && forall i, j :: 0 <= i < j < |names| ==> names[i] != names[j]
    }

    static method Listed(before: seq<User>, ghost seen: set<User>, user: User, keyword: string) returns (names: seq<User>)
      requires user !in seen && Lists(before, seen, keyword)
      ensures Lists(names, seen + {user}, keyword)
    {
      names := before;
      assert "" <= user[0..];
      if keyword == "" || Contains(user, keyword) {
        names := names + [user];
      }
    }

    method LookAt(l: Loop, keyword: string, todo: set<User>, seen: set<User>, user: User,
                  ghost steps: seq<Action>, ghost before: seq<User>)
      returns (found: set<User>, ghost order: seq<User>)
      requires Ready(l) && loops[l].doing == Searching(keyword, todo, seen) && user in todo
      requires OwnSteps(l, trace) == steps + Visits(l, before)
      modifies this`redis, this`callbacks, this`loops, this`online, this`writer, this`home, this`received, this`schedule, this`trace
      ensures Ready(l) && OwnSteps(l, trace) == steps + Visits(l, order) && order == before + [user]
      ensures |schedule| <= |old(schedule)| && old(trace) <= trace
      ensures Theirs(l, trace) + Flat(schedule) == Theirs(l, old(trace)) + Flat(old(schedule))
      ensures online == old(online) && loops[l].local == old(loops)[l].local
      ensures loops[l].doing == Searching(keyword, todo - {user}, found)
    {
      found := seen + if Contains(user, keyword) then {user} else {};
      order := before + [user];
      Advance(l, Visit(l, user), Searching(keyword, todo - {user}, found));
      Yield(l);
      assert Visits(l, order) == Visits(l, before) + [Visit(l, user)];
      Regroup(steps, Visits(l, before), [Visit(l, user)]);
    }

    // ------------------------------------------------------------------------------- delivery

    /** One step that is recorded as it is taken. */
    lemma Took(a: Action)
      requires Valid()
      ensures Exec(Initial(instances), trace + [a]) == Next(Now(), a)
    {
      ExecSnoc(Initial(instances), trace, a);
    }

    function Queues(i: nat, order: seq<Loop>): (steps: seq<Action>)
      ensures |steps| == |order|
    {
      seq(|order|, k requires 0 <= k < |order| => QueueTo(i, order[k]))
    }

    function Sends(l: Loop, order: seq<Conn>): (steps: seq<Action>)
      ensures |steps| == |order|
    {
      seq(|order|, k requires 0 <= k < |order| => Send(l, order[k]))
    }

    /** The listener's callback, while the others do anything: when it gets the lock, one functor to each loop the
        user is online in, in any order. */
    method OnRedisPubSubMessage(i: nat, user: User, text: string, others: seq<Action>)
      returns (done: bool, ghost order: seq<Loop>)
      requires Valid() && i < |redis| == |callbacks| && callbacks[i].Entered? && LockShared(i) !in others
      requires redis[i].listener == PubSub.Calling(UserChannel(user), text)
      modifies this`redis, this`callbacks, this`loops, this`online, this`writer, this`home, this`received, this`trace
      ensures Valid()
      ensures trace == old(trace) + others + if done then [LockShared(i)] + Queues(i, order) + [UnlockShared(i)] else []
      ensures var found := Exec(old(Now()), others);
              && done == found.writer.Nobody?
              && (done ==> i < |found.callbacks| && callbacks == found.callbacks[i := Finished]
                           && Queued(found.loops, loops, Online(found, user), Delivery(user, text)))
              && (!done ==> Now() == found)
    {
      Reachable();
      StaysCalling(Now(), others, i);
      ExecConcat(Initial(instances), trace, others);
      trace := trace + others;
      Become(Exec(Now(), others));
      done, order := writer.Nobody?, [];
      if done {
        order := QueueMessage(i, user, text);
      } else {
        assert old(trace) + others + [] == old(trace) + others;
      }
    }

    /** onRedisPubSubMessage from the moment it can have the lock. */
    method QueueMessage(i: nat, user: User, text: string) returns (ghost order: seq<Loop>)
      requires Valid() && i < |redis| == |callbacks| && callbacks[i].Entered? && writer.Nobody?
      requires redis[i].listener == PubSub.Calling(UserChannel(user), text)
      modifies this`loops, this`callbacks, this`trace
      ensures Valid() && trace == old(trace) + ([LockShared(i)] + Queues(i, order) + [UnlockShared(i)])
      ensures callbacks == old(callbacks)[i := Finished]
      ensures Queued(old(loops), loops, Online(old(Now()), user), Delivery(user, text))
    {
      Reachable();
      assert user in online ==> OnlineOk(Now(), user);
      LockIndexShared(i, user, text);
      ghost var locked := callbacks;
      order := QueueToLoops(i, Delivery(user, text), Online(Now(), user));
      assert locked[i := Finished] == old(callbacks)[i := Finished];
      ThreeParts(old(trace), [LockShared(i)], Queues(i, order), [UnlockShared(i)]);
    }

    method LockIndexShared(i: nat, user: User, text: string)
      requires Valid() && i < |redis| == |callbacks| && callbacks[i].Entered? && writer.Nobody?
      requires redis[i].listener == PubSub.Calling(UserChannel(user), text)
      modifies this`callbacks, this`trace
      ensures Valid() && trace == old(trace) + [LockShared(i)]
      ensures callbacks == old(callbacks)[i := Queueing(Delivery(user, text), Online(Now(), user))]
    {
      ChannelOfUser(user, UserChannel(user));
      Took(LockShared(i));
      trace := trace + [LockShared(i)];
      callbacks := callbacks[i := Queueing(Delivery(user, text), Online(Now(), user))];
    }

    method QueueToLoops(i: nat, d: Delivery, targets: set<Loop>) returns (ghost order: seq<Loop>)
      requires Valid() && targets <= loops.Keys && i < |callbacks| && callbacks[i] == Queueing(d, targets)
      modifies this`loops, this`callbacks, this`trace
      ensures Valid() && trace == old(trace) + Queues(i, order) + [UnlockShared(i)]
      ensures callbacks == old(callbacks)[i := Finished] && Queued(old(loops), loops, targets, d)
    {
      var todo := targets;
      order := [];
      while todo != {}
        invariant Valid() && trace == old(trace) + Queues(i, order)
        invariant todo <= targets <= loops.Keys
        invariant callbacks == old(callbacks)[i := Queueing(d, todo)]
        invariant Queued(old(loops), loops, targets - todo, d)
        decreases |todo|
      {
        var l :| l in todo;
        order := QueueNext(i, l, d, todo, old(loops), targets, old(callbacks), old(trace), order);
        todo := todo - {l};
      }
      assert targets - todo == targets;
      UnlockIndexShared(i, d);
      Overwritten(old(callbacks), i, Queueing(d, {}), Finished);
    }

    method UnlockIndexShared(i: nat, d: Delivery)
      requires Valid() && i < |callbacks| && callbacks[i] == Queueing(d, {})
      modifies this`callbacks, this`trace
      ensures Valid() && trace == old(trace) + [UnlockShared(i)] && callbacks == old(callbacks)[i := Finished]
    {
      Took(UnlockShared(i));
      trace := trace + [UnlockShared(i)];
      callbacks := callbacks[i := Finished];
    }

    method QueueNext(i: nat, l: Loop, d: Delivery, todo: set<Loop>, ghost first: map<Loop, LoopState>, ghost targets: set<Loop>,
                     ghost waiting: seq<Callback>, ghost steps: seq<Action>, ghost before: seq<Loop>)
      returns (ghost order: seq<Loop>)
      requires Valid() && trace == steps + Queues(i, before)
      requires l in todo && todo <= targets <= loops.Keys
      requires i < |waiting| && callbacks == waiting[i := Queueing(d, todo)]
      requires Queued(first, loops, targets - todo, d)
      modifies this`loops, this`callbacks, this`trace
      ensures Valid() && trace == steps + Queues(i, order)
      ensures callbacks == waiting[i := Queueing(d, todo - {l})]
      ensures loops.Keys == old(loops).Keys && Queued(first, loops, targets - (todo - {l}), d)
    {
      QueueInLoop(i, l, d, todo);
      order := before + [l];
      assert Queues(i, order) == Queues(i, before) + [QueueTo(i, l)];
      QueuedOneMore(first, old(loops), loops, targets - todo, l, d);
      assert targets - todo + {l} == targets - (todo - {l});
    }

    method QueueInLoop(i: nat, l: Loop, d: Delivery, todo: set<Loop>)
      requires Valid() && i < |callbacks| && l in loops && l in todo && callbacks[i] == Queueing(d, todo)
      modifies this`loops, this`callbacks, this`trace
      ensures Valid() && trace == old(trace) + [QueueTo(i, l)]
      ensures loops == old(loops)[l := old(loops)[l].(queue := old(loops)[l].queue + [d])]
      ensures callbacks == old(callbacks)[i := Queueing(d, todo - {l})]
    {
      Took(QueueTo(i, l));
      trace := trace + [QueueTo(i, l)];
      loops := loops[l := loops[l].(queue := loops[l].queue + [d])];
      callbacks := callbacks[i := Queueing(d, todo - {l})];
    }

    /** The loop's next functor: the message goes to every connection the loop holds under the user, in any order. */
    method SendTextMessage(l: Loop) returns (ghost order: seq<Conn>)
      requires Valid() && IsDoing(Now(), l, Idle) && loops[l].queue != []
      modifies this`loops, this`received, this`trace
      ensures Valid() && trace == old(trace) + [Begin(l)] + Sends(l, order) + [End(l)]
      ensures loops == old(loops)[l := old(loops)[l].(queue := old(loops)[l].queue[1..])]
      ensures received.Keys == old(received.Keys)
      ensures var d := old(loops)[l].queue[0];
              forall c :: c in received ==>
                received[c] == old(received)[c] + if c in Local(old(Now()), l, d.user) then [d] else []
    {
      var d := loops[l].queue[0];
      var targets := Local(Now(), l, d.user);
      TargetsKnown(l, d.user);
      BeginSending(l, d, targets);
      ghost var begun := loops;
      order := SendToAll(l, d, targets);
      assert begun[l := begun[l].(doing := Idle)] == old(loops)[l := old(loops)[l].(queue := old(loops)[l].queue[1..])];
    }

    lemma TargetsKnown(l: Loop, user: User)
      requires Valid() && l in loops
      ensures Local(Now(), l, user) <= received.Keys
    {
      Reachable();
      assert user in loops[l].local ==> LocalOk(Now(), l, user);
    }

    method BeginSending(l: Loop, d: Delivery, targets: set<Conn>)
      requires Valid() && IsDoing(Now(), l, Idle) && loops[l].queue != [] && d == loops[l].queue[0]
      requires targets == Local(Now(), l, d.user)
      modifies this`loops, this`trace
      ensures Valid() && trace == old(trace) + [Begin(l)]
      ensures loops == old(loops)[l := old(loops)[l].(queue := old(loops)[l].queue[1..], doing := Sending(d, targets))]
    {
      Took(Begin(l));
      trace := trace + [Begin(l)];
      loops := loops[l := loops[l].(queue := loops[l].queue[1..], doing := Sending(d, targets))];
    }

    method SendToAll(l: Loop, d: Delivery, targets: set<Conn>) returns (ghost order: seq<Conn>)
      requires Valid() && l in loops && loops[l].doing == Sending(d, targets) && targets <= received.Keys
      modifies this`loops, this`received, this`trace
      ensures Valid() && trace == old(trace) + Sends(l, order) + [End(l)]
      ensures loops == old(loops)[l := old(loops)[l].(doing := Idle)] && received.Keys == old(received.Keys)
      ensures forall c :: c in received ==> received[c] == old(received)[c] + if c in targets then [d] else []
    {
      var todo := targets;
      order := [];
      while todo != {}
        invariant Valid() && trace == old(trace) + Sends(l, order)
        invariant todo <= targets <= received.Keys == old(received.Keys)
        invariant forall c :: c in received ==> received[c] == old(received)[c] + if c in targets - todo then [d] else []
        invariant loops == old(loops)[l := old(loops)[l].(doing := Sending(d, todo))]
        decreases |todo|
      {
        var c :| c in todo;
        order := SendOne(l, d, c, todo, old(loops), old(trace), order);
        todo := todo - {c};
      }
      EndSending(l, d, old(loops));
    }

    method EndSending(l: Loop, d: Delivery, ghost first: map<Loop, LoopState>)
      requires Valid() && l in first && loops == first[l := first[l].(doing := Sending(d, {}))]
      modifies this`loops, this`trace
      ensures Valid() && trace == old(trace) + [End(l)] && loops == first[l := first[l].(doing := Idle)]
    {
      Took(End(l));
      trace := trace + [End(l)];
      Goto(l, Idle);
    }

    method SendOne(l: Loop, d: Delivery, c: Conn, todo: set<Conn>, ghost first: map<Loop, LoopState>,
                   ghost steps: seq<Action>, ghost before: seq<Conn>)
      returns (ghost order: seq<Conn>)
      requires Valid() && trace == steps + Sends(l, before)
      requires l in first && loops == first[l := first[l].(doing := Sending(d, todo))] && c in todo && c in received
      modifies this`loops, this`received, this`trace
      ensures Valid() && trace == steps + Sends(l, order)
      ensures received == old(received)[c := old(received)[c] + [d]]
      ensures loops == first[l := first[l].(doing := Sending(d, todo - {c}))]
    {
      Took(Send(l, c));
      trace := trace + [Send(l, c)];
      order := before + [c];
      assert Sends(l, order) == Sends(l, before) + [Send(l, c)];
      received := received[c := received[c] + [d]];
      Goto(l, Sending(d, todo - {c}));
    }
  }

  lemma Overwritten(callbacks: seq<Callback>, i: nat, a: Callback, b: Callback)
    requires i < |callbacks|
    ensures callbacks[i := a][i := b] == callbacks[i := b]
  {
  }

  /** Each of the targets has one more functor in its queue, and nothing else is different. */
  ghost predicate Queued(before: map<Loop, LoopState>, after: map<Loop, LoopState>, targets: set<Loop>, d: Delivery)
  {
    && after.Keys == before.Keys
    && forall l :: l in before ==>
         after[l] == if l in targets then before[l].(queue := before[l].queue + [d]) else before[l]
  }

  lemma QueuedOneMore(before: map<Loop, LoopState>, mid: map<Loop, LoopState>, after: map<Loop, LoopState>,
                      targets: set<Loop>, l: Loop, d: Delivery)
    requires Queued(before, mid, targets, d) && l in mid && l !in targets
    requires after == mid[l := mid[l].(queue := mid[l].queue + [d])]
    ensures Queued(before, after, targets + {l}, d)
  {
  }

  lemma YieldStaysOutside(s: State, t: State, l: Loop)
    requires Held(s, t, l) && NotInside(s, l)
    ensures NotInside(t, l)
  {
    forall k | 0 <= k < |t.redis|
      ensures l !in t.redis[k].calls
    {
      assert SameCall(s.redis[k], t.redis[k], l);
    }
  }

  lemma KeptTwice(s: State, t: State, u: State, l: Loop)
    requires Kept(s, t, l) && Kept(t, u, l)
    ensures Kept(s, u, l)
  {
    forall k | 0 <= k < |s.redis|
      ensures PubSub.Requested(u.redis[k]) == PubSub.Requested(s.redis[k])
    {
      assert PubSub.Requested(t.redis[k]) == PubSub.Requested(s.redis[k]);
    }
  }

  lemma AskedAfterLeave(s: State, t: State, u: State, l: Loop, i: nat, command: PubSub.Command)
    requires Asked(s, t, l, i, command)
    requires u.writer == t.writer && u.online == t.online && |u.redis| == |t.redis|
    requires l in u.loops && u.loops[l].local == t.loops[l].local
    requires forall k {:trigger u.redis[k]} :: 0 <= k < |u.redis| ==> PubSub.Requested(u.redis[k]) == PubSub.Requested(t.redis[k])
    ensures Asked(s, u, l, i, command)
  {
    forall k | 0 <= k < |s.redis|
      ensures PubSub.Requested(u.redis[k])
           == if k == i then PubSub.Applied(PubSub.Requested(s.redis[k]), command) else PubSub.Requested(s.redis[k])
    {
      assert PubSub.Requested(u.redis[k]) == PubSub.Requested(t.redis[k]);
    }
  }

  lemma FourSteps(before: seq<Action>, a: Action, b: Action, c: Action, d: Action)
    ensures before + [a] + [b, c, d] == before + [a, b, c, d]
  {
  }

  /** The command has been written to the first instances, and to no other. */
  ghost predicate Everywhere(s: State, t: State, l: Loop, upTo: nat, command: PubSub.Command)
  {
    && t.writer == s.writer && t.online == s.online && |t.redis| == |s.redis|
    && l in s.loops && l in t.loops && t.loops[l].local == s.loops[l].local
    && forall k {:trigger t.redis[k]} {:trigger s.redis[k]} :: 0 <= k < |s.redis| ==>
         PubSub.Requested(t.redis[k])
         == if k < upTo then PubSub.Applied(PubSub.Requested(s.redis[k]), command) else PubSub.Requested(s.redis[k])
  }

  lemma OneMoreInstance(s: State, t: State, u: State, l: Loop, i: nat, command: PubSub.Command)
    requires Everywhere(s, t, l, i, command) && Asked(t, u, l, i, command)
    ensures Everywhere(s, u, l, i + 1, command)
  {
    forall k | 0 <= k < |s.redis|
      ensures PubSub.Requested(u.redis[k])
           == if k < i + 1 then PubSub.Applied(PubSub.Requested(s.redis[k]), command) else PubSub.Requested(s.redis[k])
    {
      assert PubSub.Requested(t.redis[k])
          == if k < i then PubSub.Applied(PubSub.Requested(s.redis[k]), command) else PubSub.Requested(s.redis[k]);
    }
  }

  lemma ThreeParts(a: seq<Action>, b: seq<Action>, c: seq<Action>, d: seq<Action>)
    ensures a + b + c + d == a + (b + c + d)
  {
  }
}
