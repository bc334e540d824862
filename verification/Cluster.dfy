/** Several servers on the same Redis instances: a publish by anybody reaches the connection that every server
    holds to that instance. */
module Cluster {
  import PubSub
  import ChatServer
  import Tracing
  import Progress
  import Arrival

  datatype Action =
    | At(server: nat, action: ChatServer.Action)     // a step of one server, anything but a publish of a message
    | PublishOn(instance: nat, channel: PubSub.Channel, text: string)   // by any server's thread, or a client of Redis

  type State = seq<ChatServer.State>

  datatype View = Acts(action: ChatServer.Action) | Unaffected

  /** What a cluster action is for the server k. A waiting thread's unlock message wakes all listeners. */
  function ViewOf(cluster: State, a: Action, k: nat): View
  {
    match a
    case PublishOn(i, channel, text) => Acts(ChatServer.Redis(i, PubSub.Publish(channel, text)))
    case At(j, b) =>
      if b.Redis? && b.action.Publish? then Unaffected
      else if j == k then Acts(b)
      else if b.Redis? && b.action.GiveUp? && j < |cluster| && ChatServer.Enabled(cluster[j], b) then
        Acts(ChatServer.Redis(b.instance, PubSub.Publish(PubSub.UNLOCK_CHANNEL, "unlock")))
      else Unaffected
  }

  function Next(cluster: State, a: Action): (after: State)
    ensures |after| == |cluster|
  {
    seq(|cluster|, k requires 0 <= k < |cluster| =>
      var view := ViewOf(cluster, a, k);
      if view.Acts? then ChatServer.Next(cluster[k], view.action) else cluster[k])
  }

  function Exec(cluster: State, run: seq<Action>): (after: State)
    ensures |after| == |cluster|
    decreases |run|
  {
    if run == [] then cluster else Next(Exec(cluster, run[..|run| - 1]), run[|run| - 1])
  }

  function Initial(servers: nat, instances: nat): (cluster: State)
    ensures |cluster| == servers
  {
    seq(servers, _ => ChatServer.Initial(instances))
  }

  /** The part of a run that the server k takes part in. */
  function Project(cluster: State, run: seq<Action>, k: nat): seq<ChatServer.Action>
    decreases |run|
  {
    if run == [] then []
    else
      var front := run[..|run| - 1];
      var view := ViewOf(Exec(cluster, front), run[|run| - 1], k);
      if view.Acts? then Project(cluster, front, k) + [view.action] else Project(cluster, front, k)
  }

  /** Each server of a cluster behaves as a server alone, among publishes from outside. */
  lemma {:induction false} ServersBehave(cluster: State, run: seq<Action>, k: nat)
    requires k < |cluster|
    ensures Exec(cluster, run)[k] == ChatServer.Exec(cluster[k], Project(cluster, run, k))
    decreases |run|
  {
    if run != [] {
      var front := run[..|run| - 1];
      ServersBehave(cluster, front, k);
      var view := ViewOf(Exec(cluster, front), run[|run| - 1], k);
      if view.Acts? {
        var projected := Project(cluster, front, k);
        assert (projected + [view.action])[..|projected|] == projected;
      }
    }
  }

  /** A caller that waits for its mutex wakes the listeners of every server on that Redis: each that is subscribed to the
      unlock channel gets one more reply. */
  lemma UnlockWakesEverybody(cluster: State, j: nat, i: nat, t: PubSub.Thread, k: nat)
    requires j < |cluster| && k < |cluster| && ChatServer.Enabled(cluster[j], ChatServer.Redis(i, PubSub.GiveUp(t)))
    requires |cluster[k].redis| == |cluster[k].callbacks| && i < |cluster[k].redis|
    requires PubSub.UNLOCK_CHANNEL in cluster[k].redis[i].subscriptions
    ensures var after := Next(cluster, At(j, ChatServer.Redis(i, PubSub.GiveUp(t))));
            && i < |after[k].redis|
            && after[k].redis[i].replies == cluster[k].redis[i].replies + [PubSub.Message(PubSub.UNLOCK_CHANNEL, "unlock")]
  {
  }

  /** How many times anybody publishes the message for its user, on any of the instances. */
  function PublishedCount(run: seq<Action>, instances: nat, d: ChatServer.Delivery): nat
    decreases |run|
  {
    if run == [] then 0
    else
      var a := run[|run| - 1];
      PublishedCount(run[..|run| - 1], instances, d)
      + if a.PublishOn? && a.instance < instances
           && a.channel == ChatServer.UserChannel(d.user) && a.text == d.text then 1 else 0
  }

  /** A server sees a publish of the message exactly when somebody makes one. */
  lemma ViewOfPublish(cluster: State, a: Action, k: nat, s: ChatServer.State, d: ChatServer.Delivery)
    ensures var view := ViewOf(cluster, a, k);
            view.Acts? && Tracing.Publishes(s, view.action, d) <==>
              a.PublishOn? && a.instance < |s.redis| && a.channel == ChatServer.UserChannel(d.user) && a.text == d.text
  {
    ChatServer.ChannelOfUser(d.user, PubSub.UNLOCK_CHANNEL);
  }

  lemma CountSnoc(s: ChatServer.State, run: seq<ChatServer.Action>, a: ChatServer.Action, d: ChatServer.Delivery)
    ensures Tracing.PublishedCount(s, run + [a], d)
         == Tracing.PublishedCount(s, run, d) + if Tracing.Publishes(s, a, d) then 1 else 0
  {
    assert (run + [a])[..|run|] == run;
  }

  lemma {:induction false} PublishedToEach(cluster: State, run: seq<Action>, k: nat, d: ChatServer.Delivery)
    requires k < |cluster|
    ensures Tracing.PublishedCount(cluster[k], Project(cluster, run, k), d)
         == PublishedCount(run, |cluster[k].redis|, d)
    decreases |run|
  {
    if run != [] {
      var front, a := run[..|run| - 1], run[|run| - 1];
      PublishedToEach(cluster, front, k, d);
      ViewOfPublish(Exec(cluster, front), a, k, cluster[k], d);
      var view := ViewOf(Exec(cluster, front), a, k);
      if view.Acts? {
        CountSnoc(cluster[k], Project(cluster, front, k), view.action, d);
      }
    }
  }

  /** The connection is logged in as the user in every state of the run. */
  ghost predicate LoggedInThroughout(cluster: State, run: seq<Action>, k: nat,
                                     l: ChatServer.Loop, c: ChatServer.Conn, user: string)
    requires k < |cluster|
    decreases |run|
  {
    Tracing.LoggedIn(Exec(cluster, run)[k], l, c, user)
    && (run == [] || LoggedInThroughout(cluster, run[..|run| - 1], k, l, c, user))
  }

  lemma {:induction false} LoggedInThroughoutAtServer(cluster: State, run: seq<Action>, k: nat,
                                                      l: ChatServer.Loop, c: ChatServer.Conn, user: string)
    requires k < |cluster| && LoggedInThroughout(cluster, run, k, l, c, user)
    ensures Tracing.StaysLoggedIn(cluster[k], Project(cluster, run, k), l, c, user)
    decreases |run|
  {
    ServersBehave(cluster, run, k);
    if run != [] {
      var front := run[..|run| - 1];
      LoggedInThroughoutAtServer(cluster, front, k, l, c, user);
      var view := ViewOf(Exec(cluster, front), run[|run| - 1], k);
      if view.Acts? {
        var projected := Project(cluster, front, k);
        assert (projected + [view.action])[..|projected|] == projected;
      }
    }
  }

  /** Exactly once across the cluster: in any interleaving of any number of servers, every connection that stays
      logged in as u, on whichever server, once the instances have executed that server's subscriptions to u's
      channel, gets one more copy of a message for every publish of it to u's
      channel, on whichever instance and by whichever server. */
  lemma ExactlyOnceEverywhere(servers: nat, instances: nat, before: seq<Action>, run: seq<Action>,
                              k: nat, l: ChatServer.Loop, c: ChatServer.Conn, d: ChatServer.Delivery)
    requires k < servers
    requires var s := Exec(Initial(servers, instances), before)[k];
             && Tracing.LoggedIn(s, l, c, d.user) && l in ChatServer.Online(s, d.user)
             && Tracing.SettledEverywhere(s, d.user)
    requires LoggedInThroughout(Exec(Initial(servers, instances), before), run, k, l, c, d.user)
    ensures var start := Exec(Initial(servers, instances), before);
            var s, t := start[k], Exec(start, run)[k];
            && ChatServer.Inv(s) && ChatServer.Inv(t) && Tracing.LoggedIn(t, l, c, d.user)
            && Tracing.Copies(t, l, c, d) == Tracing.Copies(s, l, c, d) + PublishedCount(run, instances, d)
  {
    var initial := Initial(servers, instances);
    var start := Exec(initial, before);
    ServersBehave(initial, before, k);
    ChatServer.InitialInv(instances);
    ChatServer.RunKeepsInv(initial[k], Project(initial, before, k));
    Tracing.InstancesStay(initial[k], Project(initial, before, k));
    ServersBehave(start, run, k);
    LoggedInThroughoutAtServer(start, run, k, l, c, d.user);
    Tracing.ExactlyOnce(start[k], Project(start, run, k), l, c, d);
    PublishedToEach(start, run, k, d);
  }

  // -------------------------------------------------------------------------------- arrival

  function OnServer(k: nat, run: seq<ChatServer.Action>): (lifted: seq<Action>)
    ensures |lifted| == |run|
  {
    seq(|run|, n requires 0 <= n < |run| => At(k, run[n]))
  }

  lemma {:induction false} ServerRun(cluster: State, k: nat, run: seq<ChatServer.Action>)
    requires k < |cluster| && Progress.NoRequests(run)
    ensures Exec(cluster, OnServer(k, run))[k] == ChatServer.Exec(cluster[k], run)
    decreases |run|
  {
    if run != [] {
      var n := |run| - 1;
      ServerRun(cluster, k, run[..n]);
      assert OnServer(k, run)[..n] == OnServer(k, run[..n]);
      assert Progress.NoRequest(run[n]);
    }
  }

  /** Whatever is on its way to a connection of any server of the cluster can arrive, and then the connection has
      received all its copies. */
  lemma CopiesCanArriveEverywhere(servers: nat, instances: nat, before: seq<Action>,
                                  k: nat, l: ChatServer.Loop, c: ChatServer.Conn, d: ChatServer.Delivery)
    returns (run: seq<Action>)
    requires k < servers
    requires var s := Exec(Initial(servers, instances), before)[k];
             Tracing.LoggedIn(s, l, c, d.user) && l in ChatServer.Online(s, d.user)
    ensures var start := Exec(Initial(servers, instances), before);
            var s, t := start[k], Exec(start, run)[k];
            && ChatServer.Inv(s) && c in t.received
            && Tracing.Received(t, c, d) == Tracing.Copies(s, l, c, d)
            && PublishedCount(run, instances, d) == 0
  {
    var initial := Initial(servers, instances);
    var start := Exec(initial, before);
    ServersBehave(initial, before, k);
    ChatServer.InitialInv(instances);
    ChatServer.RunKeepsInv(initial[k], Project(initial, before, k));
    var arriving := Arrival.CopiesCanArrive(start[k], l, c, d);
    ServerRun(start, k, arriving);
    run := OnServer(k, arriving);
    NothingPublished(run, instances, d);
  }

  lemma {:induction false} NothingPublished(run: seq<Action>, instances: nat, d: ChatServer.Delivery)
    requires forall n :: 0 <= n < |run| ==> run[n].At?
    ensures PublishedCount(run, instances, d) == 0
    decreases |run|
  {
    if run != [] {
      NothingPublished(run[..|run| - 1], instances, d);
    }
  }
}
