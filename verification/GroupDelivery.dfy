/** A group message from end to end: the group's set in Redis, one publish for each member, the instances, the
    servers' listeners and loops, and each member's connections. */
module GroupDelivery {
  import ChatServer
  import Tracing
  import Cluster
  import Groups
  import Routing

  // ------------------------------------------------------ one message among other traffic

  /** The actions at the given positions of a run, in order. */
  function At(run: seq<Cluster.Action>, positions: set<nat>): seq<Cluster.Action>
    decreases |run|
  {
    if run == [] then []
    else
      var n := |run| - 1;
      if n in positions then At(run[..n], positions) + [run[n]] else At(run[..n], positions)
  }

  /** The actions at all other positions. */
  function Besides(run: seq<Cluster.Action>, positions: set<nat>): seq<Cluster.Action>
    decreases |run|
  {
    if run == [] then []
    else
      var n := |run| - 1;
      if n in positions then Besides(run[..n], positions) else Besides(run[..n], positions) + [run[n]]
  }

  lemma CountSnoc(run: seq<Cluster.Action>, a: Cluster.Action, instances: nat, d: ChatServer.Delivery)
    ensures Cluster.PublishedCount(run + [a], instances, d)
         == Cluster.PublishedCount(run, instances, d) + Cluster.PublishedCount([a], instances, d)
  {
    assert (run + [a])[..|run|] == run;
    assert [a][..0] == [];
  }

  /** Publishes are counted apart. */
  lemma {:induction false} CountsAddUp(run: seq<Cluster.Action>, positions: set<nat>, instances: nat, d: ChatServer.Delivery)
    ensures Cluster.PublishedCount(run, instances, d)
         == Cluster.PublishedCount(At(run, positions), instances, d)
          + Cluster.PublishedCount(Besides(run, positions), instances, d)
    decreases |run|
  {
    if run != [] {
      var n := |run| - 1;
      CountsAddUp(run[..n], positions, instances, d);
      assert run == run[..n] + [run[n]];
      CountSnoc(run[..n], run[n], instances, d);
      CountSnoc(At(run[..n], positions), run[n], instances, d);
      CountSnoc(Besides(run[..n], positions), run[n], instances, d);
    }
  }

  // --------------------------------------------------------------------- the group's members

  /** What SMEMBERS replies for a group is its members, by the relation that both families of sets show. */
  lemma ReplyIsMembers(reply: seq<string>, store: Groups.Store, r: Groups.Relation, group: string, user: string)
    requires Groups.Shows(store, r) && Groups.Lists(reply, store, Groups.GroupKey(group))
    ensures Routing.Distinct(reply) && (user in reply <==> Groups.Member(group, user) in r)
  {
    assert Groups.ShowsMember(store, r, group, user);
  }

  /** Every attempt to publish finds some instance working. */
  ghost predicate AllWork(ups: seq<Routing.Working>)
  {
    forall k {:trigger ups[k]} :: 0 <= k < |ups| ==> Routing.SomeWorks(ups[k])
  }

  lemma ReachedExactly(members: seq<string>, ups: seq<Routing.Working>, user: string)
    requires |ups| == |members|
    ensures Routing.Reached(ups, members, user) ==> user in members
    ensures AllWork(ups) && user in members ==> Routing.Reached(ups, members, user)
  {
    if AllWork(ups) && user in members {
      var k :| 0 <= k < |members| && members[k] == user;
      assert Routing.SomeWorks(ups[k]);
    }
  }

  /** In any interleaving of any number of servers, and among any other publishes, every connection that stays
      logged in as u, on whichever server, gets one copy for each of the others, and on account of the group
      message exactly one more if some instance accepted the publish for u. That is the case only for members,
      and for all of them unless all instances failed. */
  lemma GroupMessageReachesExactlyItsMembers(
    servers: nat, instances: nat, before: seq<Cluster.Action>, run: seq<Cluster.Action>, positions: set<nat>,
    store: Groups.Store, r: Groups.Relation, group: string, reply: seq<string>,
    ups: seq<Routing.Working>, index: nat, text: string,
    k: nat, l: ChatServer.Loop, c: ChatServer.Conn, user: string)
    requires k < servers
    requires var s := Cluster.Exec(Cluster.Initial(servers, instances), before)[k];
             && Tracing.LoggedIn(s, l, c, user) && l in ChatServer.Online(s, user)
             && Tracing.SettledEverywhere(s, user)
    requires Cluster.LoggedInThroughout(Cluster.Exec(Cluster.Initial(servers, instances), before), run, k, l, c, user)
    // the sender's SMEMBERS, and its publishes among the actions of the run
    requires Groups.Shows(store, r) && Groups.Lists(reply, store, Groups.GroupKey(group))
    requires |ups| == |reply| && (index < instances || instances == 0)
    requires forall n {:trigger ups[n]} :: 0 <= n < |ups| ==> |ups[n]| == instances
    requires At(run, positions) == Routing.Published(Routing.RouteAll(ups, index, reply, text).sent)
    ensures var start := Cluster.Exec(Cluster.Initial(servers, instances), before);
            var s, t, d := start[k], Cluster.Exec(start, run)[k], ChatServer.Delivery(user, text);
            && ChatServer.Inv(s) && ChatServer.Inv(t) && Tracing.LoggedIn(t, l, c, user)
            && Tracing.Copies(t, l, c, d)
               == Tracing.Copies(s, l, c, d) + Cluster.PublishedCount(Besides(run, positions), instances, d)
                  + (if Routing.Reached(ups, reply, user) then 1 else 0)
            && (Routing.Reached(ups, reply, user) ==> Groups.Member(group, user) in r)
            && (AllWork(ups) && Groups.Member(group, user) in r ==> Routing.Reached(ups, reply, user))
  {
    var d := ChatServer.Delivery(user, text);
    Cluster.ExactlyOnceEverywhere(servers, instances, before, run, k, l, c, d);
    CountsAddUp(run, positions, instances, d);
    ReplyIsMembers(reply, store, r, group, user);
    Routing.GroupReachesEachMemberOnce(ups, index, reply, text, instances, user);
    ReachedExactly(reply, ups, user);
  }
}
