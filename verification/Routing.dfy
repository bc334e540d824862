/** Sending side of the distributed server: each message goes to one Redis, chosen round robin by each thread,
    and the others are tried in turn only as long as it fails. */
module Routing {
  import PubSub
  import opened ChatServer
  import Cluster

  type Thread = nat

  /** One publish that an instance accepted. */
  datatype Sent = Sent(instance: nat, channel: PubSub.Channel, text: string)

  /** Whether the connection to each instance works during a call of publish. */
  type Working = seq<bool>

  predicate SomeWorks(up: Working)
  {
    exists i :: 0 <= i < |up| && up[i]
  }

  function InstanceAt(up: Working, index: nat, steps: nat): (i: nat)
    requires |up| > 0
    ensures i < |up|
  {
    (index + steps) % |up|
  }

  function After(i: nat, n: nat): (next: nat)
    requires n > 0
    ensures next < n
  {
    (i + 1) % n
  }

  /** How many instances fail before the first that works, in cyclic order. */
  function Failures(up: Working, index: nat, steps: nat): nat
    requires |up| > 0
    decreases |up| - steps
  {
    if steps >= |up| || up[InstanceAt(up, index, steps)] then steps else Failures(up, index, steps + 1)
  }

  /** What publish appends to the instances' logs, and the thread's next index. */
  datatype Round = Round(sent: seq<Sent>, index: nat)

  function Route(up: Working, index: nat, channel: PubSub.Channel, text: string): Round
  {
    if SomeWorks(up) then
      var i := InstanceAt(up, index, Failures(up, index, 0));
      Round([Sent(i, channel, text)], After(i, |up|))
    else Round([], index)
  }

  lemma {:induction false} FailuresAreFirst(up: Working, index: nat, steps: nat)
    requires |up| > 0 && steps <= |up|
    ensures steps <= Failures(up, index, steps) <= |up|
    ensures forall k {:trigger InstanceAt(up, index, k)} ::
              steps <= k < Failures(up, index, steps) ==> !up[InstanceAt(up, index, k)]
    ensures Failures(up, index, steps) < |up| ==> up[InstanceAt(up, index, Failures(up, index, steps))]
    decreases |up| - steps
  {
    if steps < |up| && !up[InstanceAt(up, index, steps)] {
      FailuresAreFirst(up, index, steps + 1);
    }
  }

  lemma FailuresUnique(up: Working, index: nat, steps: nat)
    requires |up| > 0 && steps < |up| && up[InstanceAt(up, index, steps)]
    requires forall k {:trigger InstanceAt(up, index, k)} :: 0 <= k < steps ==> !up[InstanceAt(up, index, k)]
    ensures Failures(up, index, 0) == steps
  {
    FailuresAreFirst(up, index, 0);
    assert !(Failures(up, index, 0) < steps);
    assert !(steps < Failures(up, index, 0));
  }

  /** One round visits every instance. */
  lemma RoundVisits(up: Working, index: nat, i: nat) returns (steps: nat)
    requires i < |up| && index < |up|
    ensures steps < |up| && InstanceAt(up, index, steps) == i
  {
    steps := if i >= index then i - index else i + |up| - index;
    Wraps(i, |up|);
  }

  lemma Wraps(i: nat, n: nat)
    requires i < n
    ensures i % n == i && (i + n) % n == i
  {
  }

  lemma NextIndex(index: nat, steps: nat, n: nat)
    requires index < n && steps < n
    ensures ((index + steps) % n + 1) % n == (index + steps + 1) % n
  {
    var x := index + steps;
    if x < n {
      Wraps(x, n);
    } else {
      Wraps(x - n, n);
      if x + 1 - n < n {
        Wraps(x + 1 - n, n);
      }
    }
  }

  /** Publish tries each instance at most once: a message is accepted by exactly one instance, the first in
      cyclic order that works, if any works, and by none otherwise. */
  lemma RouteExactly(up: Working, index: nat, channel: PubSub.Channel, text: string)
    requires index < |up| || up == []
    ensures var r := Route(up, index, channel, text);
            && (SomeWorks(up) <==> |r.sent| == 1) && |r.sent| <= 1
            && (SomeWorks(up) ==>
                  && r.sent[0].channel == channel && r.sent[0].text == text && r.index == (r.sent[0].instance + 1) % |up|
                  && exists steps :: 0 <= steps < |up| && r.sent[0].instance == InstanceAt(up, index, steps) == (index + steps) % |up|
                       && up[r.sent[0].instance]
                       && forall k {:trigger InstanceAt(up, index, k)} ::
                            0 <= k < steps ==> !up[InstanceAt(up, index, k)])
            && (!SomeWorks(up) ==> r.index == index)
  {
    if i :| 0 <= i < |up| && up[i] {
      FailuresAreFirst(up, index, 0);
      var steps := RoundVisits(up, index, i);
      assert Failures(up, index, 0) < |up|;
    }
  }

  lemma RouteOfFirst(up: Working, index: nat, steps: nat, channel: PubSub.Channel, text: string)
    requires steps < |up| && up[InstanceAt(up, index, steps)]
    requires forall k {:trigger InstanceAt(up, index, k)} :: 0 <= k < steps ==> !up[InstanceAt(up, index, k)]
    ensures SomeWorks(up)
    ensures var i := InstanceAt(up, index, steps);
            Route(up, index, channel, text) == Round([Sent(i, channel, text)], After(i, |up|))
  {
    FailuresUnique(up, index, steps);
  }

  lemma NoneWorks(up: Working, index: nat)
    requires index < |up| || up == []
    requires forall k {:trigger InstanceAt(up, index, k)} :: 0 <= k < |up| ==> !up[InstanceAt(up, index, k)]
    ensures !SomeWorks(up)
  {
    forall i | 0 <= i < |up|
      ensures !up[i]
    {
      var steps := RoundVisits(up, index, i);
    }
  }

  // -------------------------------------------------------------------- a group's messages

  /** A message to all members of a group: one publish each, in order. */
  function RouteAll(ups: seq<Working>, index: nat, members: seq<User>, text: string): Round
    requires |ups| == |members|
    decreases |members|
  {
    if members == [] then Round([], index)
    else
      var n := |members| - 1;
      var before := RouteAll(ups[..n], index, members[..n], text);
      var last := Route(ups[n], before.index, UserChannel(members[n]), text);
      Round(before.sent + last.sent, last.index)
  }

  predicate Distinct(members: seq<User>)
  {
    forall i, j :: 0 <= i < j < |members| ==> members[i] != members[j]
  }

  ghost predicate Reached(ups: seq<Working>, members: seq<User>, user: User)
    requires |ups| == |members|
  {
    exists k :: 0 <= k < |members| && members[k] == user && SomeWorks(ups[k])
  }

  /** The publishes of a log as what the servers see of them. */
  function Published(sent: seq<Sent>): (run: seq<Cluster.Action>)
    ensures |run| == |sent|
  {
    seq(|sent|, k requires 0 <= k < |sent| => Cluster.PublishOn(sent[k].instance, sent[k].channel, sent[k].text))
  }

  lemma PublishedSnoc(sent: seq<Sent>, instances: nat, d: Delivery)
    requires sent != []
    ensures var n := |sent| - 1;
            Cluster.PublishedCount(Published(sent), instances, d)
            == Cluster.PublishedCount(Published(sent[..n]), instances, d)
             + if sent[n].instance < instances && sent[n].channel == UserChannel(d.user)
                  && sent[n].text == d.text then 1 else 0
  {
    assert Published(sent)[..|sent| - 1] == Published(sent[..|sent| - 1]);
  }

  /** A group message is one publish for each member that some instance can be reached for, and none for
      anybody else. */
  lemma {:induction false} GroupReachesEachMemberOnce(ups: seq<Working>, index: nat, members: seq<User>, text: string,
                                                      instances: nat, user: User)
    requires |ups| == |members| && Distinct(members) && (index < instances || instances == 0)
    requires forall k {:trigger ups[k]} :: 0 <= k < |ups| ==> |ups[k]| == instances
    ensures var r := RouteAll(ups, index, members, text);
            && (r.index < instances || instances == 0)
            && Cluster.PublishedCount(Published(r.sent), instances, Delivery(user, text))
               == if Reached(ups, members, user) then 1 else 0
    decreases |members|
  {
    if members != [] {
      var n := |members| - 1;
      var before := RouteAll(ups[..n], index, members[..n], text);
      GroupReachesEachMemberOnce(ups[..n], index, members[..n], text, instances, user);
      RouteExactly(ups[n], before.index, UserChannel(members[n]), text);
      var last := Route(ups[n], before.index, UserChannel(members[n]), text);
      OneMoreMember(ups, members, user);
      if last.sent != [] {
        PublishedSnoc(before.sent + last.sent, instances, Delivery(user, text));
        assert (before.sent + last.sent)[..|before.sent|] == before.sent;
        if UserChannel(members[n]) == UserChannel(user) {
          ChannelsDiffer(members[n], user);
        }
      } else {
        assert before.sent + last.sent == before.sent;
      }
    }
  }

  lemma OneMoreMember(ups: seq<Working>, members: seq<User>, user: User)
    requires |ups| == |members| > 0 && Distinct(members)
    ensures var n := |members| - 1;
            && (Reached(ups, members, user) <==>
                  Reached(ups[..n], members[..n], user) || (members[n] == user && SomeWorks(ups[n])))
            && !(Reached(ups[..n], members[..n], user) && members[n] == user)
  {
    var n := |members| - 1;
    if Reached(ups[..n], members[..n], user) {
      var k :| 0 <= k < n && members[..n][k] == user && SomeWorks(ups[..n][k]);
      assert members[k] == user && SomeWorks(ups[k]);
    }
    if Reached(ups, members, user) {
      var k :| 0 <= k < |members| && members[k] == user && SomeWorks(ups[k]);
      assert k < n ==> members[..n][k] == user && SomeWorks(ups[..n][k]);
    }
  }

  /** With every instance working, a thread's messages go to the instances in turn. */
  lemma {:induction false} RoundRobin(ups: seq<Working>, index: nat, members: seq<User>, text: string, instances: nat)
    requires |ups| == |members| && index < instances
    requires forall k {:trigger ups[k]} :: 0 <= k < |ups| ==> |ups[k]| == instances && forall i :: 0 <= i < instances ==> ups[k][i]
    ensures var sent := RouteAll(ups, index, members, text).sent;
            && |sent| == |members|
            && (sent != [] ==> sent[0].instance == index)
            && (forall k :: 0 <= k < |sent| ==> sent[k].channel == UserChannel(members[k]) && sent[k].text == text)
            && (forall k :: 0 <= k < |sent| - 1 ==> sent[k + 1].instance == (sent[k].instance + 1) % instances)
            && RouteAll(ups, index, members, text).index
               == if sent == [] then index else After(sent[|sent| - 1].instance, instances)
    decreases |members|
  {
    if members != [] {
      var n := |members| - 1;
      RoundRobin(ups[..n], index, members[..n], text, instances);
      var before := RouteAll(ups[..n], index, members[..n], text);
      assert before.index < instances;
      assert ups[n][0];
      Wraps(before.index, instances);
    }
  }

  // ------------------------------------------------------------------------------ server

  datatype Target = ToUser(user: User) | ToGroup(group: string) | Unrecognized

  datatype Response = Response(success: bool, error: string)

  /** SMEMBERS replies with an array, or with an error. */
  datatype Members = Array(members: seq<User>) | NotAnArray

  class Sender {
    const instances: nat
    var sent: seq<Sent>                       // accepted by the instances so far, in order
    var index: map<Thread, nat>               // publish's own index of each thread
    var tasks: seq<(string, string)>          // group messages handed to the thread pool

    ghost predicate Valid()
      reads this`index
    {
      forall t :: t in index ==> index[t] < instances || instances == 0
    }

    function IndexOf(thread: Thread): nat
      reads this`index
    {
      if thread in index then index[thread] else 0
    }

    constructor (instances: nat)
      ensures Valid() && this.instances == instances && sent == [] && tasks == []
      ensures forall t :: IndexOf(t) == 0
    {
      this.instances := instances;
      sent, index, tasks := [], map[], [];
    }

    method Publish(thread: Thread, channel: PubSub.Channel, text: string, up: Working) returns (ok: bool)
      requires Valid() && |up| == instances
      modifies this`sent, this`index
      ensures Valid()
      ensures ok <==> SomeWorks(up)
      ensures var r := Route(up, old(IndexOf(thread)), channel, text);
              sent == old(sent) + r.sent && IndexOf(thread) == r.index
      ensures forall t :: t != thread ==> IndexOf(t) == old(IndexOf(t))
    {
      var start := IndexOf(thread);
      var at, i := start, 0;
      while i < instances
        invariant sent == old(sent) && index == old(index)
        invariant i <= instances && (if instances == 0 then at == start else at == InstanceAt(up, start, i))
        invariant forall k {:trigger InstanceAt(up, start, k)} :: 0 <= k < i ==> !up[InstanceAt(up, start, k)]
      {
        if up[at] {
          RouteOfFirst(up, start, i, channel, text);
          sent := sent + [Sent(at, channel, text)];
          index := index[thread := After(at, instances)];
          return true;
        }
        NextIndex(start, i, instances);
        at := After(at, instances);
        i := i + 1;
      }
      NoneWorks(up, start);
      if instances > 0 {
        Wraps(start, instances);
      }
      index := index[thread := at];
      ok := false;
    }

    /** A message to a user is published and reported as sent whether or not any instance accepted it; one to
        a group is handed on and answered later. */
    method OnTextMessage(thread: Thread, target: Target, text: string, up: Working) returns (answered: bool, response: Response)
      requires Valid() && |up| == instances
      modifies this
      ensures Valid()
      ensures sent == old(sent) + match target
                                  case ToUser(user) =>
                                    Route(up, old(IndexOf(thread)), UserChannel(user), text).sent
                                  case _ => []
      ensures tasks == old(tasks) + if target.ToGroup? then [(target.group, text)] else []
      ensures answered <==> !target.ToGroup?
      ensures answered ==> response == (if target.ToUser? then Response(true, "") else Response(false, "Invalid target type"))
      ensures target.ToUser? ==> (sent != old(sent) <==> SomeWorks(up))
    {
      answered, response := true, Response(false, "");
      match target {
        case ToUser(user) =>
          var ok := Publish(thread, UserChannel(user), text, up);
          response := Response(true, "");
        case ToGroup(group) =>
          tasks := tasks + [(group, text)];
          answered := false;
        case Unrecognized =>
          response := Response(false, "Invalid target type");
      }
    }

    /** One publish for each member, in the order of the reply. */
    method ProcessGroupMessage(thread: Thread, reply: Members, text: string, ups: seq<Working>) returns (response: Response)
      requires Valid()
      requires reply.Array? ==> |ups| == |reply.members|
      requires forall k {:trigger ups[k]} :: 0 <= k < |ups| ==> |ups[k]| == instances
      modifies this`sent, this`index
      ensures Valid()
      ensures reply.Array? ==>
                sent == old(sent) + RouteAll(ups, old(IndexOf(thread)), reply.members, text).sent
      ensures reply.NotAnArray? ==> sent == old(sent)
      ensures response == match reply
                          case NotAnArray => Response(false, "Error executing SMEMBERS command")
                          case Array(members) =>
                            if members == [] then Response(false, "Target group not found") else Response(true, "")
    {
      match reply {
        case NotAnArray =>
          response := Response(false, "Error executing SMEMBERS command");
        case Array(members) =>
          if members == [] {
            response := Response(false, "Target group not found");
          } else {
            var i := 0;
            while i < |members|
              invariant i <= |members| && Valid()
              invariant var r := RouteAll(ups[..i], old(IndexOf(thread)), members[..i], text);
                        sent == old(sent) + r.sent && IndexOf(thread) == r.index
            {
              assert ups[..i + 1][..i] == ups[..i] && members[..i + 1][..i] == members[..i];
              var ok := Publish(thread, UserChannel(members[i]), text, ups[i]);
              i := i + 1;
            }
            assert ups[..i] == ups && members[..i] == members;
            response := Response(true, "");
          }
      }
    }
  }
}
