/** Group membership: two families of Redis sets, kept as inverse relations by onGroupRequest. */
module Groups {

  // ------------------------------------------------------------------------- Redis

  /** The sets stored under their keys. Redis drops a set when its last member goes. */
  type Store = map<string, set<string>>

  function Members(store: Store, key: string): set<string>
  {
    if key in store then store[key] else {}
  }

  predicate NoEmptySets(store: Store)
  {
    forall key :: key in store ==> store[key] != {}
  }

  /** The store after SADD. */
  function Added(store: Store, key: string, member: string): Store
  {
    store[key := Members(store, key) + {member}]
  }

  /** The store after SREM. */
  function Removed(store: Store, key: string, member: string): Store
  {
    var left := Members(store, key) - {member};
    if left == {} then store - {key} else store[key := left]
  }

  /** A reply to SMEMBERS: the members, each once, in an order of Redis's choosing. */
  ghost predicate Lists(reply: seq<string>, store: Store, key: string)
  {
    && (forall x :: x in reply <==> x in Members(store, key))
    && (forall i, j :: 0 <= i < j < |reply| ==> reply[i] != reply[j])
  }

  class Redis {
    var store: Store

    method Exists(key: string) returns (reply: int)
      ensures reply == if key in store then 1 else 0
    {
      reply := if key in store then 1 else 0;
    }

    method SAdd(key: string, member: string) returns (reply: int)
      modifies this
      ensures store == Added(old(store), key, member)
      ensures reply == if member in Members(old(store), key) then 0 else 1
    {
      reply := if member in Members(store, key) then 0 else 1;
      store := Added(store, key, member);
    }

    method SRem(key: string, member: string) returns (reply: int)
      modifies this
      ensures store == Removed(old(store), key, member)
      ensures reply == if member in Members(old(store), key) then 1 else 0
    {
      reply := if member in Members(store, key) then 1 else 0;
      store := Removed(store, key, member);
    }

    method SCard(key: string) returns (reply: int)
      ensures reply == |Members(store, key)|
    {
      reply := |Members(store, key)|;
    }

    method Del(key: string)
      modifies this
      ensures store == old(store) - {key}
    {
      store := store - {key};
    }

    method SMembers(key: string) returns (reply: seq<string>)
      ensures Lists(reply, store, key)
    {
      reply := [];
      var todo := Members(store, key);
      while todo != {}
        invariant todo <= Members(store, key)
        invariant forall x :: x in reply <==> x in Members(store, key) - todo
        invariant forall i, j :: 0 <= i < j < |reply| ==> reply[i] != reply[j]
      {
        var x :| x in todo;
        reply := reply + [x];
        todo := todo - {x};
      }
    }
  }

  // -------------------------------------------------------------------------- keys

  function GroupKey(group: string): string { "group:" + group + ":users" }

  function UserKey(user: string): string { "user:" + user + ":groups" }

  /** No two names share a key, within a family or across. */
  lemma KeysAreDistinct(g: string, u: string, g': string, u': string)
    ensures GroupKey(g) == GroupKey(g') <==> g == g'
    ensures UserKey(u) == UserKey(u') <==> u == u'
    ensures GroupKey(g) != UserKey(u) && GroupKey(g) != UserKey(u')
    ensures GroupKey(g') != UserKey(u) && GroupKey(g') != UserKey(u')
  {
    assert GroupKey(g)[0] == GroupKey(g')[0] == 'g' && UserKey(u)[0] == UserKey(u')[0] == 'u';
    if GroupKey(g) == GroupKey(g') {
      assert g == GroupKey(g)[6..6 + |g|] && g' == GroupKey(g')[6..6 + |g'|];
    }
    if UserKey(u) == UserKey(u') {
      assert u == UserKey(u)[5..5 + |u|] && u' == UserKey(u')[5..5 + |u'|];
    }
  }

  // ------------------------------------------------------- what a request should do

  /** The wire enumeration is open: any other number is unknown. */
  datatype Operation = CREATE | JOIN | LEAVE | QUERY | Unknown

  datatype Request = Request(operation: Operation, group: string, user: string)

  datatype Member = Member(group: string, user: string)

  datatype Outcome = Outcome(success: bool, errorMessage: string)

  /** Membership as one relation, of which both families of sets are views. */
  type Relation = set<Member>

  predicate GroupExists(r: Relation, group: string)
  {
    exists m :: m in r && m.group == group
  }

  function GroupsOf(r: Relation, user: string): set<string>
  {
    set m | m in r && m.user == user :: m.group
  }

  function After(r: Relation, req: Request): Relation
  {
    var m := Member(req.group, req.user);
    match req.operation
    case CREATE => if GroupExists(r, req.group) then r else r + {m}
    case JOIN => if GroupExists(r, req.group) then r + {m} else r
    case LEAVE => r - {m}
    case QUERY => r
    case Unknown => r
  }

  /** The answer, said of the relation before the request. */
  ghost predicate Answers(r: Relation, req: Request, o: Outcome)
  {
    var known, isMember := GroupExists(r, req.group), Member(req.group, req.user) in r;
    match req.operation
    case CREATE => o == if known then Outcome(false, "Group already exists.") else Outcome(true, "")
    case JOIN => o == if !known then Outcome(false, "Group does not exist.")
                      else if isMember then Outcome(false, "User already in the group.") else Outcome(true, "")
    case LEAVE => o == if !known then Outcome(false, "Group does not exist.")
                       else if !isMember then Outcome(false, "User not in the group.") else Outcome(true, "")
    case QUERY => o == Outcome(true, "")
    case Unknown => o == Outcome(false, "Unknown group operation.")
  }

  /** Both families of sets say the same of one group and one user. */
  ghost predicate ShowsMember(store: Store, r: Relation, g: string, u: string)
  {
    && (u in Members(store, GroupKey(g)) <==> Member(g, u) in r)
    && (g in Members(store, UserKey(u)) <==> Member(g, u) in r)
  }

  /** Both families of sets show the relation. */
  ghost predicate Shows(store: Store, r: Relation)
  {
    forall g, u {:trigger ShowsMember(store, r, g, u)} :: ShowsMember(store, r, g, u)
  }

  // ------------------------------------------------------------------ the two writes

  /** SADD to both sets adds one pair to the relation, and the two replies agree. */
  lemma AddBoth(store: Store, r: Relation, g: string, u: string)
    requires Shows(store, r) && NoEmptySets(store)
    ensures var s1 := Added(store, GroupKey(g), u);
            var s2 := Added(s1, UserKey(u), g);
            && Shows(s2, r + {Member(g, u)}) && NoEmptySets(s2)
            && (u in Members(store, GroupKey(g)) <==> Member(g, u) in r)
            && (g in Members(s1, UserKey(u)) <==> Member(g, u) in r)
  {
    var s1 := Added(store, GroupKey(g), u);
    var s2 := Added(s1, UserKey(u), g);
    assert ShowsMember(store, r, g, u);
    KeysAreDistinct(g, u, g, u);
    forall g', u'
      ensures ShowsMember(s2, r + {Member(g, u)}, g', u')
    {
      assert ShowsMember(store, r, g', u');
      KeysAreDistinct(g, u, g', u');
    }
  }

  /** SREM from both sets removes one pair, and the two replies agree. */
  lemma RemoveBoth(store: Store, r: Relation, g: string, u: string)
    requires Shows(store, r) && NoEmptySets(store)
    ensures var s1 := Removed(store, GroupKey(g), u);
            var s2 := Removed(s1, UserKey(u), g);
            && Shows(s2, r - {Member(g, u)}) && NoEmptySets(s2)
            && (u in Members(store, GroupKey(g)) <==> Member(g, u) in r)
            && (g in Members(s1, UserKey(u)) <==> Member(g, u) in r)
  {
    var s1 := Removed(store, GroupKey(g), u);
    var s2 := Removed(s1, UserKey(u), g);
    assert ShowsMember(store, r, g, u);
    KeysAreDistinct(g, u, g, u);
    forall g', u'
      ensures ShowsMember(s2, r - {Member(g, u)}, g', u')
    {
      assert ShowsMember(store, r, g', u');
      KeysAreDistinct(g, u, g', u');
    }
  }

  lemma ExistsShown(store: Store, r: Relation, g: string)
    requires Shows(store, r) && NoEmptySets(store)
    ensures GroupKey(g) in store <==> GroupExists(r, g)
  {
    if GroupKey(g) in store {
      var u :| u in store[GroupKey(g)];
      assert ShowsMember(store, r, g, u);
    }
    if m :| m in r && m.group == g {
      assert ShowsMember(store, r, g, m.user);
    }
  }

  lemma JoinedShown(store: Store, r: Relation, u: string)
    requires Shows(store, r)
    ensures Members(store, UserKey(u)) == GroupsOf(r, u)
  {
    forall g
      ensures g in Members(store, UserKey(u)) <==> g in GroupsOf(r, u)
    {
      assert ShowsMember(store, r, g, u);
    }
  }

  // --------------------------------------------------------------------- the handler

  /** One group request, its Redis commands taken as one step. */
  method OnGroupRequest(redis: Redis, req: Request, ghost r: Relation)
    returns (outcome: Outcome, joinedGroups: seq<string>)
    requires Shows(redis.store, r) && NoEmptySets(redis.store)
    modifies redis
    ensures Shows(redis.store, After(r, req)) && NoEmptySets(redis.store)
    ensures Answers(r, req, outcome)
    ensures forall g :: g in joinedGroups <==> g in GroupsOf(After(r, req), req.user)
    ensures forall i, j :: 0 <= i < j < |joinedGroups| ==> joinedGroups[i] != joinedGroups[j]
  {
    var groupKey, userKey := GroupKey(req.group), UserKey(req.user);
    var operationSuccess, errorMessage := false, "";
    ExistsShown(redis.store, r, req.group);
    var existsReply := redis.Exists(groupKey);
    var groupExists := existsReply == 1;
    match req.operation {
      case CREATE =>
        if !groupExists {
          AddBoth(redis.store, r, req.group, req.user);
          var reply1 := redis.SAdd(groupKey, req.user);
          var reply2 := redis.SAdd(userKey, req.group);
          operationSuccess := reply1 == 1 && reply2 == 1;
        }
        if !operationSuccess {
          errorMessage := "Group already exists.";
        }
      case JOIN =>
        if groupExists {
          AddBoth(redis.store, r, req.group, req.user);
          var reply1 := redis.SAdd(groupKey, req.user);
          var reply2 := redis.SAdd(userKey, req.group);
          operationSuccess := reply1 == 1 && reply2 == 1;
        }
        if !operationSuccess {
          errorMessage := if !groupExists then "Group does not exist." else "User already in the group.";
        }
      case LEAVE =>
        if groupExists {
          RemoveBoth(redis.store, r, req.group, req.user);
          var reply1 := redis.SRem(groupKey, req.user);
          var reply2 := redis.SRem(userKey, req.group);
          operationSuccess := reply1 == 1 && reply2 == 1;
          DropIfEmpty(redis, groupKey);
          DropIfEmpty(redis, userKey);
        } else {
          assert r - {Member(req.group, req.user)} == r;
        }
        if !operationSuccess {
          errorMessage := if !groupExists then "Group does not exist." else "User not in the group.";
        }
      case QUERY =>
        operationSuccess := true;
      case Unknown =>
        errorMessage := "Unknown group operation.";
    }
    joinedGroups := redis.SMembers(userKey);
    outcome := Outcome(operationSuccess, errorMessage);
    JoinedShown(redis.store, After(r, req), req.user);
  }

  /** SCARD, then DEL on zero: nothing is left to delete, because Redis dropped the empty set itself. */
  method DropIfEmpty(redis: Redis, key: string)
    requires NoEmptySets(redis.store)
    modifies redis
    ensures redis.store == old(redis.store)
  {
    var cardReply := redis.SCard(key);
    if cardReply == 0 {
      redis.Del(key);
    }
  }

  // ------------------------------------------------------------------- over any run

  function Run(r: Relation, reqs: seq<Request>): Relation
    decreases |reqs|
  {
    if reqs == [] then r else After(Run(r, reqs[..|reqs| - 1]), reqs[|reqs| - 1])
  }

  /** The k-th request of a run was answered for the relation its predecessors left. */
  ghost predicate AnsweredInOrder(reqs: seq<Request>, k: nat, o: Outcome, joined: seq<string>)
    requires k < |reqs|
  {
    var before := Run({}, reqs[..k]);
    Answers(before, reqs[k], o) && forall g :: g in joined <==> g in GroupsOf(After(before, reqs[k]), reqs[k].user)
  }

  /** A whole run of requests on an empty Redis: the sets stay inverse, and every request is answered
      for the relation its predecessors left. */
  method Serve(reqs: seq<Request>) returns (redis: Redis, outcomes: seq<Outcome>, joined: seq<seq<string>>)
    ensures fresh(redis) && Shows(redis.store, Run({}, reqs)) && NoEmptySets(redis.store)
    ensures |outcomes| == |joined| == |reqs|
    ensures forall k :: 0 <= k < |reqs| ==> AnsweredInOrder(reqs, k, outcomes[k], joined[k])
  {
    redis := new Redis;
    redis.store := map[];
    outcomes, joined := [], [];
    ghost var r: Relation := {};
    assert reqs[..0] == [];
    for n := 0 to |reqs|
      invariant fresh(redis) && Shows(redis.store, r) && NoEmptySets(redis.store)
      invariant r == Run({}, reqs[..n])
      invariant |outcomes| == |joined| == n
      invariant forall k :: 0 <= k < n ==> AnsweredInOrder(reqs, k, outcomes[k], joined[k])
    {
      assert reqs[..n + 1][..n] == reqs[..n];
      var o, gs := OnGroupRequest(redis, reqs[n], r);
      r := After(r, reqs[n]);
      outcomes, joined := outcomes + [o], joined + [gs];
    }
    assert reqs[..|reqs|] == reqs;
  }

  /** Success means that membership really changed, for the three operations that change it. */
  lemma SuccessMeansChange(r: Relation, req: Request, o: Outcome)
    requires Answers(r, req, o) && req.operation in {CREATE, JOIN, LEAVE}
    ensures o.success <==> After(r, req) != r
    ensures o.success <==> o.errorMessage == ""
  {
    var m := Member(req.group, req.user);
    if req.operation == CREATE && !GroupExists(r, req.group) {
      assert m !in r;
    }
    if req.operation == LEAVE {
      assert m in r ==> GroupExists(r, req.group);
    }
  }

  /** Each error message is given in exactly one situation. */
  lemma ErrorsExactly(r: Relation, req: Request, o: Outcome)
    requires Answers(r, req, o)
    ensures var op, m, empty := req.operation, Member(req.group, req.user), forall u :: Member(req.group, u) !in r;
            && (o.errorMessage == "Group already exists." <==> op.CREATE? && !empty)
            && (o.errorMessage == "Group does not exist." <==> (op.JOIN? || op.LEAVE?) && empty)
            && (o.errorMessage == "User already in the group." <==> op.JOIN? && m in r)
            && (o.errorMessage == "User not in the group." <==> op.LEAVE? && m !in r && !empty)
            && (o.errorMessage == "Unknown group operation." <==> op.Unknown?)
            && (o.success <==> o.errorMessage == "")
  {
    if m :| m in r && m.group == req.group {
      assert m == Member(req.group, m.user);
    }
    assert Member(req.group, req.user) in r ==> GroupExists(r, req.group);
  }

  /** Leaving undoes a successful create or join. */
  lemma LeaveUndoes(r: Relation, req: Request, o: Outcome)
    requires Answers(r, req, o) && req.operation in {CREATE, JOIN} && o.success
    ensures After(After(r, req), req.(operation := LEAVE)) == r
  {
    SuccessMeansChange(r, req, o);
  }

  /** Other users' groups, and other groups' users, are not touched. */
  lemma {:induction false} RunFrame(r: Relation, reqs: seq<Request>, m: Member)
    requires forall req :: req in reqs ==> Member(req.group, req.user) != m
    ensures m in Run(r, reqs) <==> m in r
    decreases |reqs|
  {
    if reqs != [] {
      var front := reqs[..|reqs| - 1];
      assert reqs[|reqs| - 1] in reqs;
      RunFrame(r, front, m);
    }
  }

  // -------------------------------------------------- why a request must be one step

  /** A LEAVE of the last member, interrupted before its DEL by another user's CREATE of the same
      group: the DEL then removes the new member from one family only. */
  lemma InterleavedLeaveBreaks(g: string, a: string, b: string)
    requires a != b
    ensures var s0 := Added(Added(map[], GroupKey(g), a), UserKey(a), g);
            var s1 := Removed(Removed(s0, GroupKey(g), a), UserKey(a), g);  // LEAVE by a
            var s2 := Added(Added(s1, GroupKey(g), b), UserKey(b), g);      // CREATE by b
            var s3 := s2 - {GroupKey(g)};                                   // the late DEL
            && Members(s1, GroupKey(g)) == {} && GroupKey(g) !in s1
            && g in Members(s3, UserKey(b)) && b !in Members(s3, GroupKey(g))
            && !exists r :: Shows(s3, r)
  {
    KeysAreDistinct(g, a, g, b);
    var s0 := Added(Added(map[], GroupKey(g), a), UserKey(a), g);
    var s1 := Removed(Removed(s0, GroupKey(g), a), UserKey(a), g);
    var s2 := Added(Added(s1, GroupKey(g), b), UserKey(b), g);
    var s3 := s2 - {GroupKey(g)};
    forall r
      ensures !Shows(s3, r)
    {
      assert !ShowsMember(s3, r, g, b);
    }
  }
}
