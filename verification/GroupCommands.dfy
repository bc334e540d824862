/** Group requests whose Redis commands interleave: each handler runs its commands one at a time, and anything
    may happen between two of them. Proved: exactly which requests may be in flight together. */
module GroupCommands {
  import opened Groups

  type Thread = nat

  /** The next command of a handler. */
  datatype Handler =
    | Asking(req: Request)          // EXISTS of the group's set
    | AddingUser(req: Request)      // SADD to the group's set
    | AddingGroup(req: Request)     // SADD to the user's set
    | RemovingUser(req: Request)    // SREM from the group's set
    | RemovingGroup(req: Request)   // SREM from the user's set
    | CountingUsers(req: Request)   // SCARD of the group's set
    | DeletingGroup(req: Request)   // DEL of the group's set, which SCARD found empty
    | CountingGroups(req: Request)  // SCARD of the user's set
    | DeletingUser(req: Request)    // DEL of the user's set, which SCARD found empty
    | Listing(req: Request)         // SMEMBERS of the user's set, and the answer

  datatype State = State(store: Store, handlers: map<Thread, Handler>)

  datatype Action =
    | Start(thread: Thread, req: Request)
    | Step(thread: Thread)          // the thread's next command

  function StoreAfter(store: Store, h: Handler): Store
  {
    var groupKey, userKey := GroupKey(h.req.group), UserKey(h.req.user);
    match h
    case AddingUser(_) => Added(store, groupKey, h.req.user)
    case AddingGroup(_) => Added(store, userKey, h.req.group)
    case RemovingUser(_) => Removed(store, groupKey, h.req.user)
    case RemovingGroup(_) => Removed(store, userKey, h.req.group)
    case DeletingGroup(_) => store - {groupKey}
    case DeletingUser(_) => store - {userKey}
    case _ => store
  }

  function FirstCommand(req: Request, groupExists: bool): Handler
  {
    match req.operation
    case CREATE => if groupExists then Listing(req) else AddingUser(req)
    case JOIN => if groupExists then AddingUser(req) else Listing(req)
    case LEAVE => if groupExists then RemovingUser(req) else Listing(req)
    case _ => Listing(req)
  }

  /** Where the handler goes with the reply to its command. */
  function HandlerAfter(store: Store, h: Handler): Handler
    requires !h.Listing?
  {
    var req := h.req;
    match h
    case Asking(_) => FirstCommand(req, GroupKey(req.group) in store)
    case AddingUser(_) => AddingGroup(req)
    case AddingGroup(_) => Listing(req)
    case RemovingUser(_) => RemovingGroup(req)
    case RemovingGroup(_) => CountingUsers(req)
    case CountingUsers(_) => if Members(store, GroupKey(req.group)) == {} then DeletingGroup(req) else CountingGroups(req)
    case DeletingGroup(_) => CountingGroups(req)
    case CountingGroups(_) => if Members(store, UserKey(req.user)) == {} then DeletingUser(req) else Listing(req)
    case DeletingUser(_) => Listing(req)
  }

  function Next(s: State, a: Action): State
  {
    match a
    case Start(t, req) => if t in s.handlers then s else s.(handlers := s.handlers[t := Asking(req)])
    case Step(t) =>
      if t !in s.handlers then s
      else if s.handlers[t].Listing? then s.(handlers := s.handlers - {t})
      else State(StoreAfter(s.store, s.handlers[t]), s.handlers[t := HandlerAfter(s.store, s.handlers[t])])
  }

  function Exec(s: State, run: seq<Action>): State
    decreases |run|
  {
    if run == [] then s else Next(Exec(s, run[..|run| - 1]), run[|run| - 1])
  }

  /** Some relation explains both families of sets. */
  ghost predicate Consistent(store: Store)
  {
    NoEmptySets(store) && exists r :: Shows(store, r)
  }

  // ------------------------------------------------------------------- which requests conflict

  predicate Adds(req: Request)
  {
    req.operation == CREATE || req.operation == JOIN
  }

  /** A leave and a create or join that have the group or the user in common. */
  predicate Conflict(a: Request, b: Request)
  {
    && ((a.operation == LEAVE && Adds(b)) || (Adds(a) && b.operation == LEAVE))
    && (a.group == b.group || a.user == b.user)
  }

  ghost predicate Apart(s: State)
  {
    forall t, u :: t in s.handlers && u in s.handlers && t != u ==> !Conflict(s.handlers[t].req, s.handlers[u].req)
  }

  /** At no moment of the run are two conflicting requests in flight. */
  ghost predicate AlwaysApart(s: State, run: seq<Action>)
    decreases |run|
  {
    Apart(Exec(s, run)) && (run == [] || AlwaysApart(s, run[..|run| - 1]))
  }

  // -------------------------------------------------------------------------------- invariant

  /** Both families of sets say the same of one group and one user. */
  ghost predicate Agree(store: Store, g: string, u: string)
  {
    u in Members(store, GroupKey(g)) <==> g in Members(store, UserKey(u))
  }

  /** Between the two writes of the pair. */
  predicate Midway(h: Handler, g: string, u: string)
  {
    (h.AddingGroup? || h.RemovingGroup?) && h.req.group == g && h.req.user == u
  }

  ghost predicate PairOk(s: State, g: string, u: string)
  {
    (forall t :: t in s.handlers ==> !Midway(s.handlers[t], g, u)) ==>
      Agree(s.store, g, u)
  }

  ghost predicate HandlerOk(s: State, t: Thread)
    requires t in s.handlers
  {
    var req := s.handlers[t].req;
    match s.handlers[t]
    case Asking(_) => true
    case AddingUser(_) => Adds(req)
    case AddingGroup(_) => Adds(req) && req.user in Members(s.store, GroupKey(req.group))
    case RemovingGroup(_) => req.operation == LEAVE && req.user !in Members(s.store, GroupKey(req.group))
    case DeletingGroup(_) => req.operation == LEAVE && Members(s.store, GroupKey(req.group)) == {}
    case DeletingUser(_) => req.operation == LEAVE && Members(s.store, UserKey(req.user)) == {}
    case Listing(_) => true
    case _ => req.operation == LEAVE
  }

  ghost predicate Inv(s: State)
  {
    && NoEmptySets(s.store)
    && (forall g, u {:trigger PairOk(s, g, u)} :: PairOk(s, g, u))
    && (forall t {:trigger HandlerOk(s, t)} :: t in s.handlers ==> HandlerOk(s, t))
  }

  /** What one command of a handler may do to membership of one pair. */
  lemma MembersAfter(store: Store, h: Handler, g: string, u: string)
    ensures var after, req := StoreAfter(store, h), h.req;
            && (u in Members(after, GroupKey(g)) <==>
                  if h.AddingUser? && req.group == g && req.user == u then true
                  else if h.RemovingUser? && req.group == g && req.user == u then false
                  else if h.DeletingGroup? && req.group == g then false
                  else u in Members(store, GroupKey(g)))
            && (g in Members(after, UserKey(u)) <==>
                  if h.AddingGroup? && req.group == g && req.user == u then true
                  else if h.RemovingGroup? && req.group == g && req.user == u then false
                  else if h.DeletingUser? && req.user == u then false
                  else g in Members(store, UserKey(u)))
  {
    KeysAreDistinct(h.req.group, h.req.user, g, u);
  }

  lemma NoEmptySetsAfter(store: Store, h: Handler)
    requires NoEmptySets(store)
    ensures NoEmptySets(StoreAfter(store, h))
  {
  }

  lemma HandlerStaysOk(s: State, t: Thread, u: Thread)
    requires t in s.handlers && !s.handlers[t].Listing? && u in s.handlers
    requires HandlerOk(s, t) && HandlerOk(s, u) && (t == u || !Conflict(s.handlers[t].req, s.handlers[u].req))
    ensures HandlerOk(Next(s, Step(t)), u)
  {
    var h, req := s.handlers[t], s.handlers[u].req;
    MembersAfter(s.store, h, req.group, req.user);
    forall x
      ensures x in Members(StoreAfter(s.store, h), GroupKey(req.group)) ==>
                x in Members(s.store, GroupKey(req.group)) || (h.AddingUser? && h.req.group == req.group)
      ensures x in Members(StoreAfter(s.store, h), UserKey(req.user)) ==>
                x in Members(s.store, UserKey(req.user)) || (h.AddingGroup? && h.req.user == req.user)
    {
      MembersAfter(s.store, h, req.group, x);
      MembersAfter(s.store, h, x, req.user);
    }
  }

  lemma PairStaysOk(s: State, t: Thread, g: string, u: string)
    requires t in s.handlers && !s.handlers[t].Listing? && HandlerOk(s, t) && PairOk(s, g, u)
    ensures PairOk(Next(s, Step(t)), g, u)
  {
    var h, s' := s.handlers[t], Next(s, Step(t));
    MembersAfter(s.store, h, g, u);
    assert s'.handlers[t] == HandlerAfter(s.store, h);
    if !Midway(h, g, u) {
      assert (forall v :: v in s'.handlers ==> !Midway(s'.handlers[v], g, u)) ==>
             (forall v :: v in s.handlers ==> v == t || !Midway(s'.handlers[v], g, u));
    }
  }

  lemma StepKeepsInv(s: State, a: Action)
    requires Inv(s) && Apart(s)
    ensures Inv(Next(s, a))
  {
    var s' := Next(s, a);
    if a.Step? && a.thread in s.handlers && !s.handlers[a.thread].Listing? {
      assert HandlerOk(s, a.thread);
      NoEmptySetsAfter(s.store, s.handlers[a.thread]);
      forall g, u
        ensures PairOk(s', g, u)
      {
        assert PairOk(s, g, u);
        PairStaysOk(s, a.thread, g, u);
      }
      forall u | u in s'.handlers
        ensures HandlerOk(s', u)
      {
        assert HandlerOk(s, u);
        HandlerStaysOk(s, a.thread, u);
      }
    } else {
      StoreUntouched(s, a);
    }
  }

  lemma PairUntouched(s: State, a: Action, g: string, u: string)
    requires PairOk(s, g, u)
    requires a.Step? ==> a.thread !in s.handlers || s.handlers[a.thread].Listing?
    ensures PairOk(Next(s, a), g, u)
  {
    var s' := Next(s, a);
    if forall v :: v in s'.handlers ==> !Midway(s'.handlers[v], g, u) {
      forall v | v in s.handlers
        ensures !Midway(s.handlers[v], g, u)
      {
        assert v in s'.handlers ==> !Midway(s'.handlers[v], g, u);
      }
    }
  }

  lemma StoreUntouched(s: State, a: Action)
    requires Inv(s)
    requires a.Step? ==> a.thread !in s.handlers || s.handlers[a.thread].Listing?
    ensures Inv(Next(s, a))
  {
    var s' := Next(s, a);
    forall g, u
      ensures PairOk(s', g, u)
    {
      assert PairOk(s, g, u);
      PairUntouched(s, a, g, u);
    }
    forall u | u in s'.handlers
      ensures HandlerOk(s', u)
    {
      assert u in s.handlers ==> HandlerOk(s, u);
    }
  }

  lemma {:induction false} RunKeepsInv(s: State, run: seq<Action>)
    requires Inv(s) && AlwaysApart(s, run)
    ensures Inv(Exec(s, run))
    decreases |run|
  {
    if run != [] {
      RunKeepsInv(s, run[..|run| - 1]);
      assert Apart(Exec(s, run[..|run| - 1])) by {
        var front := run[..|run| - 1];
        assert AlwaysApart(s, front);
      }
      StepKeepsInv(Exec(s, run[..|run| - 1]), run[|run| - 1]);
    }
  }

  // ------------------------------------------------------------------------------- consistency

  function GroupOf(key: string): string
    requires |key| >= 12
  {
    key[6..|key| - 6]
  }

  /** The relation read off the groups' sets. */
  ghost function RelationOf(store: Store): Relation
  {
    set key, u | key in store && |key| >= 12 && key == GroupKey(GroupOf(key)) && u in store[key] :: Member(GroupOf(key), u)
  }

  lemma RelationOfMembers(store: Store, g: string, u: string)
    ensures Member(g, u) in RelationOf(store) <==> u in Members(store, GroupKey(g))
  {
    var key := GroupKey(g);
    assert GroupOf(key) == g;
  }

  /** Both families agree on every pair exactly when some relation explains them. */
  lemma ConsistentExactly(store: Store)
    requires NoEmptySets(store)
    ensures Consistent(store) <==> forall g, u {:trigger Agree(store, g, u)} :: Agree(store, g, u)
  {
    if r :| Shows(store, r) {
      forall g, u
        ensures Agree(store, g, u)
      {
        assert ShowsMember(store, r, g, u);
      }
    }
    if forall g, u {:trigger Agree(store, g, u)} :: Agree(store, g, u) {
      var r := RelationOf(store);
      forall g, u
        ensures ShowsMember(store, r, g, u)
      {
        RelationOfMembers(store, g, u);
        assert Agree(store, g, u);
      }
      assert Shows(store, r);
    }
  }

  lemma QuietInv(store: Store)
    requires NoEmptySets(store)
    ensures Inv(State(store, map[])) <==> Consistent(store)
  {
    ConsistentExactly(store);
    var s := State(store, map[]);
    forall g, u
      ensures PairOk(s, g, u) <==> Agree(store, g, u)
    {
    }
    if Inv(s) {
      forall g, u
        ensures Agree(store, g, u)
      {
        assert PairOk(s, g, u);
      }
    }
  }

  /** Over every interleaving of the commands of any requests, as long as no two conflicting ones are in flight
      together: whenever no request is in flight, some relation explains both families of sets. */
  lemma ApartStaysConsistent(store: Store, run: seq<Action>)
    requires Consistent(store) && AlwaysApart(State(store, map[]), run)
    requires Exec(State(store, map[]), run).handlers == map[]
    ensures Consistent(Exec(State(store, map[]), run).store)
  {
    QuietInv(store);
    RunKeepsInv(State(store, map[]), run);
    var s := Exec(State(store, map[]), run);
    assert s == State(s.store, map[]);
    QuietInv(s.store);
  }

  // --------------------------------------------- the same, by what happens instead of by requests

  predicate SamePair(a: Request, b: Request)
  {
    a.group == b.group && a.user == b.user
  }

  /** No leave is in flight together with a create or join of the same user for the same group. */
  ghost predicate PairsApart(s: State)
  {
    forall t, u :: t in s.handlers && u in s.handlers && t != u && SamePair(s.handlers[t].req, s.handlers[u].req) ==>
      !Conflict(s.handlers[t].req, s.handlers[u].req)
  }

  /** If the action is a DEL, it finds its set empty. */
  predicate DeletesNothing(s: State, a: Action)
  {
    a.Step? && a.thread in s.handlers ==>
      var h := s.handlers[a.thread];
      && (h.DeletingGroup? ==> Members(s.store, GroupKey(h.req.group)) == {})
      && (h.DeletingUser? ==> Members(s.store, UserKey(h.req.user)) == {})
  }

  ghost predicate Careful(s: State, run: seq<Action>)
    decreases |run|
  {
    run == [] ||
      var front := run[..|run| - 1];
      Careful(s, front) && PairsApart(Exec(s, front)) && DeletesNothing(Exec(s, front), run[|run| - 1])
  }

  ghost predicate MidwayOk(s: State, t: Thread)
    requires t in s.handlers
  {
    var h := s.handlers[t];
    && (h.AddingUser? || h.AddingGroup? ==> Adds(h.req))
    && (h.RemovingUser? || h.RemovingGroup? ==> h.req.operation == LEAVE)
    && (h.AddingGroup? ==> h.req.user in Members(s.store, GroupKey(h.req.group)))
    && (h.RemovingGroup? ==> h.req.user !in Members(s.store, GroupKey(h.req.group)))
  }

  ghost predicate PairsInv(s: State)
  {
    && NoEmptySets(s.store)
    && (forall g, u {:trigger PairOk(s, g, u)} :: PairOk(s, g, u))
    && (forall t {:trigger MidwayOk(s, t)} :: t in s.handlers ==> MidwayOk(s, t))
  }

  lemma MidwayStaysOk(s: State, t: Thread, u: Thread)
    requires t in s.handlers && !s.handlers[t].Listing? && u in s.handlers
    requires MidwayOk(s, t) && MidwayOk(s, u) && PairsApart(s) && DeletesNothing(s, Step(t))
    ensures MidwayOk(Next(s, Step(t)), u)
  {
    MembersAfter(s.store, s.handlers[t], s.handlers[u].req.group, s.handlers[u].req.user);
  }

  lemma PairStaysMidwayOk(s: State, t: Thread, g: string, u: string)
    requires t in s.handlers && !s.handlers[t].Listing? && MidwayOk(s, t) && PairOk(s, g, u)
    requires DeletesNothing(s, Step(t))
    ensures PairOk(Next(s, Step(t)), g, u)
  {
    var h, s' := s.handlers[t], Next(s, Step(t));
    MembersAfter(s.store, h, g, u);
    assert s'.handlers[t] == HandlerAfter(s.store, h);
    if !Midway(h, g, u) {
      assert (forall v :: v in s'.handlers ==> !Midway(s'.handlers[v], g, u)) ==>
             (forall v :: v in s.handlers ==> v == t || !Midway(s'.handlers[v], g, u));
    }
  }

  lemma CarefulStep(s: State, a: Action)
    requires PairsInv(s) && PairsApart(s) && DeletesNothing(s, a)
    ensures PairsInv(Next(s, a))
  {
    var s' := Next(s, a);
    if a.Step? && a.thread in s.handlers && !s.handlers[a.thread].Listing? {
      assert MidwayOk(s, a.thread);
      NoEmptySetsAfter(s.store, s.handlers[a.thread]);
      forall g, u
        ensures PairOk(s', g, u)
      {
        assert PairOk(s, g, u);
        PairStaysMidwayOk(s, a.thread, g, u);
      }
      forall u | u in s'.handlers
        ensures MidwayOk(s', u)
      {
        assert MidwayOk(s, u);
        MidwayStaysOk(s, a.thread, u);
      }
    } else {
      forall g, u
        ensures PairOk(s', g, u)
      {
        assert PairOk(s, g, u);
        PairUntouched(s, a, g, u);
      }
      forall u | u in s'.handlers
        ensures MidwayOk(s', u)
      {
        assert u in s.handlers ==> MidwayOk(s, u);
      }
    }
  }

  lemma {:induction false} CarefulRun(s: State, run: seq<Action>)
    requires PairsInv(s) && Careful(s, run)
    ensures PairsInv(Exec(s, run))
    decreases |run|
  {
    if run != [] {
      CarefulRun(s, run[..|run| - 1]);
      CarefulStep(Exec(s, run[..|run| - 1]), run[|run| - 1]);
    }
  }

  /** Over every interleaving in which no leave meets a create or join of the same pair, and every DEL finds its set
      empty: whenever no request is in flight, some relation explains both families of sets. */
  lemma CarefulStaysConsistent(store: Store, run: seq<Action>)
    requires Consistent(store) && Careful(State(store, map[]), run)
    requires Exec(State(store, map[]), run).handlers == map[]
    ensures Consistent(Exec(State(store, map[]), run).store)
  {
    QuietInv(store);
    CarefulRun(State(store, map[]), run);
    var s := Exec(State(store, map[]), run);
    assert s == State(s.store, map[]);
    forall g, u
      ensures Agree(s.store, g, u)
    {
      assert PairOk(s, g, u);
    }
    ConsistentExactly(s.store);
  }

  /** The step that breaks things: a DEL of a group's set leaves the relation explained exactly when it finds the
      set empty. */
  lemma DelKeepsExactly(store: Store, r: Relation, g: string)
    requires Shows(store, r)
    ensures Shows(store - {GroupKey(g)}, r) <==> Members(store, GroupKey(g)) == {}
  {
    var after := store - {GroupKey(g)};
    if Members(store, GroupKey(g)) == {} {
      forall g', u
        ensures ShowsMember(after, r, g', u)
      {
        assert ShowsMember(store, r, g', u);
        KeysAreDistinct(g, u, g', u);
      }
    } else {
      var u :| u in Members(store, GroupKey(g));
      assert ShowsMember(store, r, g, u);
      assert !ShowsMember(after, r, g, u);
    }
  }

  // ---------------------------------------------------- exactly which two requests are harmless

  /** Two requests in flight, none of their commands executed. */
  function InFlight(store: Store, a: Request, b: Request): State
  {
    Exec(State(store, map[]), [Start(0, a)] + [Start(1, b)])
  }

  lemma BothAsk(store: Store, a: Request, b: Request)
    ensures InFlight(store, a, b) == State(store, map[0 := Asking(a), 1 := Asking(b)])
  {
    var s := State(store, map[]);
    ExecSnoc(s, [], Start(0, a));
    ExecSnoc(s, [Start(0, a)], Start(1, b));
    assert [] + [Start(0, a)] == [Start(0, a)];
  }

  predicate OnlySteps(run: seq<Action>)
  {
    forall k :: 0 <= k < |run| ==> run[k].Step?
  }

  /** In every interleaving of their commands the two requests end in sets that some relation explains. */
  ghost predicate SafeTogether(a: Request, b: Request)
  {
    forall store, run {:trigger Exec(InFlight(store, a, b), run)} ::
      Consistent(store) && OnlySteps(run) && Exec(InFlight(store, a, b), run).handlers == map[] ==>
        Consistent(Exec(InFlight(store, a, b), run).store)
  }

  /** Handlers keep their requests. */
  lemma {:induction false} RequestsStay(store: Store, a: Request, b: Request, run: seq<Action>)
    requires OnlySteps(run)
    ensures var handlers := Exec(InFlight(store, a, b), run).handlers;
            && handlers.Keys <= {0, 1}
            && (0 in handlers ==> handlers[0].req == a) && (1 in handlers ==> handlers[1].req == b)
    decreases |run|
  {
    BothAsk(store, a, b);
    if run != [] {
      RequestsStay(store, a, b, run[..|run| - 1]);
    }
  }

  lemma {:induction false} HarmlessStayApart(store: Store, a: Request, b: Request, run: seq<Action>)
    requires OnlySteps(run) && !Conflict(a, b)
    ensures AlwaysApart(InFlight(store, a, b), run)
    decreases |run|
  {
    RequestsStay(store, a, b, run);
    if run != [] {
      HarmlessStayApart(store, a, b, run[..|run| - 1]);
    }
  }

  lemma HarmlessAreSafe(a: Request, b: Request)
    requires !Conflict(a, b)
    ensures SafeTogether(a, b)
  {
    forall store, run | Consistent(store) && OnlySteps(run) && Exec(InFlight(store, a, b), run).handlers == map[]
      ensures Consistent(Exec(InFlight(store, a, b), run).store)
    {
      var s := InFlight(store, a, b);
      HarmlessStayApart(store, a, b, run);
      BothAsk(store, a, b);
      QuietInv(store);
      forall g, u
        ensures PairOk(s, g, u)
      {
        assert PairOk(State(store, map[]), g, u);
      }
      RunKeepsInv(s, run);
      var end := Exec(s, run);
      assert end == State(end.store, map[]);
      QuietInv(end.store);
    }
  }

  // ------------------------------------------------------------------- conflicting ones are not

  lemma ExecSnoc(s: State, run: seq<Action>, a: Action)
    ensures Exec(s, run + [a]) == Next(Exec(s, run), a)
  {
    assert (run + [a])[..|run|] == run;
  }

  /** One more command of a handler that has not finished. */
  lemma Advance(s0: State, before: seq<Action>, store: Store, h: map<Thread, Handler>, t: Thread, now: Handler)
    returns (run: seq<Action>)
    requires OnlySteps(before) && Exec(s0, before) == State(store, h[t := now]) && !now.Listing?
    ensures OnlySteps(run) && Exec(s0, run) == State(StoreAfter(store, now), h[t := HandlerAfter(store, now)])
  {
    run := before + [Step(t)];
    ExecSnoc(s0, before, Step(t));
    assert h[t := now][t := HandlerAfter(store, now)] == h[t := HandlerAfter(store, now)];
  }

  lemma Finish(s0: State, before: seq<Action>, store: Store, h: map<Thread, Handler>, t: Thread, req: Request)
    returns (run: seq<Action>)
    requires OnlySteps(before) && Exec(s0, before) == State(store, h[t := Listing(req)])
    ensures OnlySteps(run) && Exec(s0, run) == State(store, h - {t})
  {
    run := before + [Step(t)];
    ExecSnoc(s0, before, Step(t));
    assert h[t := Listing(req)] - {t} == h - {t};
  }

  /** The group with its only member, who is in no other group, added to a store. */
  function WithMember(store: Store, g: string, u: string): Store
  {
    Added(Added(store, GroupKey(g), u), UserKey(u), g)
  }

  lemma OnlyMember(store: Store, g: string, u: string)
    requires GroupKey(g) !in store && UserKey(u) !in store
    ensures GroupKey(g) in WithMember(store, g, u)
    ensures Removed(Removed(WithMember(store, g, u), GroupKey(g), u), UserKey(u), g) == store
  {
    KeysAreDistinct(g, u, g, u);
    assert {} + {u} == {u} && {} + {g} == {g};
    assert WithMember(store, g, u) == store[GroupKey(g) := {u}][UserKey(u) := {g}];
    assert Removed(WithMember(store, g, u), GroupKey(g), u) == store[UserKey(u) := {g}];
    assert Removed(store[UserKey(u) := {g}], UserKey(u), g) == store;
  }

  /** The leave of the only member, up to its SCARD of the group's set: the store is as if neither had been. */
  lemma LeaveCounts(s0: State, before: seq<Action>, h: map<Thread, Handler>, l: Thread, req: Request, store: Store)
    returns (run: seq<Action>)
    requires req.operation == LEAVE && GroupKey(req.group) !in store && UserKey(req.user) !in store
    requires OnlySteps(before) && Exec(s0, before) == State(WithMember(store, req.group, req.user), h[l := Asking(req)])
    ensures OnlySteps(run) && Exec(s0, run) == State(store, h[l := DeletingGroup(req)])
  {
    var full := WithMember(store, req.group, req.user);
    var half := Removed(full, GroupKey(req.group), req.user);
    OnlyMember(store, req.group, req.user);
    run := Advance(s0, before, full, h, l, Asking(req));
    run := Advance(s0, run, full, h, l, RemovingUser(req));
    run := Advance(s0, run, half, h, l, RemovingGroup(req));
    run := Advance(s0, run, store, h, l, CountingUsers(req));
  }

  /** The create or join, from its first SADD to its end. */
  lemma AdderFinishes(s0: State, before: seq<Action>, h: map<Thread, Handler>, d: Thread, req: Request, store: Store)
    returns (run: seq<Action>)
    requires OnlySteps(before) && Exec(s0, before) == State(store, h[d := AddingUser(req)])
    ensures OnlySteps(run) && Exec(s0, run) == State(WithMember(store, req.group, req.user), h - {d})
  {
    var half := Added(store, GroupKey(req.group), req.user);
    run := Advance(s0, before, store, h, d, AddingUser(req));
    run := Advance(s0, run, half, h, d, AddingGroup(req));
    run := Finish(s0, run, WithMember(store, req.group, req.user), h, d, req);
  }

  lemma NothingLeft(l: Thread)
    ensures var none: map<Thread, Handler> := map[]; none - {l} == none
  {
  }

  /** The rest of the leave, from its SCARD of the user's set, alone: it removes nothing but what is empty. */
  lemma LeaveEnds(s0: State, before: seq<Action>, l: Thread, req: Request, store: Store) returns (run: seq<Action>)
    requires NoEmptySets(store)
    requires OnlySteps(before) && Exec(s0, before) == State(store, map[][l := CountingGroups(req)])
    ensures OnlySteps(run) && Exec(s0, run) == State(store, map[])
  {
    run := Advance(s0, before, store, map[], l, CountingGroups(req));
    if Members(store, UserKey(req.user)) == {} {
      run := Advance(s0, run, store, map[], l, DeletingUser(req));
      assert store - {UserKey(req.user)} == store;
    }
    run := Finish(s0, run, store, map[], l, req);
    NothingLeft(l);
  }

  // ------------------------------------------------- a late DEL of the group's set

  /** After the leave has found the group's set empty, the other request adds its user; then the DEL. */
  lemma LateGroupDelete(s0: State, before: seq<Action>, h: map<Thread, Handler>, l: Thread, d: Thread, leave: Request, add: Request)
    returns (run: seq<Action>)
    requires l != d && leave.group == add.group && h.Keys == {l, d} && h[d] == AddingUser(add)
    requires OnlySteps(before) && Exec(s0, before) == State(map[], h[l := DeletingGroup(leave)])
    ensures OnlySteps(run) && Exec(s0, run).handlers == map[] && !Consistent(Exec(s0, run).store)
  {
    var g, u := add.group, add.user;
    var rest: map<Thread, Handler> := map[l := DeletingGroup(leave)];
    assert h[l := DeletingGroup(leave)] == rest[d := AddingUser(add)];
    run := AdderFinishes(s0, before, rest, d, add, map[]);
    var full := WithMember(map[], g, u);
    assert rest - {d} == map[][l := DeletingGroup(leave)];
    run := Advance(s0, run, full, map[], l, DeletingGroup(leave));
    KeysAreDistinct(g, u, g, u);
    var left: Store := map[UserKey(u) := {g}];
    assert {} + {u} == {u} && {} + {g} == {g};
    assert full == map[GroupKey(g) := {u}][UserKey(u) := {g}];
    assert full - {GroupKey(g)} == left;
    run := LeaveEnds(s0, run, l, leave, left);
    ConsistentExactly(left);
    assert !Agree(left, g, u);
  }

  // -------------------------------------------------- a late DEL of the user's set

  /** After the leave has found the user's set empty, the other request adds another group; then the DEL. */
  lemma LateUserDelete(s0: State, before: seq<Action>, h: map<Thread, Handler>, l: Thread, d: Thread, leave: Request, add: Request,
                       store: Store)
    returns (run: seq<Action>)
    requires l != d && leave.user == add.user && h.Keys == {l, d} && h[d] == AddingUser(add) && NoEmptySets(store)
    requires OnlySteps(before) && Exec(s0, before) == State(store, h[l := DeletingUser(leave)])
    ensures OnlySteps(run) && Exec(s0, run).handlers == map[] && !Consistent(Exec(s0, run).store)
  {
    var g, u := add.group, add.user;
    var rest: map<Thread, Handler> := map[l := DeletingUser(leave)];
    assert h[l := DeletingUser(leave)] == rest[d := AddingUser(add)];
    run := AdderFinishes(s0, before, rest, d, add, store);
    var full := WithMember(store, g, u);
    assert rest - {d} == map[][l := DeletingUser(leave)];
    run := Advance(s0, run, full, map[], l, DeletingUser(leave));
    var left := full - {UserKey(u)};
    run := Finish(s0, run, left, map[], l, leave);
    NothingLeft(l);
    KeysAreDistinct(g, u, g, u);
    if NoEmptySets(left) {
      ConsistentExactly(left);
      assert !Agree(left, g, u);
    }
  }

  // ------------------------------------------------------------------------ both directions

  lemma WithMemberConsistent(store: Store, g: string, u: string)
    requires Consistent(store)
    ensures Consistent(WithMember(store, g, u))
  {
    var r :| Shows(store, r);
    AddBoth(store, r, g, u);
  }

  lemma NothingConsistent()
    ensures Consistent(map[])
  {
    assert Shows(map[], {});
  }

  /** Two requests that share the group: the adder's EXISTS is answered as it needs, before or after the leave. */
  lemma SameGroupBreaks(s0: State, l: Thread, d: Thread, leave: Request, add: Request) returns (run: seq<Action>)
    requires l != d && leave.operation == LEAVE && Adds(add) && leave.group == add.group
    requires s0 == State(WithMember(map[], leave.group, leave.user), map[l := Asking(leave), d := Asking(add)])
    ensures OnlySteps(run) && Exec(s0, run).handlers == map[] && !Consistent(Exec(s0, run).store)
  {
    var h, full := s0.handlers, s0.store;
    OnlyMember(map[], leave.group, leave.user);
    if add.operation == JOIN {
      assert h[d := Asking(add)] == h;
      run := Advance(s0, [], full, h, d, Asking(add));
      var h1 := h[d := AddingUser(add)];
      assert h1[l := Asking(leave)] == h1;
      run := LeaveCounts(s0, run, h1, l, leave, map[]);
      run := LateGroupDelete(s0, run, h1, l, d, leave, add);
    } else {
      assert h[l := Asking(leave)] == h;
      run := LeaveCounts(s0, [], h, l, leave, map[]);
      var h1 := h[l := DeletingGroup(leave)];
      assert h1[d := Asking(add)] == h1;
      run := Advance(s0, run, map[], h1, d, Asking(add));
      var h2 := h1[d := AddingUser(add)];
      assert h2[l := DeletingGroup(leave)] == h2;
      run := LateGroupDelete(s0, run, h2, l, d, leave, add);
    }
  }

  /** Another user of the group that is joined, if it has to exist. */
  function Others(add: Request): Store
  {
    if add.operation == JOIN then WithMember(map[], add.group, add.user + "x") else map[]
  }

  lemma OthersApart(leave: Request, add: Request)
    requires leave.user == add.user && leave.group != add.group
    ensures GroupKey(leave.group) !in Others(add) && UserKey(leave.user) !in Others(add)
    ensures GroupKey(add.group) in Others(add) <==> add.operation == JOIN
    ensures Consistent(Others(add))
  {
    assert add.user + "x" != add.user;
    KeysAreDistinct(add.group, add.user + "x", leave.group, leave.user);
    NothingConsistent();
    if add.operation == JOIN {
      WithMemberConsistent(map[], add.group, add.user + "x");
    }
  }

  /** The leave of the only member, up to its SCARD of the user's set. */
  lemma LeaveFindsNothing(s0: State, before: seq<Action>, h: map<Thread, Handler>, l: Thread, req: Request, store: Store)
    returns (run: seq<Action>)
    requires req.operation == LEAVE && GroupKey(req.group) !in store && UserKey(req.user) !in store
    requires OnlySteps(before) && Exec(s0, before) == State(WithMember(store, req.group, req.user), h[l := Asking(req)])
    ensures OnlySteps(run) && Exec(s0, run) == State(store, h[l := DeletingUser(req)])
  {
    run := LeaveCounts(s0, before, h, l, req, store);
    run := Advance(s0, run, store, h, l, DeletingGroup(req));
    assert store - {GroupKey(req.group)} == store;
    run := Advance(s0, run, store, h, l, CountingGroups(req));
  }

  /** Two requests of the same user for different groups. */
  lemma SameUserBreaks(s0: State, l: Thread, d: Thread, leave: Request, add: Request) returns (run: seq<Action>)
    requires l != d && leave.operation == LEAVE && Adds(add) && leave.group != add.group && leave.user == add.user
    requires s0 == State(WithMember(Others(add), leave.group, leave.user), map[l := Asking(leave), d := Asking(add)])
    ensures OnlySteps(run) && Exec(s0, run).handlers == map[] && !Consistent(Exec(s0, run).store)
  {
    var h, store := s0.handlers, Others(add);
    OthersApart(leave, add);
    assert h[l := Asking(leave)] == h;
    run := LeaveFindsNothing(s0, [], h, l, leave, store);
    var h1 := h[l := DeletingUser(leave)];
    assert h1[d := Asking(add)] == h1;
    run := Advance(s0, run, store, h1, d, Asking(add));
    var h2 := h1[d := AddingUser(add)];
    assert h2[l := DeletingUser(leave)] == h2;
    run := LateUserDelete(s0, run, h2, l, d, leave, add, store);
  }

  lemma ConflictsAreUnsafe(a: Request, b: Request)
    requires Conflict(a, b)
    ensures !SafeTogether(a, b)
  {
    var l, d := if a.operation == LEAVE then 0 else 1, if a.operation == LEAVE then 1 else 0;
    var leave, add := if a.operation == LEAVE then a else b, if a.operation == LEAVE then b else a;
    var run, store;
    if leave.group == add.group {
      store := WithMember(map[], leave.group, leave.user);
      BothAsk(store, a, b);
      NothingConsistent();
      WithMemberConsistent(map[], leave.group, leave.user);
      assert InFlight(store, a, b).handlers == map[l := Asking(leave), d := Asking(add)];
      run := SameGroupBreaks(InFlight(store, a, b), l, d, leave, add);
    } else {
      store := WithMember(Others(add), leave.group, leave.user);
      BothAsk(store, a, b);
      OthersApart(leave, add);
      WithMemberConsistent(Others(add), leave.group, leave.user);
      assert InFlight(store, a, b).handlers == map[l := Asking(leave), d := Asking(add)];
      run := SameUserBreaks(InFlight(store, a, b), l, d, leave, add);
    }
    assert !Consistent(Exec(InFlight(store, a, b), run).store);
  }

  /** Exactly which two requests may be in flight together: whatever the sets and however their commands
      interleave, both families end up inverse to each other if and only if it is not the case that one is a
      leave, the other a create or join, and they have the group or the user in common. */
  lemma SafeExactly(a: Request, b: Request)
    ensures SafeTogether(a, b) <==> !Conflict(a, b)
  {
    if Conflict(a, b) {
      ConflictsAreUnsafe(a, b);
    } else {
      HarmlessAreSafe(a, b);
    }
  }

  // ------------------------------------------------------------------------------ one at a time

  lemma AloneAdds(s0: State, before: seq<Action>, t: Thread, req: Request, store: Store, r: Relation) returns (run: seq<Action>)
    requires Shows(store, r) && NoEmptySets(store)
    requires OnlySteps(before) && Exec(s0, before) == State(store, map[][t := AddingUser(req)])
    ensures OnlySteps(run) && Exec(s0, run).handlers == map[] && NoEmptySets(Exec(s0, run).store)
    ensures Shows(Exec(s0, run).store, r + {Member(req.group, req.user)})
  {
    run := AdderFinishes(s0, before, map[], t, req, store);
    NothingLeft(t);
    AddBoth(store, r, req.group, req.user);
  }

  lemma AloneRemoves(s0: State, before: seq<Action>, t: Thread, req: Request, store: Store, r: Relation) returns (run: seq<Action>)
    requires Shows(store, r) && NoEmptySets(store)
    requires OnlySteps(before) && Exec(s0, before) == State(store, map[][t := RemovingUser(req)])
    ensures OnlySteps(run) && Exec(s0, run).handlers == map[] && NoEmptySets(Exec(s0, run).store)
    ensures Shows(Exec(s0, run).store, r - {Member(req.group, req.user)})
  {
    RemoveBoth(store, r, req.group, req.user);
    var half := Removed(store, GroupKey(req.group), req.user);
    var left := Removed(half, UserKey(req.user), req.group);
    run := Advance(s0, before, store, map[], t, RemovingUser(req));
    run := Advance(s0, run, half, map[], t, RemovingGroup(req));
    run := Advance(s0, run, left, map[], t, CountingUsers(req));
    if Members(left, GroupKey(req.group)) == {} {
      run := Advance(s0, run, left, map[], t, DeletingGroup(req));
      assert left - {GroupKey(req.group)} == left;
    }
    run := LeaveEnds(s0, run, t, req, left);
  }

  /** A request whose commands nothing interrupts does what onGroupRequest does as one step. */
  lemma AloneIsOneStep(store: Store, r: Relation, t: Thread, req: Request) returns (run: seq<Action>)
    requires Shows(store, r) && NoEmptySets(store)
    ensures var s := Exec(Next(State(store, map[]), Start(t, req)), run);
            OnlySteps(run) && s.handlers == map[] && Shows(s.store, After(r, req)) && NoEmptySets(s.store)
  {
    var s0 := Next(State(store, map[]), Start(t, req));
    ExistsShown(store, r, req.group);
    run := Advance(s0, [], store, map[], t, Asking(req));
    var first := FirstCommand(req, GroupKey(req.group) in store);
    if first.AddingUser? {
      run := AloneAdds(s0, run, t, req, store, r);
    } else if first.RemovingUser? {
      run := AloneRemoves(s0, run, t, req, store, r);
    } else {
      run := Finish(s0, run, store, map[], t, req);
      NothingLeft(t);
      RefusedChangesNothing(r, req);
    }
  }

  lemma RefusedChangesNothing(r: Relation, req: Request)
    requires FirstCommand(req, GroupExists(r, req.group)).Listing?
    ensures After(r, req) == r
  {
    if Member(req.group, req.user) in r {
      assert GroupExists(r, req.group);
    }
  }
}
