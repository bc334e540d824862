/** The user table of the single-process broadcast server: one shared map, copied on write, that readers use
    without the lock. Proved: it is indistinguishable from a map that changes atomically. */
module UserTable {
  import opened Strings

  type Thread = nat
  type Object = nat    // a UserMap on the heap
  type Users = map<string, string>

  /** users_mutex_: who holds it and where the holder is. */
  datatype Lock =
    | Free
    | Reading(thread: Thread, copied: bool)                                  // getUsersPtr
    | Checking(thread: Thread, name: string, password: string)               // about to ask unique()
    | Shared(thread: Thread, name: string, password: string)                 // unique() said no
    | Cloned(thread: Thread, name: string, password: string, clone: Object)  // the copy is made, not yet installed
    | Ready(thread: Thread, name: string, password: string)                  // about to emplace
    | Written(thread: Thread)                                                // about to unlock

  datatype State = State(
    heap: map<Object, Users>,
    count: map<Object, nat>,          // use counts
    users: Object,                    // users_ptr_
    lock: Lock,
    readers: map<Thread, Object>,     // copies of users_ptr_ held by readers, with or without the lock
    replies: seq<bool>)               // results of emplace, in order

  const INITIAL := State(map[0 := map[]], map[0 := 1], 0, Free, map[], [])

  datatype Action =
    | Take(thread: Thread)        // getUsersPtr locks
    | Copy(thread: Thread)        // ... copies the pointer
    | Leave(thread: Thread)       // ... unlocks
    | Release(thread: Thread)     // a reader drops its pointer
    | Start(thread: Thread, name: string, password: string)   // onRegisterRequest locks
    | Check(thread: Thread)
    | Clone(thread: Thread, clone: Object)
    | Reset(thread: Thread)
    | Emplace(thread: Thread)
    | Finish(thread: Thread)

  predicate Enabled(s: State, a: Action)
  {
    match a
    case Take(t) => s.lock.Free? && t !in s.readers
    case Copy(t) => s.lock == Reading(t, false) && s.users in s.count && t !in s.readers
    case Leave(t) => s.lock == Reading(t, true)
    case Release(t) => t in s.readers && s.lock != Reading(t, true) && s.readers[t] in s.count
                       && s.count[s.readers[t]] > 0
    case Start(t, _, _) => s.lock.Free? && t !in s.readers
    case Check(t) => s.lock.Checking? && s.lock.thread == t && s.users in s.count
    case Clone(t, o) => s.lock.Shared? && s.lock.thread == t && o !in s.heap && s.users in s.heap
    case Reset(t) => s.lock.Cloned? && s.lock.thread == t && s.users in s.count && s.count[s.users] > 0
    case Emplace(t) => s.lock.Ready? && s.lock.thread == t && s.users in s.heap
    case Finish(t) => s.lock == Written(t)
  }

  /** unordered_map::emplace leaves an entry that is there as it is. */
  function Emplaced(m: Users, name: string, password: string): Users
  {
    if name in m then m else m[name := password]
  }

  /** One reference to o less; the last one frees it. */
  function Dropped(s: State, o: Object): State
    requires o in s.count && s.count[o] > 0
  {
    if s.count[o] == 1 then s.(heap := s.heap - {o}, count := s.count - {o})
    else s.(count := s.count[o := s.count[o] - 1])
  }

  function Do(s: State, a: Action): State
    requires Enabled(s, a)
  {
    match a
    case Take(t) => s.(lock := Reading(t, false))
    case Copy(t) =>
      s.(lock := Reading(t, true), readers := s.readers[t := s.users],
         count := s.count[s.users := s.count[s.users] + 1])
    case Leave(t) => s.(lock := Free)
    case Release(t) => Dropped(s, s.readers[t]).(readers := s.readers - {t})
    case Start(t, name, password) => s.(lock := Checking(t, name, password))
    case Check(t) =>
      s.(lock := if s.count[s.users] == 1 then Ready(t, s.lock.name, s.lock.password)
                 else Shared(t, s.lock.name, s.lock.password))
    case Clone(t, o) =>
      s.(heap := s.heap[o := s.heap[s.users]], lock := Cloned(t, s.lock.name, s.lock.password, o))
    case Reset(t) =>
      var dropped := Dropped(s, s.users);
      dropped.(users := s.lock.clone, count := dropped.count[s.lock.clone := 1],
               lock := Ready(t, s.lock.name, s.lock.password))
    case Emplace(t) =>
      s.(heap := s.heap[s.users := Emplaced(s.heap[s.users], s.lock.name, s.lock.password)],
         lock := Written(t), replies := s.replies + [s.lock.name !in s.heap[s.users]])
    case Finish(t) => s.(lock := Free)
  }

  function Next(s: State, a: Action): State
  {
    if Enabled(s, a) then Do(s, a) else s
  }

  /** Every interleaving is a sequence of actions; one that is not enabled when its turn comes has no effect. */
  function Exec(s: State, run: seq<Action>): State
    decreases |run|
  {
    if run == [] then s else Next(Exec(s, run[..|run| - 1]), run[|run| - 1])
  }

  // ---------------------------------------------------------------------- atomic map

  /** The simple table: one map that each registration changes at once, the moment it takes the lock. */
  function Table(run: seq<Action>): Users
    decreases |run|
  {
    if run == [] then map[]
    else
      var front, last := run[..|run| - 1], run[|run| - 1];
      if last.Start? && Enabled(Exec(INITIAL, front), last) then Emplaced(Table(front), last.name, last.password)
      else Table(front)
  }

  /** What the simple table answers each registration. */
  function Outcomes(run: seq<Action>): seq<bool>
    decreases |run|
  {
    if run == [] then []
    else
      var front, last := run[..|run| - 1], run[|run| - 1];
      if last.Start? && Enabled(Exec(INITIAL, front), last) then Outcomes(front) + [last.name !in Table(front)]
      else Outcomes(front)
  }

  // ----------------------------------------------------------------------- invariant

  ghost function Holders(s: State, o: Object): set<Thread>
  {
    set t | t in s.readers && s.readers[t] == o
  }

  ghost predicate IsClone(s: State, o: Object)
  {
    s.lock.Cloned? && s.lock.clone == o
  }

  /** The use count is the number of pointers to the object: its readers, and one if it is the live map. */
  ghost predicate CountOk(s: State, o: Object)
    requires o in s.count
  {
    s.count[o] > 0 && s.count[o] == |Holders(s, o)| + if o == s.users then 1 else 0
  }

  ghost predicate ReaderOk(s: State, t: Thread)
    requires t in s.readers
  {
    s.readers[t] in s.count
  }

  ghost predicate LockOk(s: State)
  {
    && (s.lock.Ready? ==> s.users in s.count && s.count[s.users] == 1)
    && (s.lock.Cloned? ==>
          s.lock.clone in s.heap && s.lock.clone !in s.count && s.users in s.heap && s.heap[s.lock.clone] == s.heap[s.users])
    && (s.lock.Reading? ==> (s.lock.copied <==> s.lock.thread in s.readers))
  }

  ghost predicate Inv(s: State)
  {
    && s.users in s.count && s.count.Keys <= s.heap.Keys
    && (forall o :: o in s.heap ==> o in s.count || IsClone(s, o))
    && (forall o {:trigger CountOk(s, o)} :: o in s.count ==> CountOk(s, o))
    && (forall t {:trigger ReaderOk(s, t)} :: t in s.readers ==> ReaderOk(s, t))
    && LockOk(s)
  }

  lemma HoldersGrow(s: State, t: Thread, o: Object, p: Object)
    requires t !in s.readers
    ensures |Holders(s.(readers := s.readers[t := o]), p)| == |Holders(s, p)| + if p == o then 1 else 0
  {
    var after := Holders(s.(readers := s.readers[t := o]), p);
    assert after == if p == o then Holders(s, p) + {t} else Holders(s, p);
  }

  lemma HoldersShrink(s: State, t: Thread, p: Object)
    requires t in s.readers
    ensures |Holders(s.(readers := s.readers - {t}), p)| == |Holders(s, p)| - if p == s.readers[t] then 1 else 0
  {
    var after := Holders(s.(readers := s.readers - {t}), p);
    assert after == if p == s.readers[t] then Holders(s, p) - {t} else Holders(s, p);
  }

  lemma CountStaysOk(s: State, a: Action, o: Object)
    requires Inv(s) && Enabled(s, a) && o in Do(s, a).count
    ensures CountOk(Do(s, a), o)
  {
    var t := Do(s, a);
    assert o in s.count ==> CountOk(s, o);
    if a.Copy? {
      HoldersGrow(s, a.thread, s.users, o);
      assert Holders(t, o) == Holders(s.(readers := t.readers), o);
    } else if a.Release? {
      assert ReaderOk(s, a.thread);
      HoldersShrink(s, a.thread, o);
      assert Holders(t, o) == Holders(s.(readers := t.readers), o);
    } else {
      assert Holders(t, o) == Holders(s, o);
      if a.Reset? && o !in s.count {
        NoHolders(s, o);
      }
    }
  }

  lemma NoHolders(s: State, o: Object)
    requires Inv(s) && o !in s.count
    ensures Holders(s, o) == {}
  {
    assert forall t :: t in s.readers ==> ReaderOk(s, t);
  }

  lemma ReaderStaysOk(s: State, a: Action, t: Thread)
    requires Inv(s) && Enabled(s, a) && t in Do(s, a).readers
    ensures ReaderOk(Do(s, a), t)
  {
    assert t in s.readers ==> ReaderOk(s, t);
    if t in s.readers && (a.Release? || a.Reset?) {
      assert CountOk(s, s.readers[t]);
      assert t in Holders(s, s.readers[t]);
      if a.Release? && s.readers[t] == s.readers[a.thread] {
        assert {t, a.thread} <= Holders(s, s.readers[t]);
        SubsetCardinality({t, a.thread}, Holders(s, s.readers[t]));
      }
    }
  }

  lemma {:induction false} SubsetCardinality(a: set<Thread>, b: set<Thread>)
    requires a <= b
    ensures |a| <= |b|
  {
    assert b == a + (b - a);
  }

  lemma StepKeepsInv(s: State, a: Action)
    requires Inv(s) && Enabled(s, a)
    ensures Inv(Do(s, a))
  {
    var t := Do(s, a);
    assert CountOk(s, s.users);
    if a.Release? {
      assert ReaderOk(s, a.thread);
      assert CountOk(s, s.readers[a.thread]);
      assert a.thread in Holders(s, s.readers[a.thread]);
    }
    forall o | o in t.count
      ensures CountOk(t, o)
    {
      CountStaysOk(s, a, o);
    }
    forall r | r in t.readers
      ensures ReaderOk(t, r)
    {
      ReaderStaysOk(s, a, r);
    }
  }

  lemma {:induction false} RunKeepsInv(run: seq<Action>)
    ensures Inv(Exec(INITIAL, run))
    decreases |run|
  {
    if run == [] {
      assert Holders(INITIAL, 0) == {};
    } else {
      RunKeepsInv(run[..|run| - 1]);
      var s, a := Exec(INITIAL, run[..|run| - 1]), run[|run| - 1];
      if Enabled(s, a) {
        StepKeepsInv(s, a);
      }
    }
  }

  // ---------------------------------------------------------------------- statements

  /** The assertion before emplace always holds: only the server's own pointer refers to the map. */
  lemma UniqueHolds(run: seq<Action>, t: Thread)
    requires Enabled(Exec(INITIAL, run), Emplace(t))
    ensures var s := Exec(INITIAL, run); s.users in s.count && s.count[s.users] == 1 && Holders(s, s.users) == {}
  {
    RunKeepsInv(run);
    assert CountOk(Exec(INITIAL, run), Exec(INITIAL, run).users);
  }

  /** In every interleaving the use count of the live map is one plus the readers holding it. */
  lemma LiveCount(run: seq<Action>)
    ensures var s := Exec(INITIAL, run); s.users in s.count && s.count[s.users] == 1 + |Holders(s, s.users)|
  {
    RunKeepsInv(run);
    assert CountOk(Exec(INITIAL, run), Exec(INITIAL, run).users);
  }

  /** No step changes or frees a map that a reader holds before and after it. */
  lemma ReadersUndisturbed(s: State, a: Action, t: Thread)
    requires Inv(s) && t in s.readers && t in Next(s, a).readers
    ensures s.readers[t] in s.heap && s.readers[t] in Next(s, a).heap
    ensures Next(s, a).readers[t] == s.readers[t]
    ensures Next(s, a).heap[s.readers[t]] == s.heap[s.readers[t]]
  {
    assert ReaderOk(s, t) && CountOk(s, s.users) && CountOk(s, s.readers[t]);
    assert t in Holders(s, s.readers[t]);
    if Enabled(s, a) {
      StepKeepsInv(s, a);
      assert ReaderOk(Do(s, a), t);
    }
  }

  lemma StaysReader(s: State, a: Action, t: Thread)
    requires t in s.readers && a != Release(t)
    ensures t in Next(s, a).readers
  {
  }

  lemma ExecSnoc(s: State, run: seq<Action>, a: Action)
    ensures Exec(s, run + [a]) == Next(Exec(s, run), a)
  {
    assert (run + [a])[..|run|] == run;
  }

  lemma {:induction false} ExecConcat(s: State, a: seq<Action>, b: seq<Action>)
    ensures Exec(s, a + b) == Exec(Exec(s, a), b)
    decreases |b|
  {
    if b == [] {
      assert a + b == a;
    } else {
      ExecConcat(s, a, b[..|b| - 1]);
      assert (a + b)[..|a + b| - 1] == a + b[..|b| - 1];
    }
  }

  lemma HeldStep(s: State, a: Action, t: Thread)
    requires Inv(s) && t in s.readers && a != Release(t)
    ensures Inv(Next(s, a))
    ensures t in Next(s, a).readers && Next(s, a).readers[t] == s.readers[t]
    ensures s.readers[t] in s.heap && s.readers[t] in Next(s, a).heap
    ensures Next(s, a).heap[s.readers[t]] == s.heap[s.readers[t]]
  {
    StaysReader(s, a, t);
    ReadersUndisturbed(s, a, t);
    if Enabled(s, a) {
      StepKeepsInv(s, a);
    }
  }

  /** A reader keeps its pointer and sees the same map until it releases the pointer. */
  lemma {:induction false} StillHeld(s: State, rest: seq<Action>, t: Thread)
    requires Inv(s) && t in s.readers && Release(t) !in rest
    ensures var s' := Exec(s, rest);
            && Inv(s') && t in s'.readers && s'.readers[t] == s.readers[t]
            && s.readers[t] in s.heap && s.readers[t] in s'.heap
            && s'.heap[s.readers[t]] == s.heap[s.readers[t]]
    decreases |rest|
  {
    if rest == [] {
      assert ReaderOk(s, t);
    } else {
      var front, last := rest[..|rest| - 1], rest[|rest| - 1];
      StillHeld(s, front, t);
      HeldStep(Exec(s, front), last, t);
    }
  }

  ghost predicate Unwritten(lock: Lock)
  {
    lock.Checking? || lock.Shared? || lock.Cloned? || lock.Ready?
  }

  /** The live map is the simple table, except that a writer inside the lock may still have to emplace. */
  lemma {:induction false} LiveMapIsTable(run: seq<Action>)
    ensures var s := Exec(INITIAL, run);
            && s.users in s.heap
            && (if Unwritten(s.lock) then Emplaced(s.heap[s.users], s.lock.name, s.lock.password) else s.heap[s.users])
               == Table(run)
            && (if Unwritten(s.lock) then s.replies + [s.lock.name !in s.heap[s.users]] else s.replies) == Outcomes(run)
    decreases |run|
  {
    RunKeepsInv(run);
    if run != [] {
      var front, last := run[..|run| - 1], run[|run| - 1];
      LiveMapIsTable(front);
      RunKeepsInv(front);
      LiveMapStep(Exec(INITIAL, front), last);
    }
  }

  lemma LiveMapStep(s: State, a: Action)
    requires Inv(s) && Inv(Next(s, a))
    ensures var t := Next(s, a);
            && (Unwritten(s.lock) && Unwritten(t.lock) ==>
                  t.lock.name == s.lock.name && t.lock.password == s.lock.password)
            && (Unwritten(t.lock) && !Unwritten(s.lock) ==>
                  a.Start? && Enabled(s, a) && t.lock.name == a.name && t.lock.password == a.password)
            && (a.Start? && Enabled(s, a) ==> Unwritten(t.lock) && !Unwritten(s.lock))
            && t.heap[t.users] == (if Unwritten(s.lock) && !Unwritten(t.lock)
                                   then Emplaced(s.heap[s.users], s.lock.name, s.lock.password) else s.heap[s.users])
            && t.replies == (if Unwritten(s.lock) && !Unwritten(t.lock)
                             then s.replies + [s.lock.name !in s.heap[s.users]] else s.replies)
  {
    assert CountOk(s, s.users);
    if a.Release? && Enabled(s, a) {
      assert CountOk(s, s.readers[a.thread]);
      assert a.thread in Holders(s, s.readers[a.thread]);
    }
  }

  /** Copy on write is invisible: whatever runs in between, a reader that copied the pointer after the steps
      in before sees, until it releases it, exactly the simple table of that moment. */
  lemma ReadersSeeTheTable(before: seq<Action>, rest: seq<Action>, t: Thread)
    requires Enabled(Exec(INITIAL, before), Copy(t)) && Release(t) !in rest
    ensures var s := Exec(INITIAL, before + [Copy(t)] + rest);
            && t in s.readers && s.readers[t] in s.heap
            && s.heap[s.readers[t]] == Table(before)
  {
    LiveMapIsTable(before);
    assert (before + [Copy(t)])[..|before|] == before;
    RunKeepsInv(before + [Copy(t)]);
    StillHeld(Exec(INITIAL, before + [Copy(t)]), rest, t);
    ExecConcat(INITIAL, before + [Copy(t)], rest);
  }

  /** Whenever the lock is free, every registration has been answered as the simple table answers it. */
  lemma RegistrationsAreAtomic(run: seq<Action>)
    requires Exec(INITIAL, run).lock.Free?
    ensures var s := Exec(INITIAL, run); s.replies == Outcomes(run) && s.users in s.heap && s.heap[s.users] == Table(run)
  {
    LiveMapIsTable(run);
  }

  // ------------------------------------------------------------- what the simple table holds

  /** The k-th step of the run is a registration of the name that takes the lock. */
  ghost predicate Registers(run: seq<Action>, k: nat, name: string)
    requires k < |run|
  {
    run[k].Start? && run[k].name == name && Enabled(Exec(INITIAL, run[..k]), run[k])
  }

  ghost predicate NeverRegistered(run: seq<Action>, name: string)
  {
    forall k :: 0 <= k < |run| ==> !Registers(run, k, name)
  }

  /** ... the first of the run. */
  ghost predicate RegistersFirst(run: seq<Action>, k: nat, name: string)
    requires k < |run|
  {
    Registers(run, k, name) && NeverRegistered(run[..k], name)
  }

  lemma RegistersInPrefix(run: seq<Action>, n: nat, k: nat, name: string)
    requires k < n <= |run|
    ensures Registers(run[..n], k, name) <==> Registers(run, k, name)
  {
    assert run[..n][..k] == run[..k];
  }

  lemma NeverOneMore(run: seq<Action>, name: string)
    requires run != []
    ensures NeverRegistered(run, name) <==> NeverRegistered(run[..|run| - 1], name) && !Registers(run, |run| - 1, name)
  {
    var n := |run| - 1;
    forall k | 0 <= k < n
      ensures Registers(run[..n], k, name) <==> Registers(run, k, name)
    {
      RegistersInPrefix(run, n, k, name);
    }
  }

  lemma {:induction false} InTableExactly(run: seq<Action>, name: string)
    ensures name in Table(run) <==> !NeverRegistered(run, name)
    decreases |run|
  {
    if run != [] {
      InTableExactly(run[..|run| - 1], name);
      NeverOneMore(run, name);
    }
  }

  lemma {:induction false} PasswordStays(before: seq<Action>, rest: seq<Action>, name: string)
    requires name in Table(before)
    ensures name in Table(before + rest) && Table(before + rest)[name] == Table(before)[name]
    decreases |rest|
  {
    if rest == [] {
      assert before + rest == before;
    } else {
      var n := |rest| - 1;
      PasswordStays(before, rest[..n], name);
      assert (before + rest)[..|before + rest| - 1] == before + rest[..n];
    }
  }

  lemma FirstEntry(run: seq<Action>, k: nat, name: string)
    requires k < |run| && RegistersFirst(run, k, name)
    ensures name in Table(run[..k + 1]) && Table(run[..k + 1])[name] == run[k].password
  {
    InTableExactly(run[..k], name);
    assert run[..k + 1][..k] == run[..k];
  }

  lemma EntryStays(run: seq<Action>, n: nat, name: string)
    requires n <= |run| && name in Table(run[..n])
    ensures name in Table(run) && Table(run)[name] == Table(run[..n])[name]
  {
    PasswordStays(run[..n], run[n..], name);
    assert run[..n] + run[n..] == run;
  }

  /** The table holds exactly the names that have been registered, each with the password of its first registration. */
  lemma TableIsFirst(run: seq<Action>, name: string)
    ensures name in Table(run) <==> exists k :: 0 <= k < |run| && Registers(run, k, name)
    ensures forall k :: 0 <= k < |run| && RegistersFirst(run, k, name) ==>
              name in Table(run) && Table(run)[name] == run[k].password
  {
    InTableExactly(run, name);
    forall k | 0 <= k < |run| && RegistersFirst(run, k, name)
      ensures name in Table(run) && Table(run)[name] == run[k].password
    {
      FirstEntry(run, k, name);
      EntryStays(run, k + 1, name);
    }
  }

  /** A registration succeeds exactly if it is the first of its name. */
  lemma FirstSucceeds(before: seq<Action>, t: Thread, name: string, password: string)
    requires Enabled(Exec(INITIAL, before), Start(t, name, password))
    ensures Outcomes(before + [Start(t, name, password)]) == Outcomes(before) + [NeverRegistered(before, name)]
  {
    InTableExactly(before, name);
    assert (before + [Start(t, name, password)])[..|before|] == before;
  }

  /** After the first registration of a name, whatever else is registered, its password and no other logs in. */
  lemma RegisteredCanLogin(before: seq<Action>, t: Thread, name: string, password: string, rest: seq<Action>, entered: string)
    requires Enabled(Exec(INITIAL, before), Start(t, name, password)) && NeverRegistered(before, name)
    ensures LoginSucceeds(Table(before + [Start(t, name, password)] + rest), name, entered) <==> entered == password
  {
    var start := before + [Start(t, name, password)];
    InTableExactly(before, name);
    assert start[..|before|] == before;
    PasswordStays(start, rest, name);
  }

  /** Nothing is leaked: with no reader and the lock free there is one map, referred to once. */
  lemma OneMapWhenQuiet(run: seq<Action>)
    requires Exec(INITIAL, run).lock.Free? && Exec(INITIAL, run).readers == map[]
    ensures var s := Exec(INITIAL, run); s.heap.Keys == {s.users} && s.count == map[s.users := 1]
  {
    RunKeepsInv(run);
    var s := Exec(INITIAL, run);
    forall o | o in s.count
      ensures o == s.users && s.count[o] == 1
    {
      assert CountOk(s, o) && Holders(s, o) == {};
    }
  }

  /** The next step of the thread inside the lock; a clone goes to the given address. */
  function NextStep(lock: Lock, unused: Object): Action
    requires !lock.Free?
  {
    match lock
    case Reading(t, copied) => if copied then Leave(t) else Copy(t)
    case Checking(t, _, _) => Check(t)
    case Shared(t, _, _) => Clone(t, unused)
    case Cloned(t, _, _, _) => Reset(t)
    case Ready(t, _, _) => Emplace(t)
    case Written(t) => Finish(t)
  }

  /** Nobody waits inside the lock: its holder can always take its next step, and a reader that has left the
      lock can always release its pointer. */
  lemma NobodyWaits(run: seq<Action>, unused: Object, r: Thread)
    requires unused !in Exec(INITIAL, run).heap
    ensures var s := Exec(INITIAL, run);
            && (!s.lock.Free? ==> Enabled(s, NextStep(s.lock, unused)))
            && (r in s.readers && s.lock != Reading(r, true) ==> Enabled(s, Release(r)))
  {
    RunKeepsInv(run);
    var s := Exec(INITIAL, run);
    assert CountOk(s, s.users);
    if r in s.readers {
      assert ReaderOk(s, r);
      assert CountOk(s, s.readers[r]);
    }
  }

  // -------------------------------------------------------------------------- server

  /** What onLoginRequest decides from the map it read. */
  function LoginSucceeds(m: Users, name: string, password: string): bool
  {
    var stored := if name in m then m[name] else "";
    stored == password
  }

  /** storedPassword starts empty, so besides the right password of a registered user the empty password of
      a name that nobody has registered is accepted, and nothing else. */
  lemma LoginExactly(m: Users, name: string, password: string)
    ensures LoginSucceeds(m, name, password) <==> (name, password) in m.Items || (name !in m && password == "")
  {
    if name in m {
      assert (name, m[name]) in m.Items;
    }
  }

  /** The documented meaning, success only for a registered user, holds exactly when the password is not
      empty or the name is registered. */
  lemma LoginMeansRegistered(m: Users, name: string, password: string)
    ensures (LoginSucceeds(m, name, password) ==> (name, password) in m.Items) <==> password != "" || name in m
  {
    LoginExactly(m, name, password);
  }

  /** A step that thread t does not take. */
  predicate ByOthers(t: Thread, a: Action)
  {
    a.thread != t
  }

  predicate AllByOthers(t: Thread, others: seq<Action>)
  {
    forall k :: 0 <= k < |others| ==> ByOthers(t, others[k])
  }

  lemma OthersStep(s: State, a: Action, t: Thread)
    requires Inv(s) && ByOthers(t, a)
    ensures Inv(Next(s, a))
    ensures t in Next(s, a).readers <==> t in s.readers
    ensures t in s.readers ==>
              && Next(s, a).readers[t] == s.readers[t]
              && s.readers[t] in s.heap && s.readers[t] in Next(s, a).heap
              && Next(s, a).heap[s.readers[t]] == s.heap[s.readers[t]]
    ensures Next(s, a).lock == Reading(t, true) ==> s.lock == Reading(t, true)
  {
    if Enabled(s, a) {
      StepKeepsInv(s, a);
    }
    if t in s.readers {
      StaysReader(s, a, t);
      ReadersUndisturbed(s, a, t);
    }
  }

  /** Whatever the others do, a reader keeps its pointer and sees the same map. */
  lemma {:induction false} OthersKeep(s: State, others: seq<Action>, t: Thread)
    requires Inv(s) && AllByOthers(t, others)
    ensures Inv(Exec(s, others))
    ensures var s' := Exec(s, others);
            && (t in s'.readers <==> t in s.readers)
            && (t in s.readers ==>
                  && s'.readers[t] == s.readers[t] && s.readers[t] in s.heap && s.readers[t] in s'.heap
                  && s'.heap[s.readers[t]] == s.heap[s.readers[t]])
            && (s'.lock == Reading(t, true) ==> s.lock == Reading(t, true))
    decreases |others|
  {
    if others != [] {
      OthersKeep(s, others[..|others| - 1], t);
      OthersStep(Exec(s, others[..|others| - 1]), others[|others| - 1], t);
    } else if t in s.readers {
      assert ReaderOk(s, t);
    }
  }

  lemma CopyStep(s: State, t: Thread)
    requires Inv(s) && s.lock == Reading(t, false)
    ensures Enabled(s, Copy(t)) && Inv(Do(s, Copy(t))) && s.users in s.count
    ensures Do(s, Copy(t))
         == s.(lock := Reading(t, true), readers := s.readers[t := s.users], count := s.count[s.users := s.count[s.users] + 1])
  {
    StepKeepsInv(s, Copy(t));
  }

  lemma InstallStep(s: State, t: Thread, name: string, password: string, clone: Object)
    requires Inv(s) && s.lock == Cloned(t, name, password, clone) && s.count[s.users] > 1
    ensures Enabled(s, Reset(t)) && Inv(Do(s, Reset(t)))
    ensures Do(s, Reset(t))
         == s.(users := clone, count := s.count[s.users := s.count[s.users] - 1][clone := 1],
               lock := Ready(t, name, password))
  {
    StepKeepsInv(s, Reset(t));
  }

  lemma EmplaceSteps(s: State, t: Thread, name: string, password: string)
    requires Inv(s) && s.lock == Ready(t, name, password)
    ensures s.users in s.count && s.count[s.users] == 1 && s.users in s.heap
    ensures Enabled(s, Emplace(t)) && Enabled(Do(s, Emplace(t)), Finish(t))
    ensures Do(Do(s, Emplace(t)), Finish(t))
         == s.(heap := s.heap[s.users := Emplaced(s.heap[s.users], name, password)],
               lock := Free, replies := s.replies + [name !in s.heap[s.users]])
  {
  }

  /** The whole effect of a registration that got the lock: in place, or on a copy at a new address. */
  ghost predicate Registered(found: State, after: State, name: string, password: string, success: bool)
  {
    && found.users in found.heap && found.users in found.count
    && var m := found.heap[found.users];
       var table := if success then m[name := password] else m;
       && success == (name !in m)
       && after.replies == found.replies + [success] && after.readers == found.readers && after.lock.Free?
       && (if found.count[found.users] == 1 then
             && after.users == found.users && after.count == found.count
             && after.heap == found.heap[found.users := table]
           else
             && found.count[found.users] > 1 && after.users !in found.heap
             && after.count == found.count[found.users := found.count[found.users] - 1][after.users := 1]
             && after.heap == found.heap[after.users := table])
  }

  lemma CopyAndEmplace(heap: map<Object, Users>, o: Object, clone: Object, table: Users)
    requires o in heap
    ensures heap[clone := heap[o]][clone := table] == heap[clone := table]
  {
  }

  /** The server's fields, with the maps it allocates kept by address. A handler runs in one thread; others is
      what the other threads do while it waits for the lock or reads without it. */
  class ChatServer {
    var heap: map<Object, Users>
    var count: map<Object, nat>
    var users: Object                // users_ptr_
    var lock: Lock                   // users_mutex_
    var readers: map<Thread, Object>
    var replies: seq<bool>

    function Now(): State
      reads this
    {
      State(heap, count, users, lock, readers, replies)
    }

    constructor ()
      ensures Now() == INITIAL
    {
      heap, count, users, lock, readers, replies := map[0 := map[]], map[0 := 1], 0, Free, map[], [];
    }

    method Others(t: Thread, others: seq<Action>, ghost start: State, ghost before: seq<Action>)
      returns (ghost run: seq<Action>)
      requires Inv(Now()) && AllByOthers(t, others) && Exec(start, before) == Now()
      modifies this
      ensures Now() == Exec(old(Now()), others) && Inv(Now()) && Exec(start, run) == Now()
      ensures t in readers <==> t in old(readers)
      ensures t in readers ==>
                && readers[t] == old(readers)[t] && readers[t] in old(heap) && readers[t] in heap
                && heap[readers[t]] == old(heap)[readers[t]]
      ensures lock == Reading(t, true) ==> old(lock) == Reading(t, true)
      ensures run == before + others
    {
      OthersKeep(Now(), others, t);
      ExecConcat(start, before, others);
      run := before + others;
      var s := Exec(Now(), others);
      heap, count, users, lock, readers, replies := s.heap, s.count, s.users, s.lock, s.readers, s.replies;
    }

    /** The others run while t waits; it gets the lock if they have left it free. */
    method Wait(t: Thread, waiting: seq<Action>) returns (done: bool)
      requires Inv(Now()) && AllByOthers(t, waiting)
      modifies this
      ensures Now() == Exec(old(Now()), waiting) && Inv(Now()) && done == lock.Free?
      ensures t in readers <==> t in old(readers)
    {
      assert [] + waiting == waiting;
      ghost var run := Others(t, waiting, Now(), []);
      done := lock.Free?;
    }

    // ------------------------------------------------------------------------------- readers

    /** The steps of a thread that copies the pointer. */
    function ReadSteps(t: Thread): seq<Action>
    {
      [Take(t), Copy(t), Leave(t)]
    }

    /** A whole request that reads: the thread's own steps, around what others do while it waits and reads. */
    function ReaderRun(t: Thread, waiting: seq<Action>, reading: seq<Action>, done: bool): seq<Action>
    {
      if done then waiting + ReadSteps(t) + reading + [Action.Release(t)] else waiting
    }

    /** With the lock free: lock, copy the pointer, unlock. */
    method GetUsersPtr(t: Thread, ghost start: State, ghost before: seq<Action>) returns (ghost run: seq<Action>)
      requires Inv(Now()) && lock.Free? && t !in readers && Exec(start, before) == Now()
      modifies this
      ensures readers == old(readers)[t := users]
      ensures users == old(users) && heap == old(heap) && lock.Free? && replies == old(replies)
      ensures users in old(count) && count == old(count)[users := old(count)[users] + 1]
      ensures Inv(Now()) && Exec(start, run) == Now() && run == before + ReadSteps(t)
    {
      ExecSnoc(start, before, Take(t));
      StepKeepsInv(Now(), Take(t));
      lock := Reading(t, false);
      run := before + [Take(t)];
      run := CopyPointer(t, start, run);
      ExecSnoc(start, run, Leave(t));
      StepKeepsInv(Now(), Leave(t));
      lock := Free;
      run := run + [Leave(t)];
    }

    method CopyPointer(t: Thread, ghost start: State, ghost before: seq<Action>) returns (ghost run: seq<Action>)
      requires Inv(Now()) && lock == Reading(t, false) && Exec(start, before) == Now()
      modifies this`readers, this`count, this`lock
      ensures readers == old(readers)[t := users] && lock == Reading(t, true)
      ensures users in old(count) && count == old(count)[users := old(count)[users] + 1]
      ensures Inv(Now()) && Exec(start, run) == Now() && run == before + [Copy(t)]
    {
      ExecSnoc(start, before, Copy(t));
      CopyStep(Now(), t);
      readers, count := readers[t := users], count[users := count[users] + 1];
      lock := Reading(t, true);
      run := before + [Copy(t)];
    }

    /** The pointer is copied under the lock; then the map is read while the others go on. */
    method ReadTable(t: Thread, reading: seq<Action>, ghost start: State, ghost before: seq<Action>)
      returns (ghost run: seq<Action>)
      requires Inv(Now()) && lock.Free? && t !in readers && AllByOthers(t, reading) && Exec(start, before) == Now()
      modifies this
      ensures t in readers && readers[t] in heap && lock != Reading(t, true)
      ensures old(users) in old(heap) && heap[readers[t]] == old(heap)[old(users)]
      ensures Inv(Now()) && Exec(start, run) == Now() && run == before + ReadSteps(t) + reading
    {
      run := GetUsersPtr(t, start, before);
      run := Others(t, reading, start, run);
    }

    /** The last pointer to a map frees it. */
    method Release(t: Thread, ghost start: State, ghost before: seq<Action>) returns (ghost run: seq<Action>)
      requires Inv(Now()) && t in readers && lock != Reading(t, true) && Exec(start, before) == Now()
      modifies this`heap, this`count, this`readers
      ensures readers == old(readers) - {t}
      ensures Exec(start, run) == Now() && run == before + [Action.Release(t)]
    {
      assert ReaderOk(Now(), t) && CountOk(Now(), readers[t]);
      ExecSnoc(start, before, Action.Release(t));
      run := before + [Action.Release(t)];
      var o := readers[t];
      if count[o] == 1 {
        heap, count := heap - {o}, count - {o};
      } else {
        count := count[o := count[o] - 1];
      }
      readers := readers - {t};
    }

    /** Decides by the map of the moment it got the pointer, whatever others do while it reads. */
    method OnLoginRequest(t: Thread, name: string, password: string, waiting: seq<Action>, reading: seq<Action>)
      returns (success: bool, done: bool, ghost run: seq<Action>)
      requires Inv(Now()) && t !in readers && AllByOthers(t, waiting) && AllByOthers(t, reading)
      modifies this
      ensures var found := Exec(old(Now()), waiting);
              && done == found.lock.Free?
              && (done ==> found.users in found.heap && success == LoginSucceeds(found.heap[found.users], name, password))
      ensures t !in readers && Exec(old(Now()), run) == Now() && run == ReaderRun(t, waiting, reading, done)
    {
      success, run := false, waiting;
      done := Wait(t, waiting);
      if done {
        run := ReadTable(t, reading, old(Now()), waiting);
        var stored := if name in heap[readers[t]] then heap[readers[t]][name] else "";
        success := stored == password;
        run := Release(t, old(Now()), run);
      }
    }

    /** Lists every user whose name contains the keyword, each once, by the map of the moment it got the
        pointer. */
    method OnSearchRequest(t: Thread, keyword: string, waiting: seq<Action>, reading: seq<Action>)
      returns (names: seq<string>, done: bool, ghost run: seq<Action>)
      requires Inv(Now()) && t !in readers && AllByOthers(t, waiting) && AllByOthers(t, reading)
      modifies this
      ensures var found := Exec(old(Now()), waiting);
              && done == found.lock.Free?
              && (done ==> found.users in found.heap
                           && (forall name :: name in names <==> name in found.heap[found.users] && Contains(name, keyword))
                           && forall a, b :: a + keyword + b in names <==> a + keyword + b in found.heap[found.users])
      ensures forall i, j :: 0 <= i < j < |names| ==> names[i] != names[j]
      ensures t !in readers && Exec(old(Now()), run) == Now() && run == ReaderRun(t, waiting, reading, done)
    {
      names, run := [], waiting;
      done := Wait(t, waiting);
      if done {
        run := ReadTable(t, reading, old(Now()), waiting);
        names := Matching(heap[readers[t]], keyword);
        ListedAround(names, heap[readers[t]].Keys, keyword);
        run := Release(t, old(Now()), run);
      }
    }

    static method Matching(m: Users, keyword: string) returns (names: seq<string>)
      ensures forall name :: name in names <==> name in m && Contains(name, keyword)
      ensures forall i, j :: 0 <= i < j < |names| ==> names[i] != names[j]
    {
      names := [];
      var todo := m.Keys;
      while todo != {}
        invariant todo <= m.Keys
        invariant forall name :: name in names <==> name in m.Keys - todo && Contains(name, keyword)
        invariant forall i, j :: 0 <= i < j < |names| ==> names[i] != names[j]
        decreases |todo|
      {
        var user :| user in todo;
        assert user !in names && "" <= user[0..];
        if keyword == "" || Contains(user, keyword) {
          names := names + [user];
        }
        todo := todo - {user};
      }
    }

    // ------------------------------------------------------------------------------- writers

    /** The steps of a thread that registers: in place, or on a copy at a new address. */
    function WriteSteps(t: Thread, name: string, password: string, copied: bool, clone: Object): seq<Action>
    {
      [Start(t, name, password), Check(t)] + CopySteps(t, copied, clone) + [Emplace(t), Finish(t)]
    }

    function CopySteps(t: Thread, copied: bool, clone: Object): seq<Action>
    {
      if copied then [Clone(t, clone), Reset(t)] else []
    }

    /** Replaces the live map, which somebody else refers to, by a copy at an unused address. */
    method CopyForWriting(t: Thread, name: string, password: string, ghost start: State, ghost before: seq<Action>)
      returns (ghost run: seq<Action>)
      requires Inv(Now()) && lock == Shared(t, name, password) && count[users] > 1 && Exec(start, before) == Now()
      modifies this
      ensures users !in old(heap) && old(users) in old(heap)
      ensures heap == old(heap)[users := old(heap)[old(users)]]
      ensures count == old(count)[old(users) := old(count)[old(users)] - 1][users := 1]
      ensures lock == Ready(t, name, password) && readers == old(readers) && replies == old(replies)
      ensures Inv(Now()) && Exec(start, run) == Now() && run == before + [Clone(t, users), Reset(t)]
    {
      var clone := NewAddress(heap.Keys);
      run := CloneMap(t, name, password, clone, start, before);
      run := InstallClone(t, name, password, clone, start, run);
    }

    method CloneMap(t: Thread, name: string, password: string, clone: Object, ghost start: State, ghost before: seq<Action>)
      returns (ghost run: seq<Action>)
      requires Inv(Now()) && lock == Shared(t, name, password) && clone !in heap && Exec(start, before) == Now()
      modifies this`heap, this`lock
      ensures users in old(heap) && heap == old(heap)[clone := old(heap)[users]]
      ensures lock == Cloned(t, name, password, clone)
      ensures Inv(Now()) && Exec(start, run) == Now() && run == before + [Clone(t, clone)]
    {
      ExecSnoc(start, before, Clone(t, clone));
      StepKeepsInv(Now(), Clone(t, clone));
      run := before + [Clone(t, clone)];
      heap := heap[clone := heap[users]];
      lock := Cloned(t, name, password, clone);
    }

    method InstallClone(t: Thread, name: string, password: string, clone: Object, ghost start: State, ghost before: seq<Action>)
      returns (ghost run: seq<Action>)
      requires Inv(Now()) && lock == Cloned(t, name, password, clone) && count[users] > 1 && Exec(start, before) == Now()
      modifies this`count, this`users, this`lock
      ensures users == clone && lock == Ready(t, name, password)
      ensures old(users) in old(count) && old(count)[old(users)] > 1
      ensures count == old(count)[old(users) := old(count)[old(users)] - 1][clone := 1]
      ensures Inv(Now()) && Exec(start, run) == Now() && run == before + [Reset(t)]
    {
      ExecSnoc(start, before, Reset(t));
      InstallStep(Now(), t, name, password, clone);
      run := before + [Reset(t)];
      count := count[users := count[users] - 1][clone := 1];
      users := clone;
      lock := Ready(t, name, password);
    }

    static method NewAddress(used: set<Object>) returns (o: Object)
      ensures o !in used
    {
      o := 0;
      var todo := used;
      while todo != {}
        invariant todo <= used && forall x :: x in used ==> x in todo || x < o
        decreases |todo|
      {
        var x :| x in todo;
        o := if x < o then o else x + 1;
        todo := todo - {x};
      }
    }

    /** Changes the map in place only if nobody else refers to it; otherwise installs a changed copy and leaves
        the readers' map as it was. */
    method OnRegisterRequest(t: Thread, name: string, password: string, waiting: seq<Action>)
      returns (success: bool, done: bool, ghost run: seq<Action>)
      requires Inv(Now()) && t !in readers && AllByOthers(t, waiting)
      modifies this
      ensures var found := Exec(old(Now()), waiting);
              && done == found.lock.Free?
              && (done ==> Registered(found, Now(), name, password, success))
              && run == waiting + if done then WriteSteps(t, name, password, users != found.users, users) else []
      ensures Exec(old(Now()), run) == Now()
    {
      success, run := false, waiting;
      done := Wait(t, waiting);
      if done {
        success, run := Register(t, name, password, old(Now()), waiting);
      }
    }

    method Register(t: Thread, name: string, password: string, ghost start: State, ghost before: seq<Action>)
      returns (success: bool, ghost run: seq<Action>)
      requires Inv(Now()) && lock.Free? && t !in readers && Exec(start, before) == Now()
      modifies this
      ensures Registered(old(Now()), Now(), name, password, success)
      ensures Exec(start, run) == Now()
      ensures run == before + WriteSteps(t, name, password, users != old(users), users)
    {
      assert CountOk(Now(), users);
      run := CheckUnique(t, name, password, start, before);
      if lock.Shared? {
        run := CopyForWriting(t, name, password, start, run);
      }
      success, run := EmplaceAndUnlock(t, name, password, start, run);
      CopyAndEmplace(old(heap), old(users), users, heap[users]);
    }

    method CheckUnique(t: Thread, name: string, password: string, ghost start: State, ghost before: seq<Action>)
      returns (ghost run: seq<Action>)
      requires Inv(Now()) && lock.Free? && t !in readers && Exec(start, before) == Now()
      modifies this`lock
      ensures lock == if count[users] == 1 then Ready(t, name, password) else Shared(t, name, password)
      ensures Inv(Now()) && Exec(start, run) == Now() && run == before + [Start(t, name, password), Check(t)]
    {
      ExecSnoc(start, before, Start(t, name, password));
      StepKeepsInv(Now(), Start(t, name, password));
      lock := Checking(t, name, password);
      ExecSnoc(start, before + [Start(t, name, password)], Check(t));
      StepKeepsInv(Now(), Check(t));
      run := before + [Start(t, name, password)] + [Check(t)];
      lock := if count[users] == 1 then Ready(t, name, password) else Shared(t, name, password);
    }

    method EmplaceAndUnlock(t: Thread, name: string, password: string, ghost start: State, ghost before: seq<Action>)
      returns (success: bool, ghost run: seq<Action>)
      requires Inv(Now()) && lock == Ready(t, name, password) && Exec(start, before) == Now()
      modifies this`heap, this`lock, this`replies
      ensures users in old(heap) && success == (name !in old(heap)[users])
      ensures heap == old(heap)[users := Emplaced(old(heap)[users], name, password)]
      ensures lock.Free? && replies == old(replies) + [success]
      ensures Exec(start, run) == Now() && run == before + [Emplace(t), Finish(t)]
    {
      EmplaceSteps(Now(), t, name, password);
      ExecSnoc(start, before, Emplace(t));
      ExecSnoc(start, before + [Emplace(t)], Finish(t));
      run := before + [Emplace(t)] + [Finish(t)];
      success := name !in heap[users];
      if success {
        heap := heap[users := heap[users][name := password]];
      }
      replies := replies + [success];
      lock := Free;
    }
  }
}
