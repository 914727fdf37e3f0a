/** The lock table's methods carry out the lock steps of the transition system. */
module LockSteps {
  import opened Wrappers
  import opened Management
  import opened Metadata
  import opened ProfileLocks
  import opened Interleaving

  // ---- Who holds what ----

  /** While acquiring, an actor holds only what it no longer has to take. */
  ghost predicate Acquired(w: World, a: nat, g: Grant)
    requires a in w.actors && w.actors[a].phase.Acquiring?
  {
    exists n :: n in w.actors[a].op.Needs() - w.actors[a].phase.todo && n.lock == g.lock
  }

  /** Every grant belongs to an actor, and an acquiring one has nothing but what it took. */
  ghost predicate Orderly(w: World) {
    forall g | g in w.grants ::
      g.owner in w.actors && (w.actors[g.owner].phase.Acquiring? ==> Acquired(w, g.owner, g))
  }

  lemma NeedsDistinct(op: Op, n: Need, m: Need)
    requires n in op.Needs() && m in op.Needs() && n.lock == m.lock
    ensures n == m
  {
  }

  lemma TakeOrderly(w: World, rules: Rules, a: nat, n: Need)
    requires Orderly(w) && Inv(w, rules) && Next(w, rules, Act(a, Take(n))).Some?
    ensures Orderly(Next(w, rules, Act(a, Take(n))).value)
  {
    hide Valid, Op.Needs, Free;
    var x, w' := w.actors[a], Next(w, rules, Act(a, Take(n))).value;
    assert ActorOk(w, rules, a, x);
    assert n in x.op.Needs() - w'.actors[a].phase.todo;
    forall g | g in w'.grants
      ensures g.owner in w'.actors && (w'.actors[g.owner].phase.Acquiring? ==> Acquired(w', g.owner, g))
    {
      if g in w.grants && w.actors[g.owner].phase.Acquiring? {
        var m :| m in w.actors[g.owner].op.Needs() - w.actors[g.owner].phase.todo && m.lock == g.lock;
        assert m in w'.actors[g.owner].op.Needs() - w'.actors[g.owner].phase.todo;
      }
    }
  }

  /** A step other than `Take` gives nothing to an acquiring actor, and makes one only of an actor without locks. */
  lemma OtherOrderly(w: World, rules: Rules, e: Event)
    requires Orderly(w) && Next(w, rules, e).Some? && !(e.Act? && e.step.Take?)
    ensures Orderly(Next(w, rules, e).value)
  {
    hide Valid, Op.Needs, Op.Refs, Op.Uid, Op.Extended, ChangeOf, Free, RestoreProfile;
    var w' := Next(w, rules, e).value;
    forall g | g in w'.grants
      ensures g.owner in w'.actors && (w'.actors[g.owner].phase.Acquiring? ==> Acquired(w', g.owner, g))
    {
      if g in w.grants && w.actors[g.owner].phase.Acquiring? {
        assert Acquired(w, g.owner, g);
      }
    }
  }

  lemma {:induction false} RunOrderly(w: World, rules: Rules, events: seq<Event>)
    requires Initial(w, rules)
    ensures Orderly(Run(w, rules, events))
  {
    hide Next, Valid, Inv;
    if events != [] {
      var n := |events| - 1;
      var before := Run(w, rules, events[..n]);
      RunOrderly(w, rules, events[..n]);
      RunKeepsInv(w, rules, events[..n]);
      if Next(before, rules, events[n]).Some? {
        if events[n].Act? && events[n].step.Take? {
          TakeOrderly(before, rules, events[n].actor, events[n].step.need);
        } else {
          OtherOrderly(before, rules, events[n]);
        }
      }
    }
  }

  /** What is still to take is not held. */
  lemma NotYetHeld(w: World, rules: Rules, a: nat, n: Need)
    requires Orderly(w) && Inv(w, rules) && a in w.actors && w.actors[a].phase.Acquiring? && n in w.actors[a].phase.todo
    ensures forall g | g in w.grants && g.owner == a :: g.lock != n.lock
  {
    hide Valid, Op.Needs;
    var x := w.actors[a];
    assert ActorOk(w, rules, a, x);
    forall g | g in w.grants && g.owner == a
      ensures g.lock != n.lock
    {
      var m :| m in x.op.Needs() - x.phase.todo && m.lock == g.lock;
      if m.lock == n.lock {
        NeedsDistinct(x.op, n, m);
      }
    }
  }

  // ---- One lock ----

  /** Trying for a lock is the actor's `Take` step, possible exactly when the lock is granted. */
  method TakeStep(table: LockTable, w: World, rules: Rules, a: nat, n: Need) returns (next: Option<World>)
    requires Inv(w, rules) && Orderly(w) && table.grants == w.grants
    requires a in w.actors && w.actors[a].phase.Acquiring? && n in w.actors[a].phase.todo
    modifies table
    ensures next == Next(w, rules, Act(a, Take(n)))
    ensures table.grants == if next.Some? then next.value.grants else w.grants
  {
    hide Valid, Op.Needs, ActorOk, Exclusion;
    NotYetHeld(w, rules, a, n);
    InvParts(w, rules, a);
    var acquired := table.TryAcquire(n.lock, a, n.exclusive);
    if !acquired {
      return None;
    }
    var todo := w.actors[a].phase.todo - {n};
    return Some(World(w.config, w.markers, table.grants, w.actors[a := Actor(w.actors[a].op, Acquiring(todo))]));
  }

  /** Converting a guard's lifecycle lock is its `Upgrade` or `Downgrade` step, with the outcome the table reports. */
  method ConvertStep(table: LockTable, w: World, rules: Rules, a: nat, exclusive: bool, keeps: bool)
    returns (turn: Turn, next: World)
    requires Inv(w, rules) && table.grants == w.grants && a in w.actors && w.actors[a].op.Service()
    requires var phase := w.actors[a].phase;
      if exclusive then phase.Guarding? || phase.Contended? else phase.Published? || phase.Clearing?
    modifies table
    ensures Next(w, rules, Act(a, if exclusive then Upgrade(turn) else Downgrade(turn))) == Some(next)
    ensures table.grants == next.grants
    ensures turn == Turned <==> Free(w.grants, Lifecycle(w.actors[a].op.Uid()), a, exclusive)
    ensures turn != Turned ==> turn == Blocked(keeps)
  {
    hide Valid, Op.Needs, Op.Refs, Op.Uid, ActorOk, Exclusion, Free;
    InvParts(w, rules, a);
    var converted := table.TryConvert(Lifecycle(w.actors[a].op.Uid()), a, exclusive, keeps);
    match converted
    case Converted =>
      turn := Turned;
      next := Interleaving.Moved(w, a, if exclusive then Clearing else Guarding).(grants := table.grants);
    case Busy(kept) =>
      turn := Blocked(kept);
      next := Interleaving.Moved(w, a, Contended).(grants := table.grants);
  }

  // ---- All locks of an operation ----

  ghost function GrantsFor(needs: set<Need>, a: nat): set<Grant> {
    set n | n in needs :: Grant(n.lock, a, n.exclusive)
  }

  /** The world with `a` holding `done` and still to take `todo`. */
  ghost function Taking(w: World, a: nat, op: Op, done: set<Need>, todo: set<Need>): World {
    w.(actors := w.actors[a := Actor(op, Acquiring(todo))], grants := w.grants + GrantsFor(done, a))
  }

  lemma RunSnoc(w: World, rules: Rules, events: seq<Event>, e: Event)
    requires Next(Run(w, rules, events), rules, e).Some?
    ensures Run(w, rules, events + [e]) == Next(Run(w, rules, events), rules, e).value
  {
    hide Next;
    assert (events + [e])[..|events|] == events;
  }

  lemma TakingOne(w: World, rules: Rules, a: nat, op: Op, done: set<Need>, todo: set<Need>, n: Need)
    requires n in todo && Free(w.grants, n.lock, a, n.exclusive)
    ensures Next(Taking(w, a, op, done, todo), rules, Act(a, Take(n))) == Some(Taking(w, a, op, done + {n}, todo - {n}))
  {
    hide Op.Needs;
    var g := Grant(n.lock, a, n.exclusive);
    assert GrantsFor(done + {n}, a) == GrantsFor(done, a) + {g};
    assert w.grants + (GrantsFor(done, a) + {g}) == w.grants + GrantsFor(done, a) + {g};
    assert w.actors[a := Actor(op, Acquiring(todo))][a := Actor(op, Acquiring(todo - {n}))]
        == w.actors[a := Actor(op, Acquiring(todo - {n}))];
  }

  /** An operation whose locks are all free reaches `Locked` by taking them one after another, in any order. */
  lemma LocksOneByOne(w: World, rules: Rules, a: nat, op: Op) returns (events: seq<Event>)
    requires a !in w.actors && forall n | n in op.Needs() :: Free(w.grants, n.lock, a, n.exclusive)
    ensures Run(w, rules, events)
            == w.(actors := w.actors[a := Actor(op, Locked)], grants := w.grants + GrantsFor(op.Needs(), a))
  {
    hide Next, Op.Needs, Free;
    var todo, done: set<Need> := op.Needs(), {};
    events := [Act(a, Start(op))];
    Started(w, rules, a, op);
    while todo != {}
      invariant todo + done == op.Needs()
      invariant Run(w, rules, events) == Taking(w, a, op, done, todo)
      decreases |todo|
    {
      var n :| n in todo;
      TakingOne(w, rules, a, op, done, todo, n);
      RunSnoc(w, rules, events, Act(a, Take(n)));
      events, done, todo := events + [Act(a, Take(n))], done + {n}, todo - {n};
    }
    assert done == op.Needs();
    NowReady(w, rules, a, op);
    RunSnoc(w, rules, events, Act(a, Ready));
    events := events + [Act(a, Ready)];
  }

  lemma Started(w: World, rules: Rules, a: nat, op: Op)
    requires a !in w.actors
    ensures Run(w, rules, [Act(a, Start(op))]) == Taking(w, a, op, {}, op.Needs())
  {
    hide Op.Needs;
    assert w.grants + {} == w.grants;
    RunNothing(w, rules);
    RunSnoc(w, rules, [], Act(a, Start(op)));
    assert [] + [Act(a, Start(op))] == [Act(a, Start(op))];
  }

  lemma RunNothing(w: World, rules: Rules)
    ensures Run(w, rules, []) == w
  {
  }

  lemma NowReady(w: World, rules: Rules, a: nat, op: Op)
    ensures var locked := w.(actors := w.actors[a := Actor(op, Locked)], grants := w.grants + GrantsFor(op.Needs(), a));
      Next(Taking(w, a, op, op.Needs(), {}), rules, Act(a, Ready)) == Some(locked)
  {
    hide Op.Needs;
    assert w.actors[a := Actor(op, Acquiring({}))][a := Actor(op, Locked)] == w.actors[a := Actor(op, Locked)];
  }

  lemma MergedNeeds(requests: seq<Need>, op: Op, a: nat)
    requires forall n :: n in requests <==> n in op.Needs()
    ensures GrantsOf(Merged(requests), a) == GrantsFor(op.Needs(), a)
    ensures forall n | n in op.Needs() :: n.lock in Merged(requests) && Merged(requests)[n.lock] == n.exclusive
    ensures forall l | l in Merged(requests) :: Need(l, Merged(requests)[l]) in op.Needs()
  {
    hide Merged, Op.Needs;
    var m := Merged(requests);
    forall n | n in op.Needs()
      ensures n.lock in m && m[n.lock] == n.exclusive
    {
      assert n in requests;
      if m[n.lock] {
        assert Need(n.lock, true) in op.Needs();
        NeedsDistinct(op, n, Need(n.lock, true));
      }
    }
    forall l | l in m
      ensures Need(l, m[l]) in op.Needs()
    {
      var n :| n in requests && n.lock == l;
      assert n in op.Needs() && m[n.lock] == n.exclusive;
    }
    forall g
      ensures g in GrantsOf(m, a) <==> g in GrantsFor(op.Needs(), a)
    {
      if g in GrantsOf(m, a) {
        assert Need(g.lock, m[g.lock]) in op.Needs();
      }
    }
  }

  /** Begin an operation by taking all its locks at once: the table ends exactly where the steps of that operation lead. */
  method BeginOperation(table: LockTable, w: World, rules: Rules, a: nat, op: Op, requests: seq<Need>)
    returns (acquired: bool, ghost events: seq<Event>)
    requires Inv(w, rules) && Orderly(w) && table.grants == w.grants && a !in w.actors
    requires forall n :: n in requests <==> n in op.Needs()
    modifies table
    ensures acquired <==> forall n | n in op.Needs() :: Free(w.grants, n.lock, a, n.exclusive)
    ensures var end := Run(w, rules, events);
      table.grants == end.grants
      && if acquired then end == w.(actors := w.actors[a := Actor(op, Locked)], grants := end.grants) else end == w
  {
    hide Op.Needs, Merged, GrantsOf, Free, Exclusion, ActorOk, Valid;
    InvParts(w, rules, a);
    MergedNeeds(requests, op, a);
    acquired := table.AcquireOrdered(requests, a);
    events := [];
    if acquired {
      forall n | n in op.Needs()
        ensures Free(w.grants, n.lock, a, n.exclusive)
      {
        assert n.lock in Merged(requests);
      }
      events := LocksOneByOne(w, rules, a, op);
    } else {
      RunNothing(w, rules);
      var l :| l in Merged(requests) && !Free(w.grants, l, a, Merged(requests)[l]);
      assert Need(l, Merged(requests)[l]) in op.Needs();
    }
  }
}
