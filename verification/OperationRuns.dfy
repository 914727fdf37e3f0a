/** Whole operations on profiles: what each step may change, and where an operation left to itself ends. */
module OperationRuns {
  import opened CaseFolding
  import opened Contracts
  import opened Management
  import opened Metadata
  import opened ProfileLocks
  import opened Interleaving
  import opened LockSteps
  import opened Wrappers

  // ---- What one step may change ----

  /** Everyone but `a` goes on as before, with the locks they had. */
  ghost predicate OthersAsBefore(w: World, w': World, a: nat) {
    && (forall b | b != a :: b in w.actors <==> b in w'.actors)
    && (forall b | b in w.actors && b in w'.actors && b != a :: w'.actors[b] == w.actors[b])
    && forall g: Grant | g.owner != a :: g in w.grants <==> g in w'.grants
  }

  lemma OnlyOwnSteps(w: World, rules: Rules, a: nat, step: Step)
    requires ActStep(w, rules, a, step).Some?
    ensures OthersAsBefore(w, ActStep(w, rules, a, step).value, a)
  {
    hide Valid, Op.Needs, Op.Refs, Op.Uid, Op.Extended, ChangeOf, Free, RestoreProfile;
  }

  /** The change an operation makes to metadata, where it makes one. */
  ghost predicate Makes(c: Config, op: Op, c': Config) {
    match op
    case Edit(id, p, details) => EditProfile(c, id, p, details) == Ok(c')
    case Rename(id, p, newName) => RenameProfile(c, id, newName, p) == Ok(c')
    case Remove(id, p) => RemoveProfile(c, id, p) == Ok(c')
    case Add(id, p) => AddProfile(c, id, p) == Ok(c')
    case _ => false
  }

  /** Metadata changes only by an update and by a restoration, each of which is the operation's own change. */
  lemma MetadataSteps(w: World, rules: Rules, a: nat, step: Step)
    requires ActStep(w, rules, a, step).Some?
    ensures var w' := ActStep(w, rules, a, step).value;
      match step
      case Update => Makes(w.config, w.actors[a].op, w'.config)
      case Restore =>
        w.actors[a].op.Remove? && RestoreProfile(w.config, w.actors[a].op.id, w.actors[a].op.profile) == Ok(w'.config)
      case _ => w'.config == w.config
  {
    hide Valid, Op.Needs, Op.Refs, Op.Uid, Op.Extended, Free;
  }

  /** Markers appear only by publishing, for the identity and reference of the fence, and go only by clearing or unlinking. */
  lemma MarkerChanges(w: World, rules: Rules, a: nat, step: Step)
    requires ActStep(w, rules, a, step).Some?
    ensures var m, m' := w.markers, ActStep(w, rules, a, step).value.markers;
      if step.Publish? then
        w.actors[a].op.Fence? && var op := w.actors[a].op;
        op.uid !in m && op.uid in m' && m'[op.uid] == op.ref
        && forall u | u != op.uid :: (u in m <==> u in m') && (u in m ==> m'[u] == m[u])
      else if step.Clear? || step.Unlink? then
        var uid := w.actors[a].op.Uid();
        uid !in m' && forall u | u != uid :: (u in m <==> u in m') && (u in m ==> m'[u] == m[u])
      else m' == m
  {
    hide Valid, Op.Needs, Op.Refs, Op.Extended, ChangeOf, Free, RestoreProfile;
  }

  /** In every reachable world clearing or unlinking takes away exactly the guard's own marker, which was there; a cleared
      guard is gone with its locks, an unlinked one keeps them. */
  lemma ClearingUnmarks(w: World, rules: Rules, events: seq<Event>, a: nat, step: Step)
    requires Initial(w, rules) && (step.Clear? || step.Unlink?) && Next(Run(w, rules, events), rules, Act(a, step)).Some?
    ensures var now := Run(w, rules, events);
      var next, uid := Next(now, rules, Act(a, step)).value, now.actors[a].op.Uid();
      && OthersAsBefore(now, next, a) && next.config == now.config
      && uid in now.markers && uid !in next.markers
      && (forall u | u != uid :: (u in now.markers <==> u in next.markers) && (u in now.markers ==> next.markers[u] == now.markers[u]))
      && (step.Clear? ==> a !in next.actors && forall g | g in next.grants :: g.owner != a)
      && (step.Unlink? ==> next.actors[a] == Actor(now.actors[a].op, Deferred) && next.grants == now.grants)
  {
    hide Valid, Inv, Op.Needs, Op.Refs, Op.Extended, ChangeOf, Free, Exclusion, Restorable;
    var now := Run(w, rules, events);
    RunKeepsInv(w, rules, events);
    InvParts(now, rules, a);
    OnlyOwnSteps(now, rules, a, step);
    MarkerChanges(now, rules, a, step);
  }

  /** A guard is published only for a current or historic profile without a marker, adopted only for a marker among its profiles,
      and deferred as an orphan only where a marker already stands. */
  lemma GuardsBegin(w: World, rules: Rules, a: nat, step: Step)
    requires ActStep(w, rules, a, step).Some? && (step.Publish? || step.Adopt? || step.Orphan?)
    ensures a in w.actors && w.actors[a].phase.Locked?
    ensures var op, next := w.actors[a].op, ActStep(w, rules, a, step).value.actors[a];
      && next.op == op
      && (step.Publish? ==> Publishable(w, op) && next.phase.Published?)
      && (step.Adopt? ==> op.Recover? && op.uid in w.markers && w.markers[op.uid] in op.refs && next.phase.Guarding?)
      && (step.Orphan? ==> op.Fence? && op.uid in w.markers && next.phase.Deferred?)
  {
    hide Valid, Op.Needs;
  }

  /** A fence may be published for the profile named, or for an identity whose profile is historic. */
  predicate Publishable(w: World, op: Op) {
    op.Fence? && op.uid !in w.markers && (op.historic || (op.ref in w.config.profiles && w.config.profiles[op.ref].uid == op.uid))
  }

  /** A guard takes over a further alias only when nobody holds it, itself included, and excludes it from then on; it uses its
      identity's home in one mode at a time. */
  lemma GuardsTakeOver(w: World, rules: Rules, a: nat, step: Step)
    requires ActStep(w, rules, a, step).Some? && (step.Extend? || step.UseHome?)
    ensures a in w.actors && w.actors[a].op.Service() && w.actors[a].phase.Guarding?
    ensures var op, w' := w.actors[a].op, ActStep(w, rules, a, step).value;
      && w'.actors[a].phase.Guarding? && w'.actors[a].op.Uid() == op.Uid()
      && (step.Extend? ==>
            && (forall g | g in w.grants :: g.lock != AliasOf(step.ref))
            && w'.grants == w.grants + {Grant(AliasOf(step.ref), a, true)} && w'.actors[a].op.Refs() == op.Refs() + {step.ref})
      && (step.UseHome? ==>
            && w'.actors[a].op == op
            && forall g: Grant | g.owner == a ::
                 g in w'.grants <==> if g.lock == Resource(op.Uid()) then g.exclusive == step.exclusive else g in w.grants)
  {
    hide Valid, Op.Needs, Op.Refs, Op.Uid, Op.Extended;
    if step.Extend? { ExtendedKeeps(w.actors[a].op, step.ref); }
  }

  // ---- Running an operation to its end ----

  /** Nobody stands in the way of the operation's locks. */
  ghost predicate AllFree(w: World, a: nat, op: Op) {
    a !in w.actors && forall n | n in op.Needs() :: Free(w.grants, n.lock, a, n.exclusive)
  }

  ghost function LockedWorld(w: World, a: nat, op: Op): World {
    w.(actors := w.actors[a := Actor(op, Locked)], grants := w.grants + GrantsFor(op.Needs(), a))
  }

  ghost function InPhase(w: World, a: nat, op: Op, phase: Phase): World {
    LockedWorld(w, a, op).(actors := w.actors[a := Actor(op, phase)])
  }

  lemma Then(w: World, rules: Rules, events: seq<Event>, e: Event, next: World)
    requires Next(Run(w, rules, events), rules, e) == Some(next)
    ensures Run(w, rules, events + [e]) == next
  {
    hide Next;
    RunSnoc(w, rules, events, e);
  }

  lemma ReplaceActor(w: World, a: nat, x: Actor, y: Actor)
    ensures w.actors[a := x][a := y] == w.actors[a := y]
  {
  }

  /** Leaving gives back every lock taken. */
  lemma LeavingRestores(w: World, a: nat, x: Actor, own: set<Grant>)
    requires a !in w.actors && (forall g | g in w.grants :: g.owner != a) && forall g | g in own :: g.owner == a
    ensures Released(w.grants + own, a) == w.grants && w.actors[a := x] - {a} == w.actors
  {
  }

  lemma NeedsAreOwn(op: Op, a: nat)
    ensures forall g | g in GrantsFor(op.Needs(), a) :: g.owner == a
  {
    hide Op.Needs;
  }

  /** Left to itself, an operation that finds its locks free and no marker passes its fence check with everything else as it was. */
  lemma PassesCheck(w: World, rules: Rules, a: nat, op: Op) returns (events: seq<Event>)
    requires AllFree(w, a, op) && op.Fenced() && op.Uid() !in w.markers
    ensures Run(w, rules, events) == InPhase(w, a, op, Checked)
  {
    hide Valid, Op.Needs, Op.Refs, Op.Extended, ChangeOf, Free, Converting;
    events := LocksOneByOne(w, rules, a, op);
    ReplaceActor(w, a, Actor(op, Locked), Actor(op, Checked));
    Then(w, rules, events, Act(a, Check), InPhase(w, a, op, Checked));
    events := events + [Act(a, Check)];
  }

  /** A vendor run or credential check whose entry is as expected, and whose identity is not marked, gets to run; when it leaves,
      the world is as it found it. */
  lemma VendorRuns(w: World, rules: Rules, a: nat, op: Op) returns (start: seq<Event>)
    requires AllFree(w, a, op) && (forall g | g in w.grants :: g.owner != a)
    requires op.Vendor? && op.profile.uid !in w.markers && Expects(w.config, op.id, op.profile)
    ensures Run(w, rules, start) == InPhase(w, a, op, Running)
    ensures Run(w, rules, start + [Act(a, Leave)]) == w
  {
    hide Valid, Op.Needs, Op.Refs, Op.Extended, ChangeOf, Free, Converting, Expects, AllFree;
    start := PassesCheck(w, rules, a, op);
    ReplaceActor(w, a, Actor(op, Checked), Actor(op, Running));
    Then(w, rules, start, Act(a, Recheck), InPhase(w, a, op, Running));
    start := start + [Act(a, Recheck)];
    AllFreeIsNew(w, a, op);
    NeedsAreOwn(op, a);
    LeavingRestores(w, a, Actor(op, Running), GrantsFor(op.Needs(), a));
    Then(w, rules, start, Act(a, Leave), w);
  }

  lemma AllFreeIsNew(w: World, a: nat, op: Op)
    requires AllFree(w, a, op)
    ensures a !in w.actors
  {
  }

  /** Left to itself, an edit, rename, removal or addition that is possible happens, and nothing else does. */
  lemma ChangeHappens(w: World, rules: Rules, a: nat, op: Op, c': Config) returns (start: seq<Event>)
    requires AllFree(w, a, op) && (forall g | g in w.grants :: g.owner != a)
    requires Makes(w.config, op, c') && Valid(c', rules) && (!op.Add? ==> op.profile.uid !in w.markers)
    ensures Run(w, rules, start) == InPhase(w, a, op, Updated).(config := c')
    ensures Run(w, rules, start + [Act(a, Leave)]) == w.(config := c')
  {
    hide Valid, Op.Needs, Op.Refs, Op.Extended, Free, Converting, EditProfile, RenameProfile, RemoveProfile, AddProfile, AllFree;
    var before := if op.Add? then Locked else Checked;
    if op.Add? {
      start := Locks(w, rules, a, op);
    } else {
      start := PassesCheck(w, rules, a, op);
    }
    ReplaceActor(w, a, Actor(op, before), Actor(op, Updated));
    Then(w, rules, start, Act(a, Update), InPhase(w, a, op, Updated).(config := c'));
    start := start + [Act(a, Update)];
    AllFreeIsNew(w, a, op);
    NeedsAreOwn(op, a);
    LeavingRestores(w, a, Actor(op, Updated), GrantsFor(op.Needs(), a));
    Then(w, rules, start, Act(a, Leave), w.(config := c'));
  }

  lemma Locks(w: World, rules: Rules, a: nat, op: Op) returns (events: seq<Event>)
    requires AllFree(w, a, op)
    ensures Run(w, rules, events) == InPhase(w, a, op, Locked)
  {
    events := LocksOneByOne(w, rules, a, op);
  }

  /** A removal whose cleanup fails puts the profile back and leaves the world as it found it. */
  lemma FailedRemovalLeavesNoTrace(w: World, rules: Rules, a: nat, op: Op, c': Config) returns (events: seq<Event>)
    requires AllFree(w, a, op) && (forall g | g in w.grants :: g.owner != a) && Valid(w.config, rules)
    requires op.Remove? && Makes(w.config, op, c') && Valid(c', rules) && op.profile.uid !in w.markers
    ensures Run(w, rules, events) == w
  {
    hide Valid, Op.Needs, Op.Refs, Op.Extended, Free, Converting, RemoveProfile, RestoreProfile, AllFree;
    events := ChangeHappens(w, rules, a, op, c');
    RestoreUndoesRemove(w.config, rules, op.id, op.profile);
    AllFreeIsNew(w, a, op);
    NeedsAreOwn(op, a);
    LeavingRestores(w, a, Actor(op, Updated), GrantsFor(op.Needs(), a));
    Then(w, rules, events, Act(a, Restore), w);
    events := events + [Act(a, Restore)];
  }

  // ---- A fence from start to end ----

  lemma RunAppend(w: World, rules: Rules, events: seq<Event>, more: seq<Event>)
    ensures Run(w, rules, events + more) == Run(Run(w, rules, events), rules, more)
    decreases |more|
  {
    hide Next;
    if more == [] {
      assert events + more == events;
      RunNothing(Run(w, rules, events), rules);
    } else {
      var n := |more| - 1;
      RunAppend(w, rules, events, more[..n]);
      assert (events + more)[..|events + more| - 1] == events + more[..n];
    }
  }

  /** What the locks of a service operation are once its lifecycle lock is held in another mode. */
  ghost function Turning(op: Op, a: nat, exclusive: bool): set<Grant> {
    Without(GrantsFor(op.Needs(), a), Lifecycle(op.Uid()), a) + {Grant(Lifecycle(op.Uid()), a, exclusive)}
  }

  /** A guard that stands for its marker: the operation's aliases, and its lifecycle lock in the given mode. */
  ghost function GuardWorld(w: World, a: nat, op: Op, phase: Phase, markers: map<string, ProfileId>, exclusive: bool): World {
    World(w.config, markers, w.grants + Turning(op, a, exclusive), w.actors[a := Actor(op, phase)])
  }

  lemma TurningModes(w: World, a: nat, op: Op, was: bool, exclusive: bool)
    requires op.Service() && forall g | g in w.grants :: g.owner != a
    ensures var l := Lifecycle(op.Uid());
      Without(w.grants + Turning(op, a, was), l, a) + {Grant(l, a, exclusive)} == w.grants + Turning(op, a, exclusive)
  {
    hide Op.Needs, Op.Uid, GrantsFor;
  }

  /** The mode a service operation first takes its lifecycle lock in. */
  lemma FirstMode(op: Op, a: nat)
    requires op.Service()
    ensures Turning(op, a, op.Fence?) == GrantsFor(op.Needs(), a)
  {
    hide Op.Refs;
    assert Need(Lifecycle(op.Uid()), op.Fence?) in op.Needs();
  }

  lemma ModeFree(w: World, a: nat, op: Op, was: bool, exclusive: bool)
    requires AllFree(w, a, op) && op.Service() && (exclusive ==> op.Fence? || Free(w.grants, Lifecycle(op.Uid()), a, true))
    ensures Free(w.grants + Turning(op, a, was), Lifecycle(op.Uid()), a, exclusive)
  {
    hide Op.Refs;
    assert Need(Lifecycle(op.Uid()), op.Fence?) in op.Needs();
    assert forall g | g in Turning(op, a, was) :: g.owner == a;
  }

  lemma GuardUpgrades(w: World, rules: Rules, a: nat, op: Op, markers: map<string, ProfileId>)
    requires AllFree(w, a, op) && (forall g | g in w.grants :: g.owner != a)
    requires op.Service() && (op.Fence? || Free(w.grants, Lifecycle(op.Uid()), a, true))
    ensures Next(GuardWorld(w, a, op, Guarding, markers, false), rules, Act(a, Upgrade(Turned)))
            == Some(GuardWorld(w, a, op, Clearing, markers, true))
  {
    hide Valid, Op.Needs, Op.Refs, Op.Uid, Op.Extended, ChangeOf, Free, Turning, AllFree;
    ReplaceActor(w, a, Actor(op, Guarding), Actor(op, Clearing));
    TurningModes(w, a, op, false, true);
    ModeFree(w, a, op, false, true);
  }

  lemma GuardGoes(w: World, rules: Rules, a: nat, op: Op, markers: map<string, ProfileId>)
    requires a !in w.actors && (forall g | g in w.grants :: g.owner != a) && op.Service()
    ensures Next(GuardWorld(w, a, op, Clearing, markers, true), rules, Act(a, Clear)) == Some(w.(markers := markers - {op.Uid()}))
  {
    hide Valid, Op.Needs, Op.Refs, Op.Uid, Op.Extended, ChangeOf, Free, Turning, AllFree, Released;
    TurningIsOwn(op, a, true);
    LeavingRestores(w, a, Actor(op, Clearing), Turning(op, a, true));
  }

  /** A guard whose lifecycle lock can be had exclusively clears its marker, and is gone with every lock it held. */
  lemma GuardClears(w: World, rules: Rules, a: nat, op: Op, before: seq<Event>, from: World, markers: map<string, ProfileId>)
    returns (events: seq<Event>)
    requires AllFree(from, a, op) && (forall g | g in from.grants :: g.owner != a)
    requires op.Service() && (op.Fence? || Free(from.grants, Lifecycle(op.Uid()), a, true))
    requires Run(w, rules, before) == GuardWorld(from, a, op, Guarding, markers, false)
    ensures Run(w, rules, events) == from.(markers := markers - {op.Uid()})
    ensures events == before + [Act(a, Upgrade(Turned)), Act(a, Clear)]
  {
    hide Next, Run, Op.Needs, Op.Uid, Free, Turning, AllFree, GuardWorld;
    AllFreeIsNew(from, a, op);
    GuardUpgrades(from, rules, a, op, markers);
    Then(w, rules, before, Act(a, Upgrade(Turned)), GuardWorld(from, a, op, Clearing, markers, true));
    events := before + [Act(a, Upgrade(Turned))];
    GuardGoes(from, rules, a, op, markers);
    Then(w, rules, events, Act(a, Clear), from.(markers := markers - {op.Uid()}));
    assert events + [Act(a, Clear)] == before + [Act(a, Upgrade(Turned)), Act(a, Clear)];
    events := events + [Act(a, Clear)];
  }

  /** A guard refused the exclusive mode, whether or not it keeps its old mode meanwhile, clears its marker when it tries again. */
  lemma ContentionOnlyDelays(w: World, rules: Rules, a: nat, op: Op, markers: map<string, ProfileId>, kept: bool)
    requires AllFree(w, a, op) && (forall g | g in w.grants :: g.owner != a)
    requires op.Service() && (op.Fence? || Free(w.grants, Lifecycle(op.Uid()), a, true))
    ensures var guarding := GuardWorld(w, a, op, Guarding, markers, false);
      Run(guarding, rules, [Act(a, Upgrade(Blocked(kept))), Act(a, Upgrade(Turned))]) == GuardWorld(w, a, op, Clearing, markers, true)
  {
    hide Valid, Op.Needs, Op.Refs, Op.Uid, Op.Extended, ChangeOf, Turning, AllFree, Run;
    var guarding, l := GuardWorld(w, a, op, Guarding, markers, false), Lifecycle(op.Uid());
    var contended := guarding.(actors := w.actors[a := Actor(op, Contended)],
                               grants := if kept then guarding.grants else Without(guarding.grants, l, a));
    ReplaceActor(w, a, Actor(op, Guarding), Actor(op, Contended));
    RunNothing(guarding, rules);
    Then(guarding, rules, [], Act(a, Upgrade(Blocked(kept))), contended);
    assert [] + [Act(a, Upgrade(Blocked(kept)))] == [Act(a, Upgrade(Blocked(kept)))];
    ReplaceActor(w, a, Actor(op, Contended), Actor(op, Clearing));
    TurningModes(w, a, op, false, true);
    ModeFree(w, a, op, false, true);
    assert Without(contended.grants, l, a) == Without(guarding.grants, l, a);
    Then(guarding, rules, [Act(a, Upgrade(Blocked(kept)))], Act(a, Upgrade(Turned)), GuardWorld(w, a, op, Clearing, markers, true));
    assert [Act(a, Upgrade(Blocked(kept)))] + [Act(a, Upgrade(Turned))] == [Act(a, Upgrade(Blocked(kept))), Act(a, Upgrade(Turned))];
  }

  /** A guard that gives up, breaks while converting, or finds a marker it did not publish, leaves the marker alone for good. */
  lemma DeferringIsFinal(w: World, rules: Rules, a: nat, step: Step)
    requires ActStep(w, rules, a, step).Some?
    ensures var w' := ActStep(w, rules, a, step).value;
      && (step.Defer? || step.Orphan? || (step.Upgrade? && step.turn.Broken?) || (step.Downgrade? && step.turn.Broken?) ==>
            w'.actors[a] == w.actors[a].(phase := Deferred) && w'.markers == w.markers)
      && (a in w.actors && w.actors[a].phase.Deferred? ==> step.Leave? && w'.markers == w.markers && w'.config == w.config)
  {
    hide Valid, Op.Needs, Op.Refs, Op.Uid, Op.Extended, ChangeOf, Free, RestoreProfile;
  }

  lemma TurningIsOwn(op: Op, a: nat, exclusive: bool)
    ensures forall g | g in Turning(op, a, exclusive) :: g.owner == a
  {
    hide Op.Needs, Op.Uid;
  }

  /** Left to itself, a fence that finds its locks free leaves a guard with a marker; clearing it leaves the world as it was. */
  lemma FenceCycle(w: World, rules: Rules, a: nat, op: Op) returns (open: seq<Event>, close: seq<Event>)
    requires AllFree(w, a, op) && (forall g | g in w.grants :: g.owner != a) && Publishable(w, op)
    ensures Run(w, rules, open) == GuardWorld(w, a, op, Guarding, w.markers[op.uid := op.ref], false)
    ensures Act(a, Publish) in open && Act(a, Clear) in close
    ensures Run(w, rules, open + close) == w
  {
    hide Valid, Op.Needs, Op.Refs, Op.Extended, ChangeOf, Free, Turning, AllFree;
    var markers := w.markers[op.uid := op.ref];
    open := Locks(w, rules, a, op);
    FirstMode(op, a);
    ReplaceActor(w, a, Actor(op, Locked), Actor(op, Published));
    Then(w, rules, open, Act(a, Publish), GuardWorld(w, a, op, Published, markers, true));
    open := open + [Act(a, Publish)];
    ReplaceActor(w, a, Actor(op, Published), Actor(op, Guarding));
    TurningModes(w, a, op, true, false);
    ModeFree(w, a, op, true, false);
    Then(w, rules, open, Act(a, Downgrade(Turned)), GuardWorld(w, a, op, Guarding, markers, false));
    open := open + [Act(a, Downgrade(Turned))];
    close := [Act(a, Upgrade(Turned)), Act(a, Clear)];
    var events := GuardClears(w, rules, a, op, open, w, markers);
    assert markers - {op.uid} == w.markers;
  }

  /** Once a fence has come and gone, a vendor operation on the same identity gets to run. */
  lemma VendorRunsAfterFence(w: World, rules: Rules, a: nat, fence: Op, b: nat, op: Op) returns (events: seq<Event>)
    requires AllFree(w, a, fence) && (forall g | g in w.grants :: g.owner != a) && Publishable(w, fence)
    requires AllFree(w, b, op) && (forall g | g in w.grants :: g.owner != b)
    requires op.Vendor? && op.profile.uid == fence.uid && Expects(w.config, op.id, op.profile)
    ensures Act(a, Publish) in events && Act(a, Clear) in events
    ensures Run(w, rules, events) == InPhase(w, b, op, Running)
  {
    hide Op.Needs, Op.Refs, Op.Uid, AllFree, Expects, Run;
    var open, close := FenceCycle(w, rules, a, fence);
    var start := VendorRuns(w, rules, b, op);
    RunAppend(w, rules, open + close, start);
    events := open + close + start;
  }

  /** Left to itself, a recovery that finds its locks free, and its identity's marker among the profiles it names, clears it. */
  lemma RecoveryClears(w: World, rules: Rules, a: nat, op: Op) returns (events: seq<Event>)
    requires AllFree(w, a, op) && (forall g | g in w.grants :: g.owner != a) && op.Recover?
    requires op.uid in w.markers && w.markers[op.uid] in op.refs && Free(w.grants, Lifecycle(op.uid), a, true)
    ensures Run(w, rules, events) == w.(markers := w.markers - {op.uid})
  {
    hide Valid, Op.Needs, Op.Refs, Op.Extended, ChangeOf, Free, Turning, AllFree;
    events := Locks(w, rules, a, op);
    FirstMode(op, a);
    ReplaceActor(w, a, Actor(op, Locked), Actor(op, Guarding));
    Then(w, rules, events, Act(a, Adopt), GuardWorld(w, a, op, Guarding, w.markers, false));
    events := GuardClears(w, rules, a, op, events + [Act(a, Adopt)], w, w.markers);
  }

  // ---- Operations side by side ----

  /** The names an operation uses or takes, as lock files. */
  ghost function Names(op: Op): set<Lock> {
    match op
    case Vendor(id, p) => {Alias(p.provider, Lowered(id.name))}
    case Rename(id, _, newName) => {AliasOf(id), AliasOf(ProfileId(id.provider, newName))}
    case Fence(_, _, _, _) => set r | r in op.Refs() :: AliasOf(r)
    case Recover(_, _) => set r | r in op.Refs() :: AliasOf(r)
    case _ => {AliasOf(op.id)}
  }

  lemma NamesHeld(w: World, rules: Rules, a: nat, l: Lock)
    requires Inv(w, rules) && a in w.actors && !w.actors[a].phase.Acquiring? && l in Names(w.actors[a].op)
    ensures Grant(l, a, !w.actors[a].op.Vendor?) in w.grants
  {
    hide Valid, Exclusion, Op.Refs, Restorable, Expects;
    var op := w.actors[a].op;
    InvParts(w, rules, a);
    if op.Service() {
      if w.actors[a].phase.Locked? { LocksOf(w, a, op); }
    } else {
      assert Need(l, !op.Vendor?) in op.Needs();
    }
  }

  /** In every reachable world two operations that hold their locks share a name only when both run the vendor's tool on it. */
  lemma NamesApart(w: World, rules: Rules, events: seq<Event>, a: nat, b: nat, l: Lock)
    requires Initial(w, rules)
    ensures var actors := Run(w, rules, events).actors;
      (&& a in actors && b in actors && a != b && !actors[a].phase.Acquiring? && !actors[b].phase.Acquiring?
       && l in Names(actors[a].op) && l in Names(actors[b].op)) ==> actors[a].op.Vendor? && actors[b].op.Vendor?
  {
    hide Valid, ActorOk, Names, Op.Needs;
    var now := Run(w, rules, events);
    RunKeepsInv(w, rules, events);
    if a in now.actors && b in now.actors && a != b && !now.actors[a].phase.Acquiring? && !now.actors[b].phase.Acquiring?
       && l in Names(now.actors[a].op) && l in Names(now.actors[b].op) {
      NamesHeld(now, rules, a, l);
      NamesHeld(now, rules, b, l);
    }
  }

  /** An ordinary operation with its locks, other than an addition, or a fence about to be published. */
  predicate OnIdentity(x: Actor) {
    !x.phase.Acquiring? && (x.op.Fenced() || (x.op.Fence? && x.phase.Locked?))
  }

  /** In every reachable world at most one of these is at work on an identity. */
  lemma IdentitiesApart(w: World, rules: Rules, events: seq<Event>, a: nat, b: nat)
    requires Initial(w, rules)
    ensures var actors := Run(w, rules, events).actors;
      (&& a in actors && b in actors && OnIdentity(actors[a]) && OnIdentity(actors[b])
       && actors[a].op.Uid() == actors[b].op.Uid()) ==> a == b
  {
    hide Valid, Op.Needs, Op.Refs, Restorable, Expects;
    var now := Run(w, rules, events);
    RunKeepsInv(w, rules, events);
    if a in now.actors && b in now.actors && OnIdentity(now.actors[a]) && OnIdentity(now.actors[b]) {
      InvParts(now, rules, a);
      InvParts(now, rules, b);
      LocksOf(now, a, now.actors[a].op);
      LocksOf(now, b, now.actors[b].op);
    }
  }
}
