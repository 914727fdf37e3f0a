/** Ordinary operations and the automation service, interleaved step by step over locks, markers and metadata. */
module Interleaving {
  import opened CaseFolding
  import opened Contracts
  import opened Layout
  import opened Management
  import opened Metadata
  import opened ProfileLocks
  import opened Wrappers

  /** `Vendor` is a run or a credential check; `Fence` and `Recover` are the service publishing or adopting a marker. */
  datatype Op =
    | Vendor(id: ProfileId, profile: Profile)
    | Edit(id: ProfileId, profile: Profile, details: string)
    | Rename(id: ProfileId, profile: Profile, newName: string)
    | Remove(id: ProfileId, profile: Profile)
    | Add(id: ProfileId, profile: Profile)
    | Fence(ref: ProfileId, also: set<ProfileId>, historic: bool, uid: string)
    | Recover(refs: set<ProfileId>, uid: string)
  {
    predicate Service() { Fence? || Recover? }

    /** Operations that must find no marker. */
    predicate Fenced() { Vendor? || Edit? || Rename? || Remove? }

    function Uid(): string {
      match this
      case Fence(_, _, _, uid) => uid
      case Recover(_, uid) => uid
      case _ => profile.uid
    }

    /** The aliases a service operation excludes. */
    function Refs(): set<ProfileId> {
      match this
      case Fence(ref, also, _, _) => {ref} + also
      case Recover(refs, _) => refs
      case _ => {}
    }

    /** A service operation that has taken over one more alias. */
    function Extended(ref: ProfileId): Op {
      match this
      case Fence(first, also, historic, uid) => Fence(first, also + {ref}, historic, uid)
      case Recover(refs, uid) => Recover(refs + {ref}, uid)
      case _ => this
    }

    function Needs(): set<Need> {
      match this
      case Vendor(id, p) =>
        {Need(Alias(p.provider, Lowered(id.name)), false), Need(Lifecycle(p.uid), false), Need(Resource(p.uid), true)}
      case Edit(id, p, _) => {Need(AliasOf(id), true), Need(Lifecycle(p.uid), true)}
      case Rename(id, p, newName) =>
        {Need(AliasOf(id), true), Need(AliasOf(ProfileId(id.provider, newName)), true), Need(Lifecycle(p.uid), true)}
      case Remove(id, p) => {Need(AliasOf(id), true), Need(Lifecycle(p.uid), true)}
      case Add(id, _) => {Need(AliasOf(id), true)}
      case Fence(_, _, _, uid) => (set r | r in Refs() :: Need(AliasOf(r), true)) + {Need(Lifecycle(uid), true)}
      case Recover(_, uid) => (set r | r in Refs() :: Need(AliasOf(r), true)) + {Need(Lifecycle(uid), false)}
    }
  }

  /** `Checked` is past the fence check, `Running` past the recheck, `Updated` past the metadata write. */
  datatype Phase =
    | Acquiring(todo: set<Need>)
    | Locked
    | Checked
    | Running
    | Updated
    | Published
    | Guarding
    | Contended
    | Clearing
    | Deferred
  {
    /** A service guard that stands for a marker on disk. */
    predicate Live() { Published? || Guarding? || Contended? || Clearing? }
  }

  datatype Actor = Actor(op: Op, phase: Phase)

  /** `markers` maps each fenced identity to the profile reference its marker names. */
  datatype World = World(config: Config, markers: map<string, ProfileId>, grants: set<Grant>, actors: map<nat, Actor>)

  /** A conversion succeeds, meets contention, or breaks; the last two may lose the old mode. */
  datatype Turn = Turned | Blocked(kept: bool) | Broken(kept: bool)

  datatype Step =
    | Start(op: Op)
    | Take(need: Need)
    | Ready
    | Check
    | Recheck
    | Update
    | Restore
    | Leave
    | Publish
    | Orphan
    | Adopt
    | Upgrade(turn: Turn)
    | Downgrade(turn: Turn)
    | Clear
    | Unlink
    | Defer
    | UseHome(exclusive: bool)
    | Extend(ref: ProfileId)

  /** One actor's step, or a metadata update of contexts and bindings only. */
  datatype Event = Act(actor: nat, step: Step) | OtherUpdate(config: Config)

  function ChangeOf(c: Config, op: Op): Result<Config, Refusal> {
    match op
    case Edit(id, p, details) => EditProfile(c, id, p, details)
    case Rename(id, p, newName) => RenameProfile(c, id, newName, p)
    case Remove(id, p) => RemoveProfile(c, id, p)
    case Add(id, p) => AddProfile(c, id, p)
    case _ => Err(Refusal.Busy)
  }

  function Moved(w: World, a: nat, phase: Phase): World
    requires a in w.actors
  {
    w.(actors := w.actors[a := w.actors[a].(phase := phase)])
  }

  function Gone(w: World, a: nat): World {
    w.(actors := w.actors - {a}, grants := Released(w.grants, a))
  }

  /** Convert the lifecycle lock; contention leaves a retryable guard, breakage a deferred one. */
  function Converting(w: World, a: nat, uid: string, exclusive: bool, turn: Turn, goal: Phase): Option<World>
    requires a in w.actors
  {
    var without := Without(w.grants, Lifecycle(uid), a);
    match turn
    case Turned =>
      if !Free(w.grants, Lifecycle(uid), a, exclusive) then None
      else Some(Moved(w, a, goal).(grants := without + {Grant(Lifecycle(uid), a, exclusive)}))
    case Blocked(kept) => Some(Moved(w, a, Contended).(grants := if kept then w.grants else without))
    case Broken(kept) => Some(Moved(w, a, Deferred).(grants := if kept then w.grants else without))
  }

  /** Nobody holds the lock, the caller included: a second open of a file its holder has locked is refused like any other. */
  predicate Unheld(grants: set<Grant>, lock: Lock) {
    forall g | g in grants :: g.lock != lock
  }

  function ActStep(w: World, rules: Rules, a: nat, step: Step): Option<World> {
    if step.Start? then
      if a in w.actors then None else Some(w.(actors := w.actors[a := Actor(step.op, Acquiring(step.op.Needs()))]))
    else if a !in w.actors then None
    else
      var op, phase := w.actors[a].op, w.actors[a].phase;
      match step
      case Start(_) => None
      case Take(n) =>
        if phase.Acquiring? && n in phase.todo && Free(w.grants, n.lock, a, n.exclusive) then
          Some(Moved(w, a, Acquiring(phase.todo - {n})).(grants := w.grants + {Grant(n.lock, a, n.exclusive)}))
        else None
      case Ready => if phase == Acquiring({}) then Some(Moved(w, a, Locked)) else None
      case Check => if phase.Locked? && op.Fenced() && op.Uid() !in w.markers then Some(Moved(w, a, Checked)) else None
      case Recheck =>
        if phase.Checked? && op.Vendor? && Expects(w.config, op.id, op.profile) then Some(Moved(w, a, Running)) else None
      case Update =>
        var c := ChangeOf(w.config, op);
        if (if op.Add? then phase.Locked? else phase.Checked?) && c.Ok? && Valid(c.value, rules) then
          Some(Moved(w, a, Updated).(config := c.value))
        else None
      case Restore =>
        if phase.Updated? && op.Remove? then
          var c := RestoreProfile(w.config, op.id, op.profile);
          if c.Ok? && Valid(c.value, rules) then Some(Gone(w, a).(config := c.value)) else None
        else None
      case Leave => Some(Gone(w, a))
      case Publish =>
        if phase.Locked? && op.Fence? && op.uid !in w.markers
           && (op.historic || (op.ref in w.config.profiles && w.config.profiles[op.ref].uid == op.uid)) then
          Some(Moved(w, a, Published).(markers := w.markers[op.uid := op.ref]))
        else None
      case Orphan => if phase.Locked? && op.Fence? && op.uid in w.markers then Some(Moved(w, a, Deferred)) else None
      case Adopt =>
        if phase.Locked? && op.Recover? && op.uid in w.markers && w.markers[op.uid] in op.refs then Some(Moved(w, a, Guarding))
        else None
      case Upgrade(turn) =>
        if op.Service() && (phase.Guarding? || phase.Contended?) then Converting(w, a, op.Uid(), true, turn, Clearing) else None
      case Downgrade(turn) =>
        if op.Service() && (phase.Published? || phase.Clearing?) then Converting(w, a, op.Uid(), false, turn, Guarding) else None
      case Clear =>
        if op.Service() && phase.Clearing? then Some(Gone(w, a).(markers := w.markers - {op.Uid()})) else None
      case Unlink =>
        if op.Service() && phase.Clearing? then Some(Moved(w, a, Deferred).(markers := w.markers - {op.Uid()})) else None
      case Defer => if op.Service() && phase.Live() then Some(Moved(w, a, Deferred)) else None
      case UseHome(exclusive) =>
        if op.Service() && phase.Guarding? && Free(w.grants, Resource(op.Uid()), a, exclusive) then
          Some(w.(grants := Without(w.grants, Resource(op.Uid()), a) + {Grant(Resource(op.Uid()), a, exclusive)}))
        else None
      case Extend(ref) =>
        if op.Service() && phase.Guarding? && Unheld(w.grants, AliasOf(ref)) then
          Some(w.(actors := w.actors[a := Actor(op.Extended(ref), phase)], grants := w.grants + {Grant(AliasOf(ref), a, true)}))
        else None
  }

  function Next(w: World, rules: Rules, e: Event): Option<World> {
    match e
    case Act(a, step) => ActStep(w, rules, a, step)
    case OtherUpdate(c) =>
      if c.profiles == w.config.profiles && c.retired == w.config.retired && c.installationUid == w.config.installationUid
         && Valid(c, rules)
      then Some(w.(config := c))
      else None
  }

  /** Events that are not possible where they are tried change nothing. */
  function Run(w: World, rules: Rules, events: seq<Event>): World {
    if events == [] then w
    else
      var before := Run(w, rules, events[..|events| - 1]);
      var next := Next(before, rules, events[|events| - 1]);
      if next.Some? then next.value else before
  }

  // ---- What every reachable world satisfies ----

  ghost predicate Holds(w: World, a: nat, needs: set<Need>) {
    forall n | n in needs :: Grant(n.lock, a, n.exclusive) in w.grants
  }

  ghost predicate HoldsAliases(w: World, a: nat, refs: set<ProfileId>) {
    forall r | r in refs :: Grant(AliasOf(r), a, true) in w.grants
  }

  predicate Marked(w: World, op: Op) {
    op.Uid() in w.markers && w.markers[op.Uid()] in op.Refs()
  }

  /** A removed profile can still be put back. */
  ghost predicate Restorable(c: Config, rules: Rules, id: ProfileId, p: Profile) {
    && p.uid in c.retired && (forall o | o in c.profiles :: !o.Aliases(id))
    && id.provider == p.provider && rules.stateDirOk(p.provider, p.stateDir)
    && rules.uidFor(c.installationUid, id.provider, p.stateDir) == Some(p.uid) && rules.profileOk(p)
  }

  ghost predicate ActorOk(w: World, rules: Rules, a: nat, x: Actor) {
    match x.phase
    case Acquiring(todo) => todo <= x.op.Needs() && Holds(w, a, x.op.Needs() - todo)
    case Locked => Holds(w, a, x.op.Needs())
    case Checked => x.op.Fenced() && Holds(w, a, x.op.Needs()) && x.op.Uid() !in w.markers
    case Running =>
      x.op.Vendor? && Holds(w, a, x.op.Needs()) && x.op.Uid() !in w.markers && Expects(w.config, x.op.id, x.op.profile)
    case Updated =>
      && (x.op.Fenced() || x.op.Add?) && Holds(w, a, x.op.Needs()) && (x.op.Fenced() ==> x.op.Uid() !in w.markers)
      && (x.op.Remove? ==> Restorable(w.config, rules, x.op.id, x.op.profile))
    case Deferred => x.op.Service() && HoldsAliases(w, a, x.op.Refs())
    case _ =>
      && x.op.Service() && HoldsAliases(w, a, x.op.Refs()) && Marked(w, x.op)
      && (x.phase.Published? || x.phase.Clearing? ==> Grant(Lifecycle(x.op.Uid()), a, true) in w.grants)
  }

  ghost predicate Inv(w: World, rules: Rules) {
    && Exclusion(w.grants) && Valid(w.config, rules)
    && forall a | a in w.actors :: ActorOk(w, rules, a, w.actors[a])
  }

  // ---- Locks ----

  lemma GrantKeepsExclusion(grants: set<Grant>, fewer: set<Grant>, lock: Lock, a: nat, exclusive: bool)
    requires Exclusion(grants) && Free(grants, lock, a, exclusive) && fewer <= grants
    ensures Exclusion(fewer + {Grant(lock, a, exclusive)})
  {
    forall g, h | g in fewer + {Grant(lock, a, exclusive)} && h in fewer + {Grant(lock, a, exclusive)} && g.lock == h.lock
                  && g.owner != h.owner
      ensures !g.exclusive && !h.exclusive
    {
      assert g in grants || g == Grant(lock, a, exclusive);
      assert h in grants || h == Grant(lock, a, exclusive);
    }
  }

  lemma NoClash(grants: set<Grant>, lock: Lock, a: nat, x: bool, b: nat)
    requires Exclusion(grants) && Grant(lock, a, x) in grants && Grant(lock, b, true) in grants
    ensures a == b
  {
  }

  /** What one owner holds exclusively is not what another holds. */
  lemma Differ(grants: set<Grant>, held: Lock, a: nat, x: bool, lock: Lock, b: nat)
    requires Exclusion(grants) && a != b && Grant(held, a, x) in grants && Grant(lock, b, true) in grants
    ensures held != lock
  {
  }

  // ---- Other actors are undisturbed ----

  ghost predicate Undisturbed(w: World, w': World, rules: Rules, a: nat, x: Actor) {
    && (forall g | g in w.grants && g.owner == a :: g in w'.grants)
    && ((x.phase.Checked? || x.phase.Running? || x.phase.Updated?) && x.op.Fenced() && x.op.Uid() !in w.markers ==>
          x.op.Uid() !in w'.markers)
    && (x.phase.Live() && x.op.Uid() in w.markers ==>
          x.op.Uid() in w'.markers && w'.markers[x.op.Uid()] == w.markers[x.op.Uid()])
    && (x.phase.Running? && x.op.Vendor? && Expects(w.config, x.op.id, x.op.profile) ==>
          Expects(w'.config, x.op.id, x.op.profile))
    && (x.phase.Updated? && x.op.Remove? && Restorable(w.config, rules, x.op.id, x.op.profile) ==>
          Restorable(w'.config, rules, x.op.id, x.op.profile))
  }

  lemma UndisturbedKeeps(w: World, w': World, rules: Rules, a: nat, x: Actor)
    requires ActorOk(w, rules, a, x) && Undisturbed(w, w', rules, a, x)
    ensures ActorOk(w', rules, a, x)
  {
    hide Restorable, Expects;
  }

  /** Everyone but `b` is undisturbed. */
  ghost predicate OthersUndisturbed(w: World, w': World, rules: Rules, b: nat) {
    forall a | a in w.actors && a != b :: a in w'.actors && w'.actors[a] == w.actors[a] && Undisturbed(w, w', rules, a, w.actors[a])
  }

  lemma InvAfter(w: World, w': World, rules: Rules, b: nat)
    requires Inv(w, rules) && OthersUndisturbed(w, w', rules, b)
    requires Exclusion(w'.grants) && Valid(w'.config, rules) && w'.actors.Keys <= w.actors.Keys + {b}
    requires b in w'.actors ==> ActorOk(w', rules, b, w'.actors[b])
    ensures Inv(w', rules)
  {
    hide ActorOk, Undisturbed, Valid, Exclusion;
    forall a | a in w'.actors
      ensures ActorOk(w', rules, a, w'.actors[a])
    {
      if a != b {
        UndisturbedKeeps(w, w', rules, a, w.actors[a]);
      }
    }
  }

  /** Steps that only touch the actor's own locks and phase. */
  ghost predicate Private(w: World, w': World, b: nat) {
    && w'.config == w.config && w'.markers == w.markers
    && (forall g | g in w.grants && g.owner != b :: g in w'.grants)
    && (forall a | a in w.actors && a != b :: a in w'.actors && w'.actors[a] == w.actors[a])
    && w'.actors.Keys <= w.actors.Keys + {b}
  }

  lemma PrivateKeepsInv(w: World, w': World, rules: Rules, b: nat)
    requires Inv(w, rules) && Private(w, w', b) && Exclusion(w'.grants)
    requires b in w'.actors ==> ActorOk(w', rules, b, w'.actors[b])
    ensures Inv(w', rules)
  {
    hide ActorOk, Valid, Exclusion, Restorable;
    forall a | a in w.actors && a != b
      ensures Undisturbed(w, w', rules, a, w.actors[a])
    {
    }
    InvAfter(w, w', rules, b);
  }

  lemma InvParts(w: World, rules: Rules, b: nat)
    requires Inv(w, rules)
    ensures Exclusion(w.grants) && Valid(w.config, rules)
    ensures b in w.actors ==> ActorOk(w, rules, b, w.actors[b])
  {
  }

  lemma ConvertingOk(w: World, rules: Rules, b: nat, exclusive: bool, turn: Turn, goal: Phase)
    requires Inv(w, rules) && b in w.actors && w.actors[b].op.Service() && w.actors[b].phase.Live()
    requires (goal.Guarding? && !exclusive) || (goal.Clearing? && exclusive)
    requires Converting(w, b, w.actors[b].op.Uid(), exclusive, turn, goal).Some?
    ensures Inv(Converting(w, b, w.actors[b].op.Uid(), exclusive, turn, goal).value, rules)
  {
    hide Exclusion, Valid, Inv, Op.Needs, Op.Refs, Op.Uid;
    var uid := w.actors[b].op.Uid();
    var w' := Converting(w, b, uid, exclusive, turn, goal).value;
    InvParts(w, rules, b);
    FewerKeepExclusion(w.grants, Without(w.grants, Lifecycle(uid), b));
    if turn.Turned? {
      GrantKeepsExclusion(w.grants, Without(w.grants, Lifecycle(uid), b), Lifecycle(uid), b, exclusive);
    }
    PrivateKeepsInv(w, w', rules, b);
  }

  lemma FewerKeepExclusion(grants: set<Grant>, fewer: set<Grant>)
    requires Exclusion(grants) && fewer <= grants
    ensures Exclusion(fewer)
  {
  }

  lemma LeavingOk(w: World, rules: Rules, b: nat)
    requires Inv(w, rules)
    ensures Inv(Gone(w, b), rules)
  {
    hide ActorOk, Valid;
    FewerKeepExclusion(w.grants, Released(w.grants, b));
    PrivateKeepsInv(w, Gone(w, b), rules, b);
  }

  lemma TakeOk(w: World, rules: Rules, b: nat, n: Need)
    requires Inv(w, rules) && ActStep(w, rules, b, Take(n)).Some?
    ensures Inv(ActStep(w, rules, b, Take(n)).value, rules)
  {
    hide Valid, Inv, Exclusion, Op.Needs, Restorable;
    InvParts(w, rules, b);
    GrantKeepsExclusion(w.grants, w.grants, n.lock, b, n.exclusive);
    PrivateKeepsInv(w, ActStep(w, rules, b, Take(n)).value, rules, b);
  }

  lemma UseHomeOk(w: World, rules: Rules, b: nat, exclusive: bool)
    requires Inv(w, rules) && ActStep(w, rules, b, UseHome(exclusive)).Some?
    ensures Inv(ActStep(w, rules, b, UseHome(exclusive)).value, rules)
  {
    hide Valid, Inv, Exclusion, Op.Needs, Op.Refs, Op.Uid, Restorable;
    var home := Resource(w.actors[b].op.Uid());
    InvParts(w, rules, b);
    GrantKeepsExclusion(w.grants, Without(w.grants, home, b), home, b, exclusive);
    PrivateKeepsInv(w, ActStep(w, rules, b, UseHome(exclusive)).value, rules, b);
  }

  lemma ExtendedKeeps(op: Op, ref: ProfileId)
    requires op.Service()
    ensures var op' := op.Extended(ref); op'.Service() && op'.Uid() == op.Uid() && op'.Refs() == op.Refs() + {ref}
  {
  }

  lemma ExtendOk(w: World, rules: Rules, b: nat, ref: ProfileId)
    requires Inv(w, rules) && ActStep(w, rules, b, Extend(ref)).Some?
    ensures Inv(ActStep(w, rules, b, Extend(ref)).value, rules)
  {
    hide Valid, Inv, Exclusion, Op.Needs, Op.Refs, Op.Uid, Op.Extended, Restorable;
    InvParts(w, rules, b);
    ExtendedKeeps(w.actors[b].op, ref);
    GrantKeepsExclusion(w.grants, w.grants, AliasOf(ref), b, true);
    PrivateKeepsInv(w, ActStep(w, rules, b, Extend(ref)).value, rules, b);
  }

  lemma LocksOf(w: World, a: nat, op: Op)
    requires Holds(w, a, op.Needs())
    ensures op.Service() ==> HoldsAliases(w, a, op.Refs())
    ensures op.Fence? || op.Edit? || op.Rename? || op.Remove? ==> Grant(Lifecycle(op.Uid()), a, true) in w.grants
    ensures op.Vendor? ==> Grant(Lifecycle(op.Uid()), a, false) in w.grants && Grant(Resource(op.Uid()), a, true) in w.grants
    ensures op.Edit? || op.Rename? || op.Remove? || op.Add? ==> Grant(AliasOf(op.id), a, true) in w.grants
    ensures op.Rename? ==> Grant(AliasOf(ProfileId(op.id.provider, op.newName)), a, true) in w.grants
  {
    if op.Service() {
      forall r | r in op.Refs()
        ensures Grant(AliasOf(r), a, true) in w.grants
      {
        assert Need(AliasOf(r), true) in op.Needs();
      }
    }
    if op.Fence? || op.Edit? || op.Rename? || op.Remove? {
      assert Need(Lifecycle(op.Uid()), true) in op.Needs();
    }
    if op.Vendor? {
      assert Need(Lifecycle(op.Uid()), false) in op.Needs() && Need(Resource(op.Uid()), true) in op.Needs();
    }
    if op.Edit? || op.Rename? || op.Remove? || op.Add? {
      assert Need(AliasOf(op.id), true) in op.Needs();
    }
    if op.Rename? {
      assert Need(AliasOf(ProfileId(op.id.provider, op.newName)), true) in op.Needs();
    }
  }

  lemma PhaseOk(w: World, rules: Rules, b: nat, step: Step)
    requires Inv(w, rules) && ActStep(w, rules, b, step).Some?
    requires step.Start? || step.Ready? || step.Check? || step.Recheck? || step.Orphan? || step.Adopt? || step.Defer?
    ensures Inv(ActStep(w, rules, b, step).value, rules)
  {
    hide Valid, Exclusion, Inv, Op.Needs, Restorable, Converting, ChangeOf, Released, Free;
    InvParts(w, rules, b);
    if b in w.actors && w.actors[b].phase.Locked? {
      LocksOf(w, b, w.actors[b].op);
    }
    if step.Ready? {
      assert w.actors[b].op.Needs() - {} == w.actors[b].op.Needs();
    }
    PrivateKeepsInv(w, ActStep(w, rules, b, step).value, rules, b);
  }

  // ---- Markers ----

  /** Past its fence check, an operation holds its identity's lifecycle lock. */
  lemma PastCheckHoldsLifecycle(w: World, rules: Rules, a: nat, x: Actor)
    requires ActorOk(w, rules, a, x) && x.op.Fenced() && (x.phase.Checked? || x.phase.Running? || x.phase.Updated?)
    ensures x.op.Uid() !in w.markers && exists e :: Grant(Lifecycle(x.op.Uid()), a, e) in w.grants
  {
    LocksOf(w, a, x.op);
  }

  lemma PublishOk(w: World, rules: Rules, b: nat)
    requires Inv(w, rules) && ActStep(w, rules, b, Publish).Some?
    ensures Inv(ActStep(w, rules, b, Publish).value, rules)
  {
    hide Inv, Valid, Exclusion, Op.Needs, Restorable;
    var w', op := ActStep(w, rules, b, Publish).value, w.actors[b].op;
    InvParts(w, rules, b);
    LocksOf(w, b, op);
    forall a | a in w.actors && a != b
      ensures Undisturbed(w, w', rules, a, w.actors[a])
    {
      var x := w.actors[a];
      InvParts(w, rules, a);
      if x.op.Fenced() && (x.phase.Checked? || x.phase.Running? || x.phase.Updated?) {
        PastCheckHoldsLifecycle(w, rules, a, x);
        var e :| Grant(Lifecycle(x.op.Uid()), a, e) in w.grants;
        Differ(w.grants, Lifecycle(x.op.Uid()), a, e, Lifecycle(op.uid), b);
      }
    }
    InvAfter(w, w', rules, b);
  }

  /** Two live guards never stand for the same marker. */
  lemma OneLiveGuard(w: World, rules: Rules, a: nat, b: nat)
    requires Inv(w, rules) && a in w.actors && b in w.actors
    requires w.actors[a].phase.Live() && w.actors[b].phase.Live() && w.actors[a].op.Uid() == w.actors[b].op.Uid()
    ensures a == b
  {
    hide Valid, Exclusion, Op.Needs, Restorable;
    var x, y := w.actors[a], w.actors[b];
    assert ActorOk(w, rules, a, x) && ActorOk(w, rules, b, y);
    var r := w.markers[x.op.Uid()];
    assert Grant(AliasOf(r), a, true) in w.grants && Grant(AliasOf(r), b, true) in w.grants;
    NoClash(w.grants, AliasOf(r), a, true, b);
  }

  lemma UnmarkOk(w: World, rules: Rules, b: nat, step: Step)
    requires Inv(w, rules) && (step.Clear? || step.Unlink?) && ActStep(w, rules, b, step).Some?
    ensures Inv(ActStep(w, rules, b, step).value, rules)
  {
    hide Inv, Valid, Exclusion, Op.Needs, Restorable;
    var w', op := ActStep(w, rules, b, step).value, w.actors[b].op;
    InvParts(w, rules, b);
    FewerKeepExclusion(w.grants, Released(w.grants, b));
    forall a | a in w.actors && a != b
      ensures Undisturbed(w, w', rules, a, w.actors[a])
    {
      if w.actors[a].phase.Live() && w.actors[a].op.Uid() == op.Uid() {
        OneLiveGuard(w, rules, a, b);
      }
    }
    InvAfter(w, w', rules, b);
  }

  // ---- Metadata ----

  /** An operation about to change metadata holds the identity it changes, and every name it takes, exclusively. */
  lemma ChangerLocks(w: World, rules: Rules, b: nat)
    requires Inv(w, rules) && ActStep(w, rules, b, Update).Some?
    ensures var op := w.actors[b].op;
      && (op.Edit? || op.Rename? || op.Remove? || op.Add?) && Grant(AliasOf(op.id), b, true) in w.grants
      && (!op.Add? ==> Grant(Lifecycle(op.profile.uid), b, true) in w.grants && Expects(w.config, op.id, op.profile))
      && (op.Rename? ==> Grant(AliasOf(ProfileId(op.id.provider, op.newName)), b, true) in w.grants)
  {
    hide Valid, Exclusion, Op.Needs;
    InvParts(w, rules, b);
    LocksOf(w, b, w.actors[b].op);
  }

  /** A running operation's entry survives any change made under other locks. */
  lemma RunningSurvives(w: World, rules: Rules, b: nat, a: nat)
    requires Inv(w, rules) && ActStep(w, rules, b, Update).Some? && a in w.actors && a != b
    requires var x := w.actors[a]; x.phase.Running? && x.op.Vendor?
    ensures var x := w.actors[a]; Expects(ActStep(w, rules, b, Update).value.config, x.op.id, x.op.profile)
  {
    hide Valid, Exclusion, Op.Needs, Inv;
    var x, op := w.actors[a].op, w.actors[b].op;
    InvParts(w, rules, a);
    InvParts(w, rules, b);
    ChangerLocks(w, rules, b);
    LocksOf(w, a, x);
    if !op.Add? {
      Differ(w.grants, Lifecycle(x.profile.uid), a, false, Lifecycle(op.profile.uid), b);
    }
    assert x.id.Aliases(x.id);
  }

  lemma RestorableSurvives(w: World, rules: Rules, b: nat, a: nat)
    requires Inv(w, rules) && ActStep(w, rules, b, Update).Some? && a in w.actors && a != b
    requires var x := w.actors[a]; x.phase.Updated? && x.op.Remove?
    ensures var x := w.actors[a]; Restorable(ActStep(w, rules, b, Update).value.config, rules, x.op.id, x.op.profile)
  {
    hide Valid, Exclusion, Op.Needs, Inv;
    var x, op := w.actors[a].op, w.actors[b].op;
    InvParts(w, rules, a);
    InvParts(w, rules, b);
    ChangerLocks(w, rules, b);
    LocksOf(w, a, x);
    Differ(w.grants, AliasOf(x.id), a, true, AliasOf(op.id), b);
    if op.Rename? {
      Differ(w.grants, AliasOf(x.id), a, true, AliasOf(ProfileId(op.id.provider, op.newName)), b);
    }
  }

  lemma RemovedIsRestorable(c: Config, rules: Rules, id: ProfileId, p: Profile)
    requires Valid(c, rules) && RemoveProfile(c, id, p).Ok?
    ensures Restorable(RemoveProfile(c, id, p).value, rules, id, p)
  {
    assert ProfileValid(c, rules, id);
    forall o | o in c.profiles && o != id
      ensures !o.Aliases(id)
    {
      assert Separate(c, o, id);
    }
  }

  lemma UpdateOk(w: World, rules: Rules, b: nat)
    requires Inv(w, rules) && ActStep(w, rules, b, Update).Some?
    ensures Inv(ActStep(w, rules, b, Update).value, rules)
  {
    hide Inv, Valid, Exclusion, Op.Needs, Restorable, Expects, ChangeOf;
    var w', op := ActStep(w, rules, b, Update).value, w.actors[b].op;
    InvParts(w, rules, b);
    forall a | a in w.actors && a != b
      ensures Undisturbed(w, w', rules, a, w.actors[a])
    {
      var x := w.actors[a];
      if x.phase.Running? && x.op.Vendor? { RunningSurvives(w, rules, b, a); }
      if x.phase.Updated? && x.op.Remove? { RestorableSurvives(w, rules, b, a); }
    }
    if op.Remove? {
      RemoveChange(w.config, op);
      RemovedIsRestorable(w.config, rules, op.id, op.profile);
    }
    OnlyChangersUpdate(w, rules, b);
    InvAfter(w, w', rules, b);
  }

  lemma RemoveChange(c: Config, op: Op)
    requires op.Remove?
    ensures ChangeOf(c, op) == RemoveProfile(c, op.id, op.profile)
  {
  }

  lemma OnlyChangersUpdate(w: World, rules: Rules, b: nat)
    requires ActStep(w, rules, b, Update).Some?
    ensures w.actors[b].op.Edit? || w.actors[b].op.Rename? || w.actors[b].op.Remove? || w.actors[b].op.Add?
  {
  }

  lemma RestoreSpares(w: World, rules: Rules, b: nat, a: nat)
    requires Inv(w, rules) && ActStep(w, rules, b, Restore).Some? && a in w.actors && a != b
    ensures var x, c := w.actors[a], ActStep(w, rules, b, Restore).value.config;
      && (x.phase.Running? && x.op.Vendor? ==> Expects(c, x.op.id, x.op.profile))
      && (x.phase.Updated? && x.op.Remove? ==> Restorable(c, rules, x.op.id, x.op.profile))
  {
    hide Valid, Exclusion, Op.Needs, Inv;
    var x, op := w.actors[a], w.actors[b].op;
    InvParts(w, rules, a);
    InvParts(w, rules, b);
    LocksOf(w, b, op);
    if x.phase.Updated? && x.op.Remove? {
      LocksOf(w, a, x.op);
      Differ(w.grants, Lifecycle(x.op.profile.uid), a, true, Lifecycle(op.profile.uid), b);
      Differ(w.grants, AliasOf(x.op.id), a, true, AliasOf(op.id), b);
    }
  }

  lemma RestoreOk(w: World, rules: Rules, b: nat)
    requires Inv(w, rules) && ActStep(w, rules, b, Restore).Some?
    ensures Inv(ActStep(w, rules, b, Restore).value, rules)
  {
    hide Inv, Valid, Exclusion, Op.Needs, Restorable, Expects;
    var w' := ActStep(w, rules, b, Restore).value;
    InvParts(w, rules, b);
    FewerKeepExclusion(w.grants, Released(w.grants, b));
    forall a | a in w.actors && a != b
      ensures Undisturbed(w, w', rules, a, w.actors[a])
    {
      RestoreSpares(w, rules, b, a);
    }
    InvAfter(w, w', rules, b);
  }

  lemma OtherUpdateOk(w: World, rules: Rules, c: Config)
    requires Inv(w, rules) && Next(w, rules, OtherUpdate(c)).Some?
    ensures Inv(Next(w, rules, OtherUpdate(c)).value, rules)
  {
    hide Valid, Exclusion, Op.Needs;
    var w' := w.(config := c);
    forall a | a in w.actors
      ensures ActorOk(w', rules, a, w.actors[a])
    {
      assert ActorOk(w, rules, a, w.actors[a]);
    }
  }

  // ---- Runs ----

  /** Every possible event keeps the invariant. */
  lemma StepKeepsInv(w: World, rules: Rules, e: Event)
    requires Inv(w, rules) && Next(w, rules, e).Some?
    ensures Inv(Next(w, rules, e).value, rules)
  {
    hide Inv, Valid, Op.Needs, Restorable, Free, Released, Expects, ChangeOf;
    match e
    case OtherUpdate(c) => OtherUpdateOk(w, rules, c);
    case Act(a, step) =>
      match step
      case Take(n) => TakeOk(w, rules, a, n);
      case UseHome(exclusive) => UseHomeOk(w, rules, a, exclusive);
      case Extend(ref) => ExtendOk(w, rules, a, ref);
      case Update => UpdateOk(w, rules, a);
      case Restore => RestoreOk(w, rules, a);
      case Leave => LeavingOk(w, rules, a);
      case Publish => PublishOk(w, rules, a);
      case Upgrade(turn) => ConvertingOk(w, rules, a, true, turn, Clearing);
      case Downgrade(turn) => ConvertingOk(w, rules, a, false, turn, Guarding);
      case Clear => UnmarkOk(w, rules, a, step);
      case Unlink => UnmarkOk(w, rules, a, step);
      case _ => PhaseOk(w, rules, a, step);
  }

  /** Valid metadata, any markers, no operation under way. */
  ghost predicate Initial(w: World, rules: Rules) {
    Valid(w.config, rules) && w.grants == {} && w.actors == map[]
  }

  lemma {:induction false} RunKeepsInv(w: World, rules: Rules, events: seq<Event>)
    requires Initial(w, rules)
    ensures Inv(Run(w, rules, events), rules)
  {
    hide Next, Valid, ActorOk, Exclusion;
    if events == [] {
      InitialInv(w, rules);
    } else {
      var before := Run(w, rules, events[..|events| - 1]);
      RunKeepsInv(w, rules, events[..|events| - 1]);
      if Next(before, rules, events[|events| - 1]).Some? {
        StepKeepsInv(before, rules, events[|events| - 1]);
      }
    }
  }

  lemma InitialInv(w: World, rules: Rules)
    requires Initial(w, rules)
    ensures Inv(w, rules)
  {
  }

  // ---- What the invariant gives ----

  predicate PastCheck(x: Actor) {
    x.op.Fenced() && (x.phase.Checked? || x.phase.Running? || x.phase.Updated?)
  }

  /** In every reachable world: while a marker exists, no ordinary operation on that identity is past its fence check. */
  lemma MarkerExcludesOperations(w: World, rules: Rules, events: seq<Event>, a: nat)
    requires Initial(w, rules)
    ensures var now := Run(w, rules, events);
      a in now.actors && PastCheck(now.actors[a]) ==> now.actors[a].op.Uid() !in now.markers
  {
    hide Valid;
    RunKeepsInv(w, rules, events);
    var now := Run(w, rules, events);
    if a in now.actors {
      assert ActorOk(now, rules, a, now.actors[a]);
    }
  }

  /** In every reachable world: from its recheck to its end a running operation sees the profile entry it checked. */
  lemma RunningEntryUnchanged(w: World, rules: Rules, events: seq<Event>, a: nat)
    requires Initial(w, rules)
    ensures var now := Run(w, rules, events);
      a in now.actors && now.actors[a].phase.Running? ==>
        now.actors[a].op.Vendor? && Expects(now.config, now.actors[a].op.id, now.actors[a].op.profile)
  {
    hide Valid;
    RunKeepsInv(w, rules, events);
    var now := Run(w, rules, events);
    if a in now.actors {
      assert ActorOk(now, rules, a, now.actors[a]);
    }
  }

  /** In every reachable world: vendor operations on one identity never overlap, nor with a lease using its home. */
  lemma VendorOperationsNeverOverlap(w: World, rules: Rules, events: seq<Event>, a: nat, b: nat, exclusive: bool)
    requires Initial(w, rules)
    ensures var now := Run(w, rules, events);
      a in now.actors && now.actors[a].phase.Running? && a != b ==>
        && Grant(Resource(now.actors[a].op.Uid()), b, exclusive) !in now.grants
        && (b in now.actors && now.actors[b].phase.Running? ==> now.actors[b].op.Uid() != now.actors[a].op.Uid())
  {
    hide Valid, Op.Needs;
    RunKeepsInv(w, rules, events);
    var now := Run(w, rules, events);
    if a in now.actors && now.actors[a].phase.Running? && a != b {
      assert ActorOk(now, rules, a, now.actors[a]);
      LocksOf(now, a, now.actors[a].op);
      if b in now.actors && now.actors[b].phase.Running? {
        assert ActorOk(now, rules, b, now.actors[b]);
        LocksOf(now, b, now.actors[b].op);
      }
    }
  }

  /** In every reachable world a live guard's marker is on disk, and no two live guards share an identity. */
  lemma GuardsKeepTheirMarker(w: World, rules: Rules, events: seq<Event>, a: nat, b: nat)
    requires Initial(w, rules)
    ensures var now := Run(w, rules, events);
      a in now.actors && now.actors[a].phase.Live() ==>
        && now.actors[a].op.Uid() in now.markers
        && (b in now.actors && now.actors[b].phase.Live() && now.actors[b].op.Uid() == now.actors[a].op.Uid() ==> a == b)
  {
    hide Valid, Op.Needs;
    RunKeepsInv(w, rules, events);
    var now := Run(w, rules, events);
    if a in now.actors && now.actors[a].phase.Live() {
      assert ActorOk(now, rules, a, now.actors[a]);
      if b in now.actors && now.actors[b].phase.Live() && now.actors[b].op.Uid() == now.actors[a].op.Uid() {
        OneLiveGuard(now, rules, a, b);
      }
    }
  }

  // ---- Putting a removed profile back ----

  /** State directories equal up to case derive the same identity. */
  ghost predicate FoldedIdentity(rules: Rules) {
    forall u: string, p, q, d, e | rules.stateDirOk(p, d) && rules.stateDirOk(q, e) && LoweredPath(d) == LoweredPath(e) ::
      rules.uidFor(u, p, d) == rules.uidFor(u, q, e)
  }

  lemma RestorableRestores(c: Config, rules: Rules, id: ProfileId, p: Profile)
    requires FoldedIdentity(rules) && Valid(c, rules) && Restorable(c, rules, id, p)
    ensures RestoreProfile(c, id, p).Ok? && Valid(RestoreProfile(c, id, p).value, rules)
  {
    assert id.Aliases(id);
    var c' := RestoreProfile(c, id, p).value;
    forall o | o in c'.profiles
      ensures ProfileValid(c', rules, o)
      ensures o != id ==> Separate(c', o, id) && Separate(c', id, o)
    {
      if o != id {
        assert ProfileValid(c, rules, o);
      }
    }
    forall a, b | a in c'.profiles && b in c'.profiles && a != b
      ensures Separate(c', a, b)
    {
      if a != id && b != id {
        assert Separate(c, a, b);
      }
    }
    forall n | n in c'.contexts
      ensures ContextValid(c'.profiles, c'.contexts[n])
    {
      assert ContextValid(c.profiles, c.contexts[n]);
    }
  }

  /** In every reachable world, whatever else has run since the removal, a failed cleanup can put the profile back. */
  lemma RestoreNeverFails(w: World, rules: Rules, events: seq<Event>, a: nat)
    requires Initial(w, rules) && FoldedIdentity(rules)
    ensures var now := Run(w, rules, events);
      a in now.actors && now.actors[a].op.Remove? && now.actors[a].phase.Updated? ==> Next(now, rules, Act(a, Restore)).Some?
  {
    hide Valid, FoldedIdentity, Restorable;
    RunKeepsInv(w, rules, events);
    var now := Run(w, rules, events);
    if a in now.actors && now.actors[a].op.Remove? && now.actors[a].phase.Updated? {
      assert ActorOk(now, rules, a, now.actors[a]);
      RestorableRestores(now.config, rules, now.actors[a].op.id, now.actors[a].op.profile);
    }
  }

  // ---- A fenced identity is frozen ----

  lemma UpdateSparesFenced(w: World, rules: Rules, b: nat, id: ProfileId)
    requires Inv(w, rules) && ActStep(w, rules, b, Update).Some?
    requires id in w.config.profiles && w.config.profiles[id].uid in w.markers
    ensures Expects(ActStep(w, rules, b, Update).value.config, id, w.config.profiles[id])
  {
    hide Valid, Op.Needs, Exclusion, Inv, Restorable;
    InvParts(w, rules, b);
    assert id.Aliases(id);
  }

  lemma RestoreSparesAll(w: World, rules: Rules, b: nat, id: ProfileId)
    requires ActStep(w, rules, b, Restore).Some? && id in w.config.profiles
    ensures Expects(ActStep(w, rules, b, Restore).value.config, id, w.config.profiles[id])
  {
    hide Valid;
  }

  lemma OtherStepsSpareAll(w: World, rules: Rules, b: nat, step: Step)
    requires ActStep(w, rules, b, step).Some? && !step.Update? && !step.Restore?
    ensures ActStep(w, rules, b, step).value.config == w.config
  {
    hide Valid, Op.Needs, Op.Uid, Op.Refs, Free;
  }

  /** While its marker stays, no step changes, renames or removes a profile entry of the fenced identity. */
  lemma FencedEntriesFrozen(w: World, rules: Rules, events: seq<Event>, e: Event, id: ProfileId)
    requires Initial(w, rules)
    ensures var now := Run(w, rules, events);
      var next := Next(now, rules, e);
      next.Some? && id in now.config.profiles && now.config.profiles[id].uid in now.markers ==>
        Expects(next.value.config, id, now.config.profiles[id])
  {
    hide Inv, Valid, ActStep;
    RunKeepsInv(w, rules, events);
    var now := Run(w, rules, events);
    if Next(now, rules, e).Some? && id in now.config.profiles && now.config.profiles[id].uid in now.markers && e.Act? {
      if e.step.Update? {
        UpdateSparesFenced(now, rules, e.actor, id);
      } else if e.step.Restore? {
        RestoreSparesAll(now, rules, e.actor, id);
      } else {
        OtherStepsSpareAll(now, rules, e.actor, e.step);
      }
    }
  }
}
