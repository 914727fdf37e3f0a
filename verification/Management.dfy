/** Metadata changes: the update closures, what they keep, and the store that applies them atomically. */
module Management {
  import opened CaseFolding
  import opened Contracts
  import opened Layout
  import opened Metadata
  import opened Resolver
  import opened Wrappers

  datatype Refusal = Busy | Exists | Referenced | ActiveContextInUse | InvalidConfig

  type Change = Config -> Result<Config, Refusal>

  predicate Collides(c: Config, candidate: ProfileId, excluded: Option<ProfileId>) {
    exists id | id in c.profiles :: excluded != Some(id) && id.Aliases(candidate)
  }

  predicate Expects(c: Config, id: ProfileId, expected: Profile) {
    id in c.profiles && c.profiles[id] == expected
  }

  function RenamedSlot(slot: Option<ProfileId>, from: ProfileId, to: ProfileId): Option<ProfileId> {
    if slot == Some(from) then Some(to) else slot
  }

  function RenamedContext(x: Context, from: ProfileId, to: ProfileId): Context {
    Context(RenamedSlot(x.claude, from, to), RenamedSlot(x.codex, from, to))
  }

  function RenameProfile(c: Config, from: ProfileId, newName: string, expected: Profile): Result<Config, Refusal> {
    var replacement := ProfileId(from.provider, newName);
    if !Expects(c, from, expected) then Err(Busy)
    else if replacement == from then Ok(c)
    else if Collides(c, replacement, Some(from)) then Err(Exists)
    else
      Ok(c.(profiles := (c.profiles - {from})[replacement := c.profiles[from]],
            contexts := map n | n in c.contexts :: RenamedContext(c.contexts[n], from, replacement)))
  }

  function RenamedBindings(bs: seq<Binding>, from: string, to: string): (r: seq<Binding>)
    ensures |r| == |bs|
  {
    seq(|bs|, i requires 0 <= i < |bs| => if bs[i].context == from then bs[i].(context := to) else bs[i])
  }

  function RenameContext(c: Config, current: Option<string>, from: string, to: string, expected: Context)
    : Result<Config, Refusal>
  {
    if from !in c.contexts || c.contexts[from] != expected then Err(Busy)
    else if to == from then Ok(c)
    else if current == Some(from) then Err(ActiveContextInUse)
    else if to in c.contexts then Err(Exists)
    else
      Ok(c.(contexts := (c.contexts - {from})[to := c.contexts[from]],
            defaultContext := if c.defaultContext == Some(from) then Some(to) else c.defaultContext,
            bindings := RenamedBindings(c.bindings, from, to)))
  }

  function RemoveProfile(c: Config, id: ProfileId, expected: Profile): Result<Config, Refusal> {
    if !Expects(c, id, expected) then Err(Busy)
    else if exists n | n in c.contexts :: c.contexts[n].claude == Some(id) || c.contexts[n].codex == Some(id) then Err(Referenced)
    else Ok(c.(profiles := c.profiles - {id}, retired := c.retired + {expected.uid}))
  }

  function RestoreProfile(c: Config, id: ProfileId, expected: Profile): Result<Config, Refusal> {
    if id in c.profiles || expected.uid !in c.retired then Err(Busy)
    else Ok(c.(profiles := c.profiles[id := expected], retired := c.retired - {expected.uid}))
  }

  function EditProfile(c: Config, id: ProfileId, expected: Profile, details: string): Result<Config, Refusal> {
    if !Expects(c, id, expected) then Err(Busy) else Ok(c.(profiles := c.profiles[id := expected.(details := details)]))
  }

  function AddProfile(c: Config, id: ProfileId, profile: Profile): Result<Config, Refusal> {
    if Collides(c, id, None) then Err(Exists)
    else if profile.uid in c.retired || exists o | o in c.profiles :: c.profiles[o].uid == profile.uid then Err(Busy)
    else Ok(c.(profiles := c.profiles[id := profile]))
  }

  // ---- Renaming a profile ----

  lemma RenamedProfilesValid(c: Config, rules: Rules, from: ProfileId, newName: string, expected: Profile)
    requires ProfilesValid(c, rules) && RenameProfile(c, from, newName, expected).Ok?
    ensures ProfilesValid(RenameProfile(c, from, newName, expected).value, rules)
  {
    var c' := RenameProfile(c, from, newName, expected).value;
    var replacement := ProfileId(from.provider, newName);
    if replacement != from {
      forall id | id in c'.profiles
        ensures ProfileValid(c', rules, id)
      {
        assert ProfileValid(c, rules, if id == replacement then from else id);
      }
      forall a, b | a in c'.profiles && b in c'.profiles && a != b
        ensures Separate(c', a, b)
      {
        assert Separate(c, if a == replacement then from else a, if b == replacement then from else b);
      }
    }
  }

  /** Renaming a profile in valid metadata never fails the validation that follows it. */
  lemma RenameProfileNeverRejected(c: Config, rules: Rules, current: Option<string>, from: ProfileId, newName: string,
                                   expected: Profile)
    requires Valid(c, rules) && StateValid(current, c) && RenameProfile(c, from, newName, expected).Ok?
    ensures Valid(RenameProfile(c, from, newName, expected).value, rules)
    ensures StateValid(current, RenameProfile(c, from, newName, expected).value)
  {
    hide ProfilesValid;
    var c' := RenameProfile(c, from, newName, expected).value;
    RenamedProfilesValid(c, rules, from, newName, expected);
    if ProfileId(from.provider, newName) != from {
      forall n | n in c'.contexts
        ensures ContextValid(c'.profiles, c'.contexts[n])
      {
        assert ContextValid(c.profiles, c.contexts[n]);
      }
    }
  }

  function RenamedId(id: ProfileId, from: ProfileId, to: ProfileId): ProfileId {
    if id == from then to else id
  }

  /** A resolution with only the profile's label replaced. */
  function Relabeled(r: Result<ResolvedProfile, Resolver.Error>, from: ProfileId, to: ProfileId)
    : Result<ResolvedProfile, Resolver.Error>
  {
    match r
    case Ok(p) => Ok(p.(id := RenamedId(p.id, from, to)))
    case Err(WrongProvider(id, wanted)) => Err(WrongProvider(RenamedId(id, from, to), wanted))
    case Err(_) => r
  }

  /** A renamed profile's contexts follow it, and every other lookup is unchanged. */
  lemma LookupsFollow(c: Config, from: ProfileId, newName: string, expected: Profile, name: string, provider: Provider)
    requires RenameProfile(c, from, newName, expected).Ok? && ContextsValid(c) && name in c.contexts
    ensures var to, c' := ProfileId(from.provider, newName), RenameProfile(c, from, newName, expected).value;
      var slot := c.contexts[name].ProfileFor(provider);
      && name in c'.contexts && c'.contexts[name].ProfileFor(provider) == RenamedSlot(slot, from, to)
      && (slot.Some? ==> slot.value in c.profiles && RenamedId(slot.value, from, to) in c'.profiles
                         && c'.profiles[RenamedId(slot.value, from, to)] == c.profiles[slot.value])
  {
    assert ContextValid(c.profiles, c.contexts[name]);
    var to := ProfileId(from.provider, newName);
    if to != from && to in c.profiles {
      assert to.Aliases(to);
    }
  }

  /** After renaming a profile every request resolves to the same profile and source, with only that label mapped. */
  lemma RenameProfilePreservesResolution(c: Config, rules: Rules, from: ProfileId, newName: string, expected: Profile,
                                         current: Option<string>, cwd: Path, provider: Provider, context: Option<string>,
                                         wanted: Option<ProfileId>)
    requires Valid(c, rules) && RenameProfile(c, from, newName, expected).Ok?
    requires var to := ProfileId(from.provider, newName); to == from || wanted != Some(to)
    ensures var to := ProfileId(from.provider, newName);
      ResolveProfile(RenameProfile(c, from, newName, expected).value, current, cwd, provider, context,
                     if wanted.Some? then Some(RenamedId(wanted.value, from, to)) else None)
      == Relabeled(ResolveProfile(c, current, cwd, provider, context, wanted), from, to)
  {
    hide HeaderOk, ProfilesValid, ContextsValid, BindingsValid, Collides, Nearest;
    var c' := RenameProfile(c, from, newName, expected).value;
    if wanted.None? {
      assert c'.contexts.Keys == c.contexts.Keys;
      assert ResolveContext(c', current, cwd, context) == ResolveContext(c, current, cwd, context);
      var r := ResolveContext(c, current, cwd, context);
      if r.Ok? && r.value.name in c.contexts {
        LookupsFollow(c, from, newName, expected, r.value.name, provider);
      }
    }
  }

  // ---- Renaming a context ----

  function RenamedName(n: string, from: string, to: string): string {
    if n == from then to else n
  }

  lemma RenamedBindingsAt(bs: seq<Binding>, from: string, to: string)
    ensures forall i | 0 <= i < |bs| ::
              RenamedBindings(bs, from, to)[i] == Binding(bs[i].path, RenamedName(bs[i].context, from, to))
  {
  }

  /** Renaming a context in valid metadata never fails the validation that follows it. */
  lemma RenameContextNeverRejected(c: Config, rules: Rules, current: Option<string>, from: string, to: string,
                                   expected: Context)
    requires Valid(c, rules) && StateValid(current, c) && RenameContext(c, current, from, to, expected).Ok?
    ensures Valid(RenameContext(c, current, from, to, expected).value, rules)
    ensures StateValid(current, RenameContext(c, current, from, to, expected).value)
  {
    var c' := RenameContext(c, current, from, to, expected).value;
    if to != from {
      RenamedProfilesKept(c, c', rules);
      RenamedBindingsAt(c.bindings, from, to);
      forall b | b in c'.bindings
        ensures rules.bindingPathOk(b.path) && b.context in c'.contexts
      {
        var i :| 0 <= i < |c'.bindings| && c'.bindings[i] == b;
        assert c.bindings[i] in c.bindings;
      }
    }
  }

  lemma RenamedProfilesKept(c: Config, c': Config, rules: Rules)
    requires c'.profiles == c.profiles && c'.retired == c.retired && c'.installationUid == c.installationUid
    ensures ProfilesValid(c', rules) == ProfilesValid(c, rules)
  {
    assert forall id | id in c.profiles :: ProfileValid(c', rules, id) == ProfileValid(c, rules, id);
    assert forall a, b | a in c.profiles && b in c.profiles :: Separate(c', a, b) == Separate(c, a, b);
  }

  lemma {:induction false} NearestFollows(bs: seq<Binding>, from: string, to: string, cwd: Path)
    ensures Nearest(RenamedBindings(bs, from, to), cwd)
            == var b := Nearest(bs, cwd); if b.Some? then Some(Binding(b.value.path, RenamedName(b.value.context, from, to))) else None
  {
    if bs != [] {
      var n := |bs| - 1;
      NearestFollows(bs[..n], from, to, cwd);
      assert RenamedBindings(bs, from, to)[..n] == RenamedBindings(bs[..n], from, to);
    }
  }

  function ContextRelabeled(r: Result<ResolvedProfile, Resolver.Error>, from: string, to: string)
    : Result<ResolvedProfile, Resolver.Error>
  {
    match r
    case Ok(p) => Ok(p.(context := if p.context.Some? then Some(RenamedName(p.context.value, from, to)) else None))
    case Err(NoSlot(n, unfilled)) => Err(NoSlot(RenamedName(n, from, to), unfilled))
    case Err(_) => r
  }

  lemma ContextFollows(c: Config, current: Option<string>, from: string, to: string, expected: Context, cwd: Path,
                       context: Option<string>)
    requires ContextsValid(c) && (forall b | b in c.bindings :: b.context in c.contexts) && StateValid(current, c)
    requires RenameContext(c, current, from, to, expected).Ok? && (to == from || context != Some(to))
    ensures var c' := RenameContext(c, current, from, to, expected).value;
      var context' := if context.Some? then Some(RenamedName(context.value, from, to)) else None;
      var r, r' := ResolveContext(c, current, cwd, context), ResolveContext(c', current, cwd, context');
      && r'.Ok? == r.Ok? && (r.Err? ==> r' == r)
      && (r.Ok? ==> r'.value == ResolvedContext(RenamedName(r.value.name, from, to), r.value.source)
                    && r.value.name in c.contexts && r'.value.name in c'.contexts
                    && c'.contexts[r'.value.name] == c.contexts[r.value.name])
  {
    if to != from {
      NearestFollows(c.bindings, from, to, cwd);
      NearestFound(c.bindings, cwd);
    } else {
      NearestFound(c.bindings, cwd);
    }
  }

  /** After renaming a context every request resolves to the same profile and source, with only that label mapped. */
  lemma RenameContextPreservesResolution(c: Config, rules: Rules, current: Option<string>, from: string, to: string,
                                         expected: Context, cwd: Path, provider: Provider, context: Option<string>,
                                         wanted: Option<ProfileId>)
    requires Valid(c, rules) && StateValid(current, c) && RenameContext(c, current, from, to, expected).Ok?
    requires to == from || context != Some(to)
    ensures ResolveProfile(RenameContext(c, current, from, to, expected).value, current, cwd, provider,
                           if context.Some? then Some(RenamedName(context.value, from, to)) else None, wanted)
            == ContextRelabeled(ResolveProfile(c, current, cwd, provider, context, wanted), from, to)
  {
    hide HeaderOk, ProfilesValid, ContextsValid, Nearest, ResolveContext;
    ContextFollows(c, current, from, to, expected, cwd, context);
  }

  // ---- Removing and restoring ----

  /** Removing an unreferenced profile keeps metadata valid, and its identity is never used again. */
  lemma RemoveNeverRejected(c: Config, rules: Rules, current: Option<string>, id: ProfileId, expected: Profile)
    requires Valid(c, rules) && StateValid(current, c) && RemoveProfile(c, id, expected).Ok?
    ensures Valid(RemoveProfile(c, id, expected).value, rules)
    ensures StateValid(current, RemoveProfile(c, id, expected).value)
    ensures forall later, p | AddProfile(RemoveProfile(c, id, expected).value, later, p).Ok? :: p.uid != expected.uid
  {
    var c' := RemoveProfile(c, id, expected).value;
    forall o | o in c'.profiles
      ensures ProfileValid(c', rules, o)
    {
      assert ProfileValid(c, rules, o) && Separate(c, o, id);
    }
    forall a, b | a in c'.profiles && b in c'.profiles && a != b
      ensures Separate(c', a, b)
    {
      assert Separate(c, a, b);
    }
    forall n | n in c'.contexts
      ensures ContextValid(c'.profiles, c'.contexts[n])
    {
      assert ContextValid(c.profiles, c.contexts[n]);
    }
  }

  /** Restoring after a failed cleanup undoes the removal exactly. */
  lemma RestoreUndoesRemove(c: Config, rules: Rules, id: ProfileId, expected: Profile)
    requires Valid(c, rules) && RemoveProfile(c, id, expected).Ok?
    ensures RestoreProfile(RemoveProfile(c, id, expected).value, id, expected) == Ok(c)
  {
    assert ProfileValid(c, rules, id);
    var c' := RemoveProfile(c, id, expected).value;
    assert c'.profiles[id := expected] == c.profiles;
    assert c'.retired - {expected.uid} == c.retired;
  }

  // ---- Editing and adding ----

  /** Profiles that stay under their names keep every reference to them valid. */
  lemma ReferencesKept(c: Config, c': Config, rules: Rules)
    requires Valid(c, rules) && c.profiles.Keys <= c'.profiles.Keys
    requires c' == c.(profiles := c'.profiles)
    ensures Valid(c', rules) <==> ProfilesValid(c', rules)
  {
    hide ProfilesValid;
    forall n | n in c'.contexts
      ensures ContextValid(c'.profiles, c'.contexts[n])
    {
      assert ContextValid(c.profiles, c.contexts[n]);
    }
  }

  lemma EditedProfilesValidIff(c: Config, rules: Rules, id: ProfileId, expected: Profile, details: string)
    requires ProfilesValid(c, rules) && Expects(c, id, expected)
    ensures var edited := expected.(details := details);
      ProfilesValid(c.(profiles := c.profiles[id := edited]), rules) <==> rules.profileOk(edited)
  {
    var edited := expected.(details := details);
    var c' := c.(profiles := c.profiles[id := edited]);
    assert ProfileValid(c, rules, id);
    assert ProfileValid(c', rules, id) <==> rules.profileOk(edited);
    forall o | o in c.profiles && o != id
      ensures ProfileValid(c', rules, o)
    {
      assert ProfileValid(c, rules, o);
    }
    forall a, b | a in c'.profiles && b in c'.profiles && a != b
      ensures Separate(c', a, b)
    {
      assert Separate(c, a, b);
    }
  }

  /** In valid metadata an edit passes the validation that follows it exactly when the details are acceptable on their own. */
  lemma EditAcceptedIff(c: Config, rules: Rules, id: ProfileId, expected: Profile, details: string)
    requires Valid(c, rules) && EditProfile(c, id, expected, details).Ok?
    ensures Valid(EditProfile(c, id, expected, details).value, rules) <==> rules.profileOk(expected.(details := details))
  {
    hide ProfilesValid, ContextsValid, BindingsValid, HeaderOk;
    EditedProfilesValidIff(c, rules, id, expected, details);
    ReferencesKept(c, EditProfile(c, id, expected, details).value, rules);
  }

  /** The profile is acceptable on its own, is what its state directory derives, and has that directory to itself. */
  predicate Addable(c: Config, rules: Rules, id: ProfileId, p: Profile) {
    && id.provider == p.provider && rules.stateDirOk(p.provider, p.stateDir) && rules.profileOk(p)
    && rules.uidFor(c.installationUid, id.provider, p.stateDir) == Some(p.uid)
    && forall o | o in c.profiles :: LoweredPath(c.profiles[o].stateDir) != LoweredPath(p.stateDir)
  }

  lemma AddedProfilesValidIff(c: Config, rules: Rules, id: ProfileId, p: Profile)
    requires ProfilesValid(c, rules) && AddProfile(c, id, p).Ok?
    ensures id !in c.profiles
    ensures ProfilesValid(AddProfile(c, id, p).value, rules) <==> Addable(c, rules, id, p)
  {
    var c' := AddProfile(c, id, p).value;
    assert id.Aliases(id);
    assert ProfileValid(c', rules, id) && ProfilesValid(c', rules) ==> forall o | o in c.profiles :: Separate(c', o, id);
    forall o | o in c.profiles
      ensures ProfileValid(c', rules, o)
      ensures Separate(c', o, id) <==> LoweredPath(c.profiles[o].stateDir) != LoweredPath(p.stateDir)
      ensures Separate(c', id, o) <==> Separate(c', o, id)
    {
      assert ProfileValid(c, rules, o);
    }
    forall a, b | a in c.profiles && b in c.profiles && a != b
      ensures Separate(c', a, b)
    {
      assert Separate(c, a, b);
    }
  }

  /** In valid metadata an addition passes the validation that follows it exactly when the profile is addable. */
  lemma AddAcceptedIff(c: Config, rules: Rules, id: ProfileId, p: Profile)
    requires Valid(c, rules) && AddProfile(c, id, p).Ok?
    ensures Valid(AddProfile(c, id, p).value, rules) <==> Addable(c, rules, id, p)
  {
    hide ProfilesValid, ContextsValid, BindingsValid, HeaderOk, Addable, Collides;
    AddedProfilesValidIff(c, rules, id, p);
    ReferencesKept(c, AddProfile(c, id, p).value, rules);
  }

  // ---- The store ----

  /** Holds the persisted metadata; every update reads, changes, revalidates and writes, or changes nothing. */
  class MetadataStore {
    var config: Config
    var current: Option<string>
    const rules: Rules

    predicate Sound()
      reads this
    {
      Valid(config, rules) && StateValid(current, config)
    }

    constructor (config: Config, current: Option<string>, rules: Rules)
      ensures this.config == config && this.current == current && this.rules == rules
    {
      this.config, this.current, this.rules := config, current, rules;
    }

    /** Nothing is written unless the metadata was valid before and is valid after the change. */
    method UpdateConfig(change: Change) returns (r: Result<(), Refusal>)
      modifies this`config
      ensures r.Ok? <==> old(Sound()) && change(old(config)).Ok? && Valid(change(old(config)).value, rules)
                         && StateValid(current, change(old(config)).value)
      ensures config == if r.Ok? then change(old(config)).value else old(config)
      ensures r.Ok? ==> Sound()
      ensures r.Err? && old(Sound()) ==>
                r.error == match change(old(config)) case Ok(_) => InvalidConfig case Err(error) => error
    {
      var before := Validate(config, rules);
      if !before || !StateValid(current, config) {
        return Err(InvalidConfig);
      }
      var changed :- change(config);
      var after := Validate(changed, rules);
      if !after || !StateValid(current, changed) {
        return Err(InvalidConfig);
      }
      config := changed;
      return Ok(());
    }

    /** In sound metadata a rename succeeds exactly when its own guards pass, and resolution follows the label. */
    method RenameProfileIn(from: ProfileId, newName: string, expected: Profile) returns (r: Result<(), Refusal>)
      requires Sound()
      modifies this`config
      ensures Sound()
      ensures match RenameProfile(old(config), from, newName, expected)
              case Ok(renamed) => r.Ok? && config == renamed
              case Err(error) => r == Err(error) && config == old(config)
    {
      if RenameProfile(config, from, newName, expected).Ok? {
        RenameProfileNeverRejected(config, rules, current, from, newName, expected);
      }
      r := UpdateConfig(c => RenameProfile(c, from, newName, expected));
    }

    method RenameContextIn(from: string, to: string, expected: Context) returns (r: Result<(), Refusal>)
      requires Sound()
      modifies this`config
      ensures Sound()
      ensures match RenameContext(old(config), current, from, to, expected)
              case Ok(renamed) => r.Ok? && config == renamed
              case Err(error) => r == Err(error) && config == old(config)
    {
      if RenameContext(config, current, from, to, expected).Ok? {
        RenameContextNeverRejected(config, rules, current, from, to, expected);
      }
      var active := current;
      r := UpdateConfig(c => RenameContext(c, active, from, to, expected));
    }

    /** In sound metadata an edit is written exactly when its entry is the one expected and its details are acceptable. */
    method EditProfileIn(id: ProfileId, expected: Profile, details: string) returns (r: Result<(), Refusal>)
      requires Sound()
      modifies this`config
      ensures Sound()
      ensures r.Ok? <==> Expects(old(config), id, expected) && rules.profileOk(expected.(details := details))
      ensures config == if r.Ok? then old(config).(profiles := old(config).profiles[id := expected.(details := details)]) else old(config)
      ensures r.Err? ==> r.error == if Expects(old(config), id, expected) then InvalidConfig else Refusal.Busy
    {
      if EditProfile(config, id, expected, details).Ok? {
        EditAcceptedIff(config, rules, id, expected, details);
      }
      r := UpdateConfig(c => EditProfile(c, id, expected, details));
    }

    /** In sound metadata an addition is written exactly when its name and identity are new and the profile is addable. */
    method AddProfileIn(id: ProfileId, p: Profile) returns (r: Result<(), Refusal>)
      requires Sound()
      modifies this`config
      ensures Sound()
      ensures r.Ok? <==> AddProfile(old(config), id, p).Ok? && Addable(old(config), rules, id, p)
      ensures config == if r.Ok? then old(config).(profiles := old(config).profiles[id := p]) else old(config)
      ensures r.Err? ==> r.error == match AddProfile(old(config), id, p) case Ok(_) => InvalidConfig case Err(error) => error
    {
      if AddProfile(config, id, p).Ok? {
        AddAcceptedIff(config, rules, id, p);
      }
      r := UpdateConfig(c => AddProfile(c, id, p));
    }

    /** Remove a profile; when the cleanup that follows fails, put the metadata back exactly as it was. */
    method RemoveProfileIn(id: ProfileId, expected: Profile, cleanupSucceeds: bool) returns (r: Result<bool, Refusal>)
      requires Sound()
      modifies this`config
      ensures Sound()
      ensures match RemoveProfile(old(config), id, expected)
              case Err(error) => r == Err(error) && config == old(config)
              case Ok(removed) => r == Ok(cleanupSucceeds) && config == if cleanupSucceeds then removed else old(config)
    {
      ghost var before := config;
      if RemoveProfile(config, id, expected).Ok? {
        RemoveNeverRejected(config, rules, current, id, expected);
        RestoreUndoesRemove(config, rules, id, expected);
      }
      var _ :- UpdateConfig(c => RemoveProfile(c, id, expected));
      if cleanupSucceeds {
        return Ok(true);
      }
      var _ :- UpdateConfig(c => RestoreProfile(c, id, expected));
      return Ok(false);
    }
  }
}
