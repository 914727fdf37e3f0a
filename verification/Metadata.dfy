/** The metadata file: profiles, contexts and bindings, and what makes them valid. */
module Metadata {
  import opened CaseFolding
  import opened Contracts
  import opened Layout
  import opened Wrappers

  const SCHEMA_VERSION := 2

  datatype ProfileId = ProfileId(provider: Provider, name: string) {
    /** Equal names up to ASCII case, for one provider. */
    predicate Aliases(other: ProfileId) {
      provider == other.provider && Lowered(name) == Lowered(other.name)
    }
  }

  /** `details` stands for the fields whose checks concern this profile alone. */
  datatype Profile = Profile(provider: Provider, uid: string, stateDir: Path, details: string)

  datatype Context = Context(claude: Option<ProfileId>, codex: Option<ProfileId>) {
    function ProfileFor(p: Provider): Option<ProfileId> {
      match p
      case Claude => claude
      case Codex => codex
    }
  }

  datatype Binding = Binding(path: Path, context: string)

  datatype Config = Config(
    version: nat, installationUid: string, defaultContext: Option<string>, telemetry: bool, binaries: (string, string),
    profiles: map<ProfileId, Profile>, retired: set<string>, contexts: map<string, Context>, bindings: seq<Binding>)

  /** The checks that look at one value alone, and how a profile's immutable identity is derived. */
  datatype Rules = Rules(
    uidFor: (string, Provider, Path) -> Option<string>, binaryOk: string -> bool, profileOk: Profile -> bool,
    stateDirOk: (Provider, Path) -> bool, bindingPathOk: Path -> bool)

  predicate HeaderOk(c: Config, rules: Rules) {
    c.version == SCHEMA_VERSION && !c.telemetry && rules.binaryOk(c.binaries.0) && rules.binaryOk(c.binaries.1)
  }

  /** What one profile must satisfy on its own. */
  predicate ProfileValid(c: Config, rules: Rules, id: ProfileId)
    requires id in c.profiles
  {
    var p := c.profiles[id];
    && id.provider == p.provider && rules.stateDirOk(p.provider, p.stateDir)
    && rules.uidFor(c.installationUid, id.provider, p.stateDir) == Some(p.uid)
    && p.uid !in c.retired && rules.profileOk(p)
  }

  /** What two different profiles must not share. */
  predicate Separate(c: Config, a: ProfileId, b: ProfileId)
    requires a in c.profiles && b in c.profiles
  {
    && !a.Aliases(b) && c.profiles[a].uid != c.profiles[b].uid
    && LoweredPath(c.profiles[a].stateDir) != LoweredPath(c.profiles[b].stateDir)
  }

  predicate SlotValid(profiles: map<ProfileId, Profile>, slot: Option<ProfileId>, provider: Provider) {
    slot.Some? ==> slot.value.provider == provider && slot.value in profiles
  }

  predicate ContextValid(profiles: map<ProfileId, Profile>, x: Context) {
    && (x.claude.Some? || x.codex.Some?)
    && SlotValid(profiles, x.claude, Claude) && SlotValid(profiles, x.codex, Codex)
  }

  predicate ProfilesValid(c: Config, rules: Rules) {
    && (forall id | id in c.profiles :: ProfileValid(c, rules, id))
    && forall a, b | a in c.profiles && b in c.profiles && a != b :: Separate(c, a, b)
  }

  predicate ContextsValid(c: Config) {
    && (forall n | n in c.contexts :: ContextValid(c.profiles, c.contexts[n]))
    && (c.defaultContext.Some? ==> c.defaultContext.value in c.contexts)
  }

  predicate BindingsValid(c: Config, rules: Rules) {
    && (forall b | b in c.bindings :: rules.bindingPathOk(b.path) && b.context in c.contexts)
    && forall i, j | 0 <= i < j < |c.bindings| :: c.bindings[i].path != c.bindings[j].path
  }

  predicate Valid(c: Config, rules: Rules) {
    HeaderOk(c, rules) && ProfilesValid(c, rules) && ContextsValid(c) && BindingsValid(c, rules)
  }

  /** `current` is the active context, kept in the state file. */
  predicate StateValid(current: Option<string>, c: Config) {
    current.Some? ==> current.value in c.contexts
  }

  // ---- Validation as the loops that perform it ----

  ghost function FoldedNames(ids: set<ProfileId>): set<(Provider, string)> {
    set id | id in ids :: (id.provider, Lowered(id.name))
  }

  ghost function Uids(c: Config, ids: set<ProfileId>): set<string>
    requires ids <= c.profiles.Keys
  {
    set id | id in ids :: c.profiles[id].uid
  }

  ghost function StateDirs(c: Config, ids: set<ProfileId>): set<Path>
    requires ids <= c.profiles.Keys
  {
    set id | id in ids :: LoweredPath(c.profiles[id].stateDir)
  }

  /** These profiles are valid and pairwise separate. */
  ghost predicate ValidAmong(c: Config, rules: Rules, ids: set<ProfileId>)
    requires ids <= c.profiles.Keys
  {
    && (forall id | id in ids :: ProfileValid(c, rules, id))
    && forall a, b | a in ids && b in ids && a != b :: Separate(c, a, b)
  }

  /** One more profile keeps the checked ones valid exactly when it is valid itself and clashes with none of them. */
  lemma OneMore(c: Config, rules: Rules, ids: set<ProfileId>, id: ProfileId)
    requires ids <= c.profiles.Keys && id in c.profiles && id !in ids && ValidAmong(c, rules, ids)
    ensures var p := c.profiles[id];
      ValidAmong(c, rules, ids + {id}) ==
      ((id.provider, Lowered(id.name)) !in FoldedNames(ids) && LoweredPath(p.stateDir) !in StateDirs(c, ids)
       && p.uid !in Uids(c, ids) && ProfileValid(c, rules, id))
    ensures FoldedNames(ids + {id}) == FoldedNames(ids) + {(id.provider, Lowered(id.name))}
    ensures Uids(c, ids + {id}) == Uids(c, ids) + {c.profiles[id].uid}
    ensures StateDirs(c, ids + {id}) == StateDirs(c, ids) + {LoweredPath(c.profiles[id].stateDir)}
  {
    hide ProfileValid;
    var p := c.profiles[id];
    if ValidAmong(c, rules, ids + {id}) {
      forall o | o in ids
        ensures Separate(c, o, id)
      {
      }
    }
  }

  lemma AmongFewer(c: Config, rules: Rules, ids: set<ProfileId>)
    requires ids <= c.profiles.Keys && ProfilesValid(c, rules)
    ensures ValidAmong(c, rules, ids)
  {
  }

  method ValidateProfiles(c: Config, rules: Rules) returns (ok: bool)
    ensures ok == ProfilesValid(c, rules)
  {
    hide Separate, ProfileValid, ProfilesValid, ValidAmong, FoldedNames, Uids, StateDirs, Lowered, LoweredPath;
    var left := c.profiles.Keys;
    ghost var seen: set<ProfileId> := {};
    var names: set<(Provider, string)>, uids: set<string>, stateDirs: set<Path> := {}, {}, {};
    NoneYet(c, rules);
    while left != {}
      invariant left + seen == c.profiles.Keys && left !! seen && ValidAmong(c, rules, seen)
      invariant names == FoldedNames(seen) && uids == Uids(c, seen) && stateDirs == StateDirs(c, seen)
      decreases |left|
    {
      var id :| id in left;
      var p := c.profiles[id];
      OneMore(c, rules, seen, id);
      if ProfilesValid(c, rules) {
        AmongFewer(c, rules, seen + {id});
      }
      OwnChecks(c, rules, id);
      if (id.provider, Lowered(id.name)) in names {
        return false;
      }
      if id.provider != p.provider || !rules.stateDirOk(p.provider, p.stateDir) {
        return false;
      }
      if LoweredPath(p.stateDir) in stateDirs {
        return false;
      }
      if rules.uidFor(c.installationUid, id.provider, p.stateDir) != Some(p.uid) {
        return false;
      }
      if p.uid in uids || p.uid in c.retired {
        return false;
      }
      if !rules.profileOk(p) {
        return false;
      }
      names := names + {(id.provider, Lowered(id.name))};
      uids := uids + {p.uid};
      stateDirs := stateDirs + {LoweredPath(p.stateDir)};
      left, seen := left - {id}, seen + {id};
    }
    WholeIsValid(c, rules, seen);
    return true;
  }

  lemma OwnChecks(c: Config, rules: Rules, id: ProfileId)
    requires id in c.profiles
    ensures var p := c.profiles[id];
      ProfileValid(c, rules, id) <==>
        !(id.provider != p.provider || !rules.stateDirOk(p.provider, p.stateDir))
        && rules.uidFor(c.installationUid, id.provider, p.stateDir) == Some(p.uid) && p.uid !in c.retired && rules.profileOk(p)
  {
  }

  lemma NoneYet(c: Config, rules: Rules)
    ensures ValidAmong(c, rules, {}) && FoldedNames({}) == {} && Uids(c, {}) == {} && StateDirs(c, {}) == {}
  {
  }

  lemma WholeIsValid(c: Config, rules: Rules, ids: set<ProfileId>)
    requires ids == c.profiles.Keys && ValidAmong(c, rules, ids)
    ensures ProfilesValid(c, rules)
  {
  }

  method ValidateBindings(c: Config, rules: Rules) returns (ok: bool)
    ensures ok == BindingsValid(c, rules)
  {
    var paths: set<Path> := {};
    for i := 0 to |c.bindings|
      invariant forall b | b in c.bindings[..i] :: rules.bindingPathOk(b.path) && b.context in c.contexts
      invariant paths == set k | 0 <= k < i :: c.bindings[k].path
      invariant forall k, l | 0 <= k < l < i :: c.bindings[k].path != c.bindings[l].path
    {
      var b := c.bindings[i];
      if !rules.bindingPathOk(b.path) {
        return false;
      }
      if b.path in paths {
        return false;
      }
      if b.context !in c.contexts {
        return false;
      }
      assert c.bindings[..i + 1] == c.bindings[..i] + [b];
      paths := paths + {b.path};
    }
    assert c.bindings[..|c.bindings|] == c.bindings;
    return true;
  }

  method ValidateContexts(c: Config) returns (ok: bool)
    ensures ok == ContextsValid(c)
  {
    var left := c.contexts.Keys;
    while left != {}
      invariant left <= c.contexts.Keys
      invariant forall n | n in c.contexts && n !in left :: ContextValid(c.profiles, c.contexts[n])
      decreases |left|
    {
      var n :| n in left;
      var x := c.contexts[n];
      if x.claude.None? && x.codex.None? {
        return false;
      }
      if x.claude.Some? && (x.claude.value.provider != Claude || x.claude.value !in c.profiles) {
        return false;
      }
      if x.codex.Some? && (x.codex.value.provider != Codex || x.codex.value !in c.profiles) {
        return false;
      }
      left := left - {n};
    }
    return c.defaultContext.Some? ==> c.defaultContext.value in c.contexts;
  }

  method Validate(c: Config, rules: Rules) returns (ok: bool)
    ensures ok == Valid(c, rules)
  {
    hide ProfilesValid, ContextsValid, BindingsValid;
    if c.version != SCHEMA_VERSION || c.telemetry {
      return false;
    }
    if !rules.binaryOk(c.binaries.0) || !rules.binaryOk(c.binaries.1) {
      return false;
    }
    var profiles := ValidateProfiles(c, rules);
    if !profiles {
      return false;
    }
    var contexts := ValidateContexts(c);
    if !contexts {
      return false;
    }
    ok := ValidateBindings(c, rules);
  }
}
