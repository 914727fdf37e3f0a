/** What each metadata change does to the entries it names, what it leaves alone, and what it objects to. */
module MetadataChanges {
  import opened CaseFolding
  import opened Contracts
  import opened Layout
  import opened Management
  import opened Metadata
  import opened Wrappers

  /** Whether the entry exists is up to `ids`; every other profile entry is as before. */
  ghost predicate OtherProfilesKept(c: Config, c': Config, ids: set<ProfileId>) {
    forall o | o !in ids :: (o in c.profiles <==> o in c'.profiles) && (o in c.profiles ==> c'.profiles[o] == c.profiles[o])
  }

  /** Nothing but profile entries and retired identities differs. */
  predicate OnlyProfiles(c: Config, c': Config) {
    && c'.version == c.version && c'.installationUid == c.installationUid && c'.defaultContext == c.defaultContext
    && c'.telemetry == c.telemetry && c'.binaries == c.binaries && c'.contexts == c.contexts && c'.bindings == c.bindings
  }

  // ---- Editing ----

  /** An edit succeeds exactly on the entry its caller has seen, and replaces nothing but that entry's details. */
  lemma EditAnswer(c: Config, id: ProfileId, expected: Profile, details: string)
    ensures match EditProfile(c, id, expected, details)
      case Ok(c') =>
        && id in c.profiles && c.profiles[id] == expected
        && id in c'.profiles && c'.profiles[id].details == details && c'.profiles[id].provider == expected.provider
        && c'.profiles[id].uid == expected.uid && c'.profiles[id].stateDir == expected.stateDir
        && OtherProfilesKept(c, c', {id}) && OnlyProfiles(c, c') && c'.retired == c.retired
      case Err(error) => error == Refusal.Busy && !(id in c.profiles && c.profiles[id] == expected)
  {
  }

  // ---- Adding ----

  predicate UsesIdentity(c: Config, uid: string) {
    uid in c.retired || exists o | o in c.profiles :: c.profiles[o].uid == uid
  }

  /** An addition succeeds exactly under a name nobody has up to case, for an identity never used; it stores the profile as given
      and changes nothing else. */
  lemma AddAnswer(c: Config, id: ProfileId, p: Profile)
    ensures match AddProfile(c, id, p)
      case Ok(c') =>
        && (forall o | o in c.profiles :: !o.Aliases(id)) && !UsesIdentity(c, p.uid)
        && id !in c.profiles && id in c'.profiles && c'.profiles[id] == p
        && OtherProfilesKept(c, c', {id}) && OnlyProfiles(c, c') && c'.retired == c.retired
      case Err(error) =>
        if exists o | o in c.profiles :: o.Aliases(id) then error == Exists else error == Refusal.Busy && UsesIdentity(c, p.uid)
  {
    assert id.Aliases(id);
  }

  // ---- Removing and restoring ----

  predicate Named(c: Config, id: ProfileId) {
    exists n | n in c.contexts :: c.contexts[n].claude == Some(id) || c.contexts[n].codex == Some(id)
  }

  /** A removal succeeds exactly on the entry its caller has seen, once no context names it; the entry goes, its identity is
      retired, and nothing else changes. */
  lemma RemoveAnswer(c: Config, id: ProfileId, expected: Profile)
    ensures match RemoveProfile(c, id, expected)
      case Ok(c') =>
        && id in c.profiles && c.profiles[id] == expected && !Named(c, id)
        && id !in c'.profiles && OtherProfilesKept(c, c', {id}) && OnlyProfiles(c, c')
        && forall uid :: uid in c'.retired <==> uid in c.retired || uid == expected.uid
      case Err(error) =>
        if id in c.profiles && c.profiles[id] == expected then error == Referenced && Named(c, id) else error == Refusal.Busy
  {
  }

  /** A restoration succeeds exactly for a retired identity whose name is free; it brings back the entry and unretires it. */
  lemma RestoreAnswer(c: Config, id: ProfileId, expected: Profile)
    ensures match RestoreProfile(c, id, expected)
      case Ok(c') =>
        && id !in c.profiles && expected.uid in c.retired
        && id in c'.profiles && c'.profiles[id] == expected && OtherProfilesKept(c, c', {id}) && OnlyProfiles(c, c')
        && forall uid :: uid in c'.retired <==> uid in c.retired && uid != expected.uid
      case Err(error) => error == Refusal.Busy && (id in c.profiles || expected.uid !in c.retired)
  {
  }

  // ---- Renaming ----

  /** A slot names the profile under its new name, and any other profile as before. */
  predicate Follows(slot: Option<ProfileId>, slot': Option<ProfileId>, from: ProfileId, to: ProfileId) {
    (slot == Some(from) ==> slot' == Some(to)) && (slot != Some(from) ==> slot' == slot)
  }

  /** A profile is renamed exactly when its caller has seen it and no other profile has the new name up to case; the entry moves
      with every slot that names it, and nothing else changes. */
  lemma RenameProfileAnswer(c: Config, from: ProfileId, newName: string, expected: Profile)
    ensures var to := ProfileId(from.provider, newName);
      match RenameProfile(c, from, newName, expected)
      case Ok(c') =>
        && from in c.profiles && c.profiles[from] == expected
        && (to != from ==> from !in c'.profiles && forall o | o in c.profiles && o != from :: !o.Aliases(to))
        && to in c'.profiles && c'.profiles[to] == expected && OtherProfilesKept(c, c', {from, to})
        && OnlyProfiles(c, c'.(contexts := c.contexts)) && c'.retired == c.retired && c'.contexts.Keys == c.contexts.Keys
        && (forall n | n in c.contexts ::
              && Follows(c.contexts[n].claude, c'.contexts[n].claude, from, to)
              && Follows(c.contexts[n].codex, c'.contexts[n].codex, from, to))
      case Err(error) =>
        if from in c.profiles && c.profiles[from] == expected then
          error == Exists && exists o | o in c.profiles && o != from :: o.Aliases(to)
        else error == Refusal.Busy
  {
    var to := ProfileId(from.provider, newName);
    assert to.Aliases(to);
  }

  /** A context is renamed exactly when its caller has seen it, it is not active and the new name is free; its slots move as they
      are, with the default and every binding that names it, and nothing else changes. */
  lemma RenameContextAnswer(c: Config, current: Option<string>, from: string, to: string, expected: Context)
    ensures match RenameContext(c, current, from, to, expected)
      case Ok(c') =>
        && from in c.contexts && c.contexts[from] == expected
        && (to != from ==> current != Some(from) && to !in c.contexts && from !in c'.contexts)
        && to in c'.contexts && c'.contexts[to] == expected
        && (forall n | n != from && n != to ::
              (n in c.contexts <==> n in c'.contexts) && (n in c.contexts ==> c'.contexts[n] == c.contexts[n]))
        && (c.defaultContext == Some(from) ==> c'.defaultContext == Some(to))
        && (c.defaultContext != Some(from) ==> c'.defaultContext == c.defaultContext)
        && |c'.bindings| == |c.bindings|
        && (forall i | 0 <= i < |c.bindings| ::
              && c'.bindings[i].path == c.bindings[i].path
              && c'.bindings[i].context == if c.bindings[i].context == from then to else c.bindings[i].context)
        && OnlyProfiles(c, c'.(contexts := c.contexts, defaultContext := c.defaultContext, bindings := c.bindings))
        && c'.profiles == c.profiles && c'.retired == c.retired
      case Err(error) =>
        if from !in c.contexts || c.contexts[from] != expected then error == Refusal.Busy
        else if current == Some(from) then error == ActiveContextInUse && to != from
        else error == Exists && to in c.contexts && to != from
  {
  }
}
