/** Which context and profile a directory resolves to. */
module Resolver {
  import opened Contracts
  import opened Layout
  import opened Metadata
  import opened Wrappers

  datatype Source = ExplicitProfile | ExplicitContext | DirectoryBinding | ActiveContext | DefaultContext

  datatype Error =
    | WrongProvider(id: ProfileId, wanted: Provider)
    | ProfileNotFound(missing: ProfileId)
    | NoSlot(context: string, unfilled: Provider)
    | ContextNotFound(name: string)
    | NothingConfigured

  datatype ResolvedContext = ResolvedContext(name: string, source: Source)

  datatype ResolvedProfile = ResolvedProfile(id: ProfileId, profile: Profile, context: Option<string>, source: Source)

  /** The deepest binding containing the directory; the last of equals, as `max_by_key` keeps it. */
  function Nearest(bindings: seq<Binding>, cwd: Path): Option<Binding> {
    if bindings == [] then None
    else
      var n := |bindings| - 1;
      var best, last := Nearest(bindings[..n], cwd), bindings[n];
      if !StartsWith(cwd, last.path) then best
      else if best.Some? && |best.value.path| > |last.path| then best
      else Some(last)
  }

  function ResolveContextAt(c: Config, current: Option<string>, cwd: Path): Result<ResolvedContext, Error> {
    var nearest := Nearest(c.bindings, cwd);
    if nearest.Some? then Ok(ResolvedContext(nearest.value.context, DirectoryBinding))
    else if current.Some? then
      if current.value in c.contexts then Ok(ResolvedContext(current.value, ActiveContext)) else Err(ContextNotFound(current.value))
    else if c.defaultContext.Some? then
      if c.defaultContext.value in c.contexts then Ok(ResolvedContext(c.defaultContext.value, DefaultContext))
      else Err(ContextNotFound(c.defaultContext.value))
    else Err(NothingConfigured)
  }

  function ResolveContext(c: Config, current: Option<string>, cwd: Path, wanted: Option<string>)
    : (r: Result<ResolvedContext, Error>)
    ensures r.Err? ==> r.error.ContextNotFound? || r.error.NothingConfigured?
  {
    if wanted.Some? then
      if wanted.value in c.contexts then Ok(ResolvedContext(wanted.value, ExplicitContext)) else Err(ContextNotFound(wanted.value))
    else ResolveContextAt(c, current, cwd)
  }

  function ResolveProfile(c: Config, current: Option<string>, cwd: Path, provider: Provider, context: Option<string>,
                          wanted: Option<ProfileId>): Result<ResolvedProfile, Error>
  {
    if wanted.Some? then
      if wanted.value.provider != provider then Err(WrongProvider(wanted.value, provider))
      else if wanted.value !in c.profiles then Err(ProfileNotFound(wanted.value))
      else Ok(ResolvedProfile(wanted.value, c.profiles[wanted.value], None, ExplicitProfile))
    else
      var resolved :- ResolveContext(c, current, cwd, context);
      if resolved.name !in c.contexts then Err(ContextNotFound(resolved.name))
      else
        var id := c.contexts[resolved.name].ProfileFor(provider);
        if id.None? then Err(NoSlot(resolved.name, provider))
        else if id.value !in c.profiles then Err(ProfileNotFound(id.value))
        else Ok(ResolvedProfile(id.value, c.profiles[id.value], Some(resolved.name), resolved.source))
  }

  // ---- The nearest binding ----

  /** A binding is nearest when it contains the directory and no containing binding is deeper. */
  ghost predicate IsNearest(bindings: seq<Binding>, cwd: Path, b: Binding) {
    && b in bindings && StartsWith(cwd, b.path)
    && forall o | o in bindings && StartsWith(cwd, o.path) :: |o.path| <= |b.path|
  }

  lemma {:induction false} NearestFound(bindings: seq<Binding>, cwd: Path)
    ensures Nearest(bindings, cwd).Some? ==> IsNearest(bindings, cwd, Nearest(bindings, cwd).value)
    ensures Nearest(bindings, cwd).None? ==> forall o | o in bindings :: !StartsWith(cwd, o.path)
  {
    if bindings != [] {
      var n := |bindings| - 1;
      NearestFound(bindings[..n], cwd);
      assert bindings == bindings[..n] + [bindings[n]];
    }
  }

  /** With distinct paths a binding resolves a directory exactly when it is the nearest, whatever the order of the list. */
  lemma NearestIffDeepest(bindings: seq<Binding>, cwd: Path, b: Binding)
    requires forall i, j | 0 <= i < j < |bindings| :: bindings[i].path != bindings[j].path
    ensures Nearest(bindings, cwd) == Some(b) <==> IsNearest(bindings, cwd, b)
  {
    NearestFound(bindings, cwd);
    if IsNearest(bindings, cwd, b) {
      var found := Nearest(bindings, cwd).value;
      assert found.path == cwd[..|found.path|] && b.path == cwd[..|b.path|];
      var i :| 0 <= i < |bindings| && bindings[i] == b;
      var j :| 0 <= j < |bindings| && bindings[j] == found;
      assert i == j;
    }
  }

  // ---- Which source decides ----

  ghost predicate BoundTo(bindings: seq<Binding>, cwd: Path, name: string) {
    exists b :: IsNearest(bindings, cwd, b) && b.context == name
  }

  /** What each source has to say about the context of a directory. */
  ghost predicate Offers(c: Config, current: Option<string>, cwd: Path, wanted: Option<string>, source: Source, name: string) {
    match source
    case ExplicitProfile => false
    case ExplicitContext => wanted == Some(name)
    case DirectoryBinding => BoundTo(c.bindings, cwd, name)
    case ActiveContext => current == Some(name)
    case DefaultContext => c.defaultContext == Some(name)
  }

  function Rank(source: Source): nat {
    match source
    case ExplicitProfile => 0
    case ExplicitContext => 1
    case DirectoryBinding => 2
    case ActiveContext => 3
    case DefaultContext => 4
  }

  /** The source offers this context, and no source before it offers any. */
  ghost predicate FirstOffer(c: Config, current: Option<string>, cwd: Path, wanted: Option<string>, source: Source, name: string) {
    && Offers(c, current, cwd, wanted, source, name)
    && forall s, n | Offers(c, current, cwd, wanted, s, n) :: Rank(source) <= Rank(s)
  }

  /** The nearest binding offers its context and nothing else does. */
  lemma BoundIffNearest(c: Config, rules: Rules, cwd: Path, name: string)
    requires Valid(c, rules)
    ensures BoundTo(c.bindings, cwd, name) <==>
            Nearest(c.bindings, cwd).Some? && Nearest(c.bindings, cwd).value.context == name
    ensures BoundTo(c.bindings, cwd, name) ==> name in c.contexts
  {
    hide ProfilesValid, ContextsValid, HeaderOk;
    NearestFound(c.bindings, cwd);
    if b :| IsNearest(c.bindings, cwd, b) && b.context == name {
      NearestIffDeepest(c.bindings, cwd, b);
    }
  }

  lemma FirstOfferIff(c: Config, rules: Rules, current: Option<string>, cwd: Path, wanted: Option<string>, source: Source,
                      name: string)
    requires Valid(c, rules)
    ensures var nearest := Nearest(c.bindings, cwd);
      FirstOffer(c, current, cwd, wanted, source, name) <==>
        match source
        case ExplicitProfile => false
        case ExplicitContext => wanted == Some(name)
        case DirectoryBinding => wanted.None? && nearest.Some? && nearest.value.context == name
        case ActiveContext => wanted.None? && nearest.None? && current == Some(name)
        case DefaultContext => wanted.None? && nearest.None? && current.None? && c.defaultContext == Some(name)
  {
    hide Valid, BoundTo;
    var nearest := Nearest(c.bindings, cwd);
    forall n
      ensures Offers(c, current, cwd, wanted, DirectoryBinding, n) <==> nearest.Some? && nearest.value.context == n
    {
      BoundIffNearest(c, rules, cwd, n);
    }
    if nearest.Some? { assert Offers(c, current, cwd, wanted, DirectoryBinding, nearest.value.context); }
    if wanted.Some? { assert Offers(c, current, cwd, wanted, ExplicitContext, wanted.value); }
    if current.Some? { assert Offers(c, current, cwd, wanted, ActiveContext, current.value); }
  }

  /** In valid metadata a context is resolved exactly when it exists and the first source to offer any offers it; an explicit
      name may be unknown, and nothing is configured exactly when no source offers any. */
  lemma ContextPrecedence(c: Config, rules: Rules, current: Option<string>, cwd: Path, wanted: Option<string>)
    requires Valid(c, rules) && StateValid(current, c)
    ensures var r := ResolveContext(c, current, cwd, wanted);
      && (forall source, name :: r == Ok(ResolvedContext(name, source)) <==>
            name in c.contexts && FirstOffer(c, current, cwd, wanted, source, name))
      && (forall name :: r == Err(ContextNotFound(name)) <==> wanted == Some(name) && name !in c.contexts)
      && (r == Err(NothingConfigured) <==> forall source, name :: !Offers(c, current, cwd, wanted, source, name))
  {
    hide FirstOffer, ProfilesValid, HeaderOk, BoundTo;
    var r, nearest := ResolveContext(c, current, cwd, wanted), Nearest(c.bindings, cwd);
    NearestFound(c.bindings, cwd);
    forall name
      ensures BoundTo(c.bindings, cwd, name) <==> nearest.Some? && nearest.value.context == name
    {
      BoundIffNearest(c, rules, cwd, name);
    }
    forall source, name
      ensures r == Ok(ResolvedContext(name, source)) <==> name in c.contexts && FirstOffer(c, current, cwd, wanted, source, name)
    {
      FirstOfferIff(c, rules, current, cwd, wanted, source, name);
    }
    if r != Err(NothingConfigured) {
      if nearest.Some? { assert Offers(c, current, cwd, wanted, DirectoryBinding, nearest.value.context); }
      if wanted.Some? { assert Offers(c, current, cwd, wanted, ExplicitContext, wanted.value); }
      if current.Some? { assert Offers(c, current, cwd, wanted, ActiveContext, current.value); }
      if c.defaultContext.Some? { assert Offers(c, current, cwd, wanted, DefaultContext, c.defaultContext.value); }
    }
  }

  /** The profile in a context's slot for a provider. */
  predicate Fills(c: Config, name: string, provider: Provider, id: ProfileId) {
    name in c.contexts && Some(id) == if provider == Claude then c.contexts[name].claude else c.contexts[name].codex
  }

  /** In valid metadata a directory resolves, for a provider, to the profile that fills its slot in the context the first source
      offers; it resolves to nothing exactly where that slot is empty or no source offers a context. */
  lemma ProfilePrecedence(c: Config, rules: Rules, current: Option<string>, cwd: Path, provider: Provider, wanted: Option<string>)
    requires Valid(c, rules) && StateValid(current, c)
    ensures var r := ResolveProfile(c, current, cwd, provider, wanted, None);
      && (forall id, profile, context, source :: r == Ok(ResolvedProfile(id, profile, context, source)) <==>
            && context.Some? && FirstOffer(c, current, cwd, wanted, source, context.value)
            && Fills(c, context.value, provider, id) && id in c.profiles && profile == c.profiles[id])
      && (r.Ok? ==> r.value.id.provider == provider)
      && (r.Err? ==>
            match r.error
            case NoSlot(name, p) =>
              p == provider && name in c.contexts && (forall id :: !Fills(c, name, provider, id))
              && exists source :: FirstOffer(c, current, cwd, wanted, source, name)
            case ContextNotFound(name) => wanted == Some(name) && name !in c.contexts
            case NothingConfigured => forall source, name :: !Offers(c, current, cwd, wanted, source, name)
            case _ => false)
  {
    hide FirstOffer, Offers, HeaderOk, BindingsValid, ResolveContext, ProfilesValid;
    ContextPrecedence(c, rules, current, cwd, wanted);
    var r, resolved := ResolveProfile(c, current, cwd, provider, wanted, None), ResolveContext(c, current, cwd, wanted);
    if resolved.Ok? {
      var ResolvedContext(name, source) := resolved.value;
      assert FirstOffer(c, current, cwd, wanted, source, name);
      assert ContextValid(c.profiles, c.contexts[name]);
      assert r.Ok? ==> Fills(c, name, provider, r.value.id);
    }
  }

  /** An explicit profile needs no context: it is returned when it exists and belongs to the provider. */
  lemma ExplicitProfileWins(c: Config, current: Option<string>, cwd: Path, provider: Provider, context: Option<string>,
                            id: ProfileId)
    ensures var r := ResolveProfile(c, current, cwd, provider, context, Some(id));
      && (r.Ok? <==> id.provider == provider && id in c.profiles)
      && (r.Ok? ==> r.value == ResolvedProfile(id, c.profiles[id], None, ExplicitProfile))
      && (r.Err? ==> r.error == if id.provider == provider then ProfileNotFound(id) else WrongProvider(id, provider))
  {
  }
}
