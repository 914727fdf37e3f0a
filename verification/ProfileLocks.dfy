/** Advisory reader-writer locks on profile files, taken without waiting. */
module ProfileLocks {
  import opened CaseFolding
  import opened Contracts
  import opened Metadata

  /** The three lock files of a profile: its name up to case, its lifecycle, and its vendor home. */
  datatype Lock = Alias(provider: Provider, folded: string) | Lifecycle(uid: string) | Resource(uid: string)

  function AliasOf(id: ProfileId): Lock {
    Alias(id.provider, Lowered(id.name))
  }

  datatype Grant = Grant(lock: Lock, owner: nat, exclusive: bool)

  datatype Need = Need(lock: Lock, exclusive: bool)

  /** No other owner stands in the way. */
  predicate Free(grants: set<Grant>, lock: Lock, owner: nat, exclusive: bool) {
    forall g | g in grants && g.lock == lock && g.owner != owner :: !g.exclusive && !exclusive
  }

  /** Different owners share a lock only when neither holds it exclusively. */
  predicate Exclusion(grants: set<Grant>) {
    forall g, h | g in grants && h in grants && g.lock == h.lock && g.owner != h.owner :: !g.exclusive && !h.exclusive
  }

  function Without(grants: set<Grant>, lock: Lock, owner: nat): set<Grant> {
    set g | g in grants && !(g.lock == lock && g.owner == owner)
  }

  function Released(grants: set<Grant>, owner: nat): set<Grant> {
    set g | g in grants && g.owner != owner
  }

  /** A lock is free for a mode exactly when granting it, in place of what the owner holds on it, keeps locks exclusive. */
  lemma FreeIff(grants: set<Grant>, lock: Lock, owner: nat, exclusive: bool)
    requires Exclusion(grants)
    ensures Free(grants, lock, owner, exclusive) <==> Exclusion(Without(grants, lock, owner) + {Grant(lock, owner, exclusive)})
  {
    var mine, after := Grant(lock, owner, exclusive), Without(grants, lock, owner) + {Grant(lock, owner, exclusive)};
    if Exclusion(after) {
      forall g | g in grants && g.lock == lock && g.owner != owner
        ensures !g.exclusive && !exclusive
      {
        assert g in after && mine in after;
      }
    }
  }

  /** Requests merged per lock file: exclusive as soon as one request is. */
  function Merged(requests: seq<Need>): (m: map<Lock, bool>)
    ensures forall l :: l in m <==> exists n | n in requests :: n.lock == l
    ensures forall l | l in m :: m[l] <==> Need(l, true) in requests
  {
    if requests == [] then map[]
    else
      var n, before := requests[|requests| - 1], Merged(requests[..|requests| - 1]);
      assert requests == requests[..|requests| - 1] + [n];
      before[n.lock := n.exclusive || (n.lock in before && before[n.lock])]
  }

  function GrantsOf(m: map<Lock, bool>, owner: nat): set<Grant> {
    set l | l in m :: Grant(l, owner, m[l])
  }

  datatype Conversion = Converted | Busy(kept: bool)

  class LockTable {
    var grants: set<Grant>

    constructor ()
      ensures grants == {}
    {
      grants := {};
    }

    method TryAcquire(lock: Lock, owner: nat, exclusive: bool) returns (acquired: bool)
      requires Exclusion(grants) && forall g | g in grants && g.owner == owner :: g.lock != lock
      modifies this
      ensures Exclusion(grants)
      ensures acquired == Free(old(grants), lock, owner, exclusive)
      ensures grants == if acquired then old(grants) + {Grant(lock, owner, exclusive)} else old(grants)
    {
      acquired := Free(grants, lock, owner, exclusive);
      if acquired {
        grants := grants + {Grant(lock, owner, exclusive)};
      }
    }

    /** Change the mode of a held lock; contention may lose the old mode, and `keeps` says whether it does. */
    method TryConvert(lock: Lock, owner: nat, exclusive: bool, keeps: bool) returns (r: Conversion)
      requires Exclusion(grants)
      modifies this
      ensures Exclusion(grants)
      ensures r.Converted? <==> Free(old(grants), lock, owner, exclusive)
      ensures r.Converted? ==> grants == Without(old(grants), lock, owner) + {Grant(lock, owner, exclusive)}
      ensures r.Busy? ==> r.kept == keeps
      ensures r.Busy? ==> grants == if r.kept then old(grants) else Without(old(grants), lock, owner)
    {
      if Free(grants, lock, owner, exclusive) {
        grants := Without(grants, lock, owner) + {Grant(lock, owner, exclusive)};
        return Converted;
      }
      if !keeps {
        grants := Without(grants, lock, owner);
      }
      return Busy(keeps);
    }

    /** Take every requested lock, or none: the first refusal lets go of all locks taken so far. */
    method AcquireOrdered(requests: seq<Need>, owner: nat) returns (acquired: bool)
      requires Exclusion(grants) && forall g | g in grants :: g.owner != owner
      modifies this
      ensures Exclusion(grants)
      ensures acquired <==> forall l | l in Merged(requests) :: Free(old(grants), l, owner, Merged(requests)[l])
      ensures grants == if acquired then old(grants) + GrantsOf(Merged(requests), owner) else old(grants)
    {
      hide Exclusion, Free, GrantsOf, Merged, Taken, Released;
      var ordered := MergeRequests(requests);
      ghost var before := grants;
      var left := ordered.Keys;
      NothingTaken(ordered, owner);
      while left != {}
        invariant left <= ordered.Keys && Exclusion(grants)
        invariant grants == before + GrantsOf(Taken(ordered, left), owner)
        invariant forall l | l in ordered && l !in left :: Free(before, l, owner, ordered[l])
        decreases |left|
      {
        var lock :| lock in left;
        OthersOnly(before, ordered, left, owner, lock);
        var got := TryAcquire(lock, owner, ordered[lock]);
        if !got {
          grants := Released(grants, owner);
          ReleasedTaken(before, Taken(ordered, left), owner);
          return false;
        }
        OneGrantMore(before, ordered, left, owner, lock);
        left := left - {lock};
      }
      AllTaken(ordered);
      return true;
    }
  }

  /** Merge the requests for each lock file. */
  method MergeRequests(requests: seq<Need>) returns (ordered: map<Lock, bool>)
    ensures ordered == Merged(requests)
  {
    hide Merged;
    ordered := map[];
    NoRequests();
    for i := 0 to |requests|
      invariant ordered == Merged(requests[..i])
    {
      var n := requests[i];
      assert requests[..i + 1] == requests[..i] + [n];
      OneRequestMore(requests[..i], n);
      ordered := ordered[n.lock := n.exclusive || (n.lock in ordered && ordered[n.lock])];
    }
    assert requests[..|requests|] == requests;
  }

  lemma NoRequests()
    ensures Merged([]) == map[]
  {
  }

  lemma OneRequestMore(requests: seq<Need>, n: Need)
    ensures var m := Merged(requests);
      Merged(requests + [n]) == m[n.lock := n.exclusive || (n.lock in m && m[n.lock])]
  {
    assert (requests + [n])[..|requests|] == requests;
  }

  /** The part of the requests no longer left to take. */
  ghost function Taken(ordered: map<Lock, bool>, left: set<Lock>): map<Lock, bool> {
    map l | l in ordered && l !in left :: ordered[l]
  }

  lemma NothingTaken(ordered: map<Lock, bool>, owner: nat)
    ensures GrantsOf(Taken(ordered, ordered.Keys), owner) == {}
    ensures forall grants: set<Grant> :: grants + {} == grants
  {
  }

  lemma AllTaken(ordered: map<Lock, bool>)
    ensures Taken(ordered, {}) == ordered
  {
  }

  lemma ReleasedTaken(before: set<Grant>, taken: map<Lock, bool>, owner: nat)
    requires forall g | g in before :: g.owner != owner
    ensures Released(before + GrantsOf(taken, owner), owner) == before
    ensures Exclusion(before + GrantsOf(taken, owner)) ==> Exclusion(before)
  {
  }

  lemma OthersOnly(before: set<Grant>, ordered: map<Lock, bool>, left: set<Lock>, owner: nat, lock: Lock)
    requires lock in left && lock in ordered && forall g | g in before :: g.owner != owner
    ensures var grants := before + GrantsOf(Taken(ordered, left), owner);
      && Free(grants, lock, owner, ordered[lock]) == Free(before, lock, owner, ordered[lock])
      && forall g | g in grants && g.owner == owner :: g.lock != lock
  {
  }

  lemma OneGrantMore(before: set<Grant>, ordered: map<Lock, bool>, left: set<Lock>, owner: nat, lock: Lock)
    requires lock in left && left <= ordered.Keys
    ensures before + GrantsOf(Taken(ordered, left - {lock}), owner)
            == before + GrantsOf(Taken(ordered, left), owner) + {Grant(lock, owner, ordered[lock])}
  {
    var taken, more := Taken(ordered, left), Taken(ordered, left - {lock});
    assert more == taken[lock := ordered[lock]];
    assert Grant(lock, owner, more[lock]) in GrantsOf(more, owner);
    forall l | l in taken
      ensures Grant(l, owner, taken[l]) in GrantsOf(more, owner)
    {
      assert more[l] == taken[l] && l in more;
    }
  }
}
