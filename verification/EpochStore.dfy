/** The crypto provider's handle table and the multi-epoch decryptor that owns some of its handles. */
module EpochStore {
  import opened Collections

  type Handle = nat
  type Secret = nat       // which hybrid key pair
  type SigningKey = nat   // which usage-signing key

  /** `epoch-{ms}-{random}`. */
  datatype EpochId = EpochId(createdMs: nat, suffix: nat)

  /** An epoch's validity window in milliseconds, the key pair it publishes, and its own usage key. */
  datatype Epoch = Epoch(id: EpochId, notBefore: nat, notAfter: nat, hybrid: Secret, handle: Option<Handle>,
                         usageKey: SigningKey)

  /** Epochs other than the current one whose overlap grace is over. */
  function Retired(epochs: map<EpochId, Epoch>, current: EpochId, now: nat, grace: nat): set<EpochId> {
    set id | id in epochs && id != current && now > epochs[id].notAfter + grace
  }

  function HandlesOf(epochs: map<EpochId, Epoch>, ids: set<EpochId>): set<Handle> {
    set id | id in ids && id in epochs && epochs[id].handle.Some? :: epochs[id].handle.value
  }

  /** The epoch a request names, else the current one. */
  function Requested(current: EpochId, named: Option<EpochId>): EpochId {
    named.GetOr(current)
  }

  function ResolveHandle(epochs: map<EpochId, Epoch>, current: EpochId, named: Option<EpochId>): Option<Handle> {
    var id := Requested(current, named);
    if id in epochs then epochs[id].handle
    else if current in epochs then epochs[current].handle
    else None
  }

  function ResolveUsageKey(epochs: map<EpochId, Epoch>, current: EpochId, named: Option<EpochId>): Option<SigningKey> {
    var id := Requested(current, named);
    if id in epochs then Some(epochs[id].usageKey) else None
  }

  /** Every epoch is filed under its own id and owns a registered handle for the key pair it published. */
  ghost predicate Backed(epochs: map<EpochId, Epoch>, engines: map<Handle, Secret>) {
    && (forall id :: id in epochs ==> epochs[id].id == id)
    && (forall id :: id in epochs && epochs[id].handle.Some? ==>
          epochs[id].handle.value in engines && engines[epochs[id].handle.value] == epochs[id].hybrid)
    && (forall i, j :: i in epochs && j in epochs && i != j && epochs[i].handle.Some? ==>
          epochs[i].handle != epochs[j].handle)
  }

  /** Dropping retired epochs and freeing exactly their handles keeps every remaining epoch backed. */
  lemma PruneKeepsBacked(epochs: map<EpochId, Epoch>, engines: map<Handle, Secret>, gone: set<EpochId>)
    requires Backed(epochs, engines)
    ensures Backed(epochs - gone, engines - HandlesOf(epochs, gone))
  {
  }

  lemma AddKeepsBacked(epochs: map<EpochId, Epoch>, engines: map<Handle, Secret>, epoch: Epoch)
    requires Backed(epochs, engines)
    requires epoch.handle.Some? ==> epoch.handle.value in engines && engines[epoch.handle.value] == epoch.hybrid
    requires forall id :: id in epochs && id != epoch.id ==> epochs[id].handle.None? || epochs[id].handle != epoch.handle
    ensures Backed(epochs[epoch.id := epoch], engines)
  {
  }

  class RealCryptoProvider {
    var nextHandle: Handle
    var engines: map<Handle, Secret>
    var nextSession: nat
    var responses: map<nat, Handle>

    ghost predicate Valid()
      reads this
    {
      && (forall h :: h in engines ==> h < nextHandle)
      && (forall r :: r in responses ==> r < nextSession)
    }

    constructor ()
      ensures Valid() && engines == map[] && responses == map[] && nextHandle == 1 && nextSession == 1
    {
      nextHandle, engines, nextSession, responses := 1, map[], 1, map[];
    }

    /** A handle is never issued twice. */
    method RegisterSecret(secret: Secret) returns (handle: Handle)
      requires Valid()
      modifies this`nextHandle, this`engines
      ensures Valid() && handle == old(nextHandle) && nextHandle == handle + 1 && handle !in old(engines)
      ensures engines == old(engines)[handle := secret]
    {
      handle := nextHandle;
      nextHandle := nextHandle + 1;
      engines := engines[handle := secret];
    }

    method FreeEngine(handle: Handle)
      requires Valid()
      modifies this`engines
      ensures Valid() && engines == old(engines) - {handle}
    {
      engines := engines - {handle};
    }

    /**
     * A response session opens exactly on a registered handle with a usable request (`ok`: an
     * envelope that converts and carries a client share), under a number never used before.
     */
    method BeginResponse(handle: Handle, ok: bool) returns (session: Option<nat>)
      requires Valid()
      modifies this`nextSession, this`responses
      ensures Valid()
      ensures session.Some? <==> handle in engines && ok
      ensures session.Some? ==> session.value == old(nextSession) && session.value !in old(responses)
                                && responses == old(responses)[session.value := handle]
      ensures session.None? ==> responses == old(responses) && nextSession == old(nextSession)
    {
      if handle !in engines || !ok {
        return None;
      }
      session := Some(nextSession);
      nextSession := nextSession + 1;
      responses := responses[session.value := handle];
    }

    method FreeResponse(session: nat)
      requires Valid()
      modifies this`responses
      ensures Valid() && responses == old(responses) - {session}
    {
      responses := responses - {session};
    }
  }

  class RotatingEpochDecryptor {
    const overlapGraceMs: nat
    const provider: RealCryptoProvider
    var epochs: map<EpochId, Epoch>
    var current: EpochId

    ghost predicate Valid()
      reads this, provider
    {
      provider.Valid() && current in epochs && Backed(epochs, provider.engines)
    }

    constructor (initial: Epoch, overlapGraceMs: nat, provider: RealCryptoProvider)
      requires provider.Valid()
      requires initial.handle.Some? ==>
                 initial.handle.value in provider.engines && provider.engines[initial.handle.value] == initial.hybrid
      ensures Valid() && epochs == map[initial.id := initial] && current == initial.id
      ensures this.overlapGraceMs == overlapGraceMs && this.provider == provider
    {
      this.overlapGraceMs, this.provider := overlapGraceMs, provider;
      epochs, current := map[initial.id := initial], initial.id;
    }

    method AddEpoch(epoch: Epoch)
      requires Valid()
      requires epoch.handle.Some? ==>
                 epoch.handle.value in provider.engines && provider.engines[epoch.handle.value] == epoch.hybrid
      requires forall id :: id in epochs && id != epoch.id ==> epochs[id].handle.None? || epochs[id].handle != epoch.handle
      modifies this`epochs, this`current
      ensures Valid() && epochs == old(epochs)[epoch.id := epoch] && current == epoch.id
    {
      AddKeepsBacked(epochs, provider.engines, epoch);
      epochs := epochs[epoch.id := epoch];
      current := epoch.id;
    }

    /** Removes exactly the non-current epochs past `notAfter + grace` and frees exactly their handles. */
    method PruneRetired(now: nat, graceOverride: Option<nat>)
      requires Valid()
      modifies this`epochs, provider`engines
      ensures Valid() && current == old(current)
      ensures forall id :: id in old(epochs) ==>
                (id in epochs <==> id == current || now <= old(epochs)[id].notAfter + graceOverride.GetOr(overlapGraceMs))
      ensures forall id :: id in epochs ==> id in old(epochs) && epochs[id] == old(epochs)[id]
      ensures
        var gone := Retired(old(epochs), current, now, graceOverride.GetOr(overlapGraceMs));
        epochs == old(epochs) - gone && provider.engines == old(provider.engines) - HandlesOf(old(epochs), gone)
    {
      var retired := Retired(epochs, current, now, graceOverride.GetOr(overlapGraceMs));
      PruneKeepsBacked(epochs, provider.engines, retired);
      DisposeAll(retired);
    }

    /** Remove the given epochs one by one, freeing the handle of each. */
    method DisposeAll(ids: set<EpochId>)
      requires provider.Valid() && ids <= epochs.Keys
      modifies this`epochs, provider`engines
      ensures provider.Valid() && epochs == old(epochs) - ids
      ensures provider.engines == old(provider.engines) - HandlesOf(old(epochs), ids)
    {
      ghost var epochs0, engines0 := epochs, provider.engines;
      var left := ids;
      while left != {}
        invariant left <= ids && provider.Valid()
        invariant epochs == epochs0 - (ids - left)
        invariant provider.engines == engines0 - HandlesOf(epochs0, ids - left)
        decreases |left|
      {
        var id :| id in left;
        DisposeStep(epochs0, engines0, ids - left, id);
        var epoch := epochs[id];
        epochs := epochs - {id};
        if epoch.handle.Some? {
          provider.FreeEngine(epoch.handle.value);
        }
        assert ids - (left - {id}) == (ids - left) + {id};
        left := left - {id};
      }
      assert ids - left == ids;
    }

    method Resolve(named: Option<EpochId>) returns (handle: Option<Handle>)
      requires Valid()
      ensures handle == ResolveHandle(epochs, current, named)
      ensures handle.Some? ==> handle.value in provider.engines
    {
      var id := Requested(current, named);
      var epoch := if id in epochs then epochs[id] else epochs[current];
      handle := epoch.handle;
    }
  }

  /** Removing one more epoch and freeing its handle, if it has one, extends the set of disposed epochs. */
  lemma DisposeStep(epochs: map<EpochId, Epoch>, engines: map<Handle, Secret>, gone: set<EpochId>, id: EpochId)
    requires id in epochs && id !in gone
    ensures epochs - gone - {id} == epochs - (gone + {id})
    ensures epochs[id].handle.Some? ==> engines - HandlesOf(epochs, gone) - {epochs[id].handle.value}
                                        == engines - HandlesOf(epochs, gone + {id})
    ensures epochs[id].handle.None? ==> HandlesOf(epochs, gone) == HandlesOf(epochs, gone + {id})
  {
    FreedOneMore(epochs, gone, id);
    var h := HandlesOf(epochs, gone);
    if epochs[id].handle.Some? {
      assert engines - h - {epochs[id].handle.value} == engines - (h + {epochs[id].handle.value});
    }
  }

  lemma FreedOneMore(epochs: map<EpochId, Epoch>, gone: set<EpochId>, id: EpochId)
    requires id in epochs
    ensures HandlesOf(epochs, gone + {id})
            == HandlesOf(epochs, gone) + (if epochs[id].handle.Some? then {epochs[id].handle.value} else {})
  {
  }
}
