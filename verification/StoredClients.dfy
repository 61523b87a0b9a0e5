/**
 The factory's stored tokens and the Secrets that hold them: every effect that the steps of
 `FactoryRuns` have on their map of tokens is the effect of an operation of `ClientStorage` on the
 cluster's Secrets, so what is proved of stored tokens over runs holds of the Secrets.
 */
module StoredClients {
  import opened Results
  import opened CacheKeys
  import opened ClientTiers
  import FR = FactoryRuns
  import CS = ClientStorage

  type Entry = CS.Entry<nat>

  /** What the storage is configured with; `transit` is there exactly when encryption is enforced. */
  datatype Setup = Setup(transit: Option<CS.Transit>, codec: CS.Codec<nat>)

  predicate Enforces(u: Setup) { u.transit.Some? }

  ghost predicate Sound(u: Setup) { forall token :: CS.Faithful(u.codec, u.transit, token) }

  /** The Secret is the one made by storing this client. */
  ghost predicate MadeFor(secret: CS.StoredSecret, e: Entry, u: Setup) {
    && CS.IsInt64(e.authGeneration) && CS.IsInt64(e.connGeneration)
    && CS.NewSecret(e, u.transit, u.codec) == Ok(secret)
  }

  ghost predicate HoldsToken(secret: CS.StoredSecret, k: Key, token: nat, u: Setup) {
    exists e: Entry :: MadeFor(secret, e, u) && e.cacheKey == k && e.token == token
  }

  /** `s` holds exactly the keys of `m`, each under its name, labelled with its key, and fit for its value. */
  ghost predicate Mirrors<K(!new), N(!new), V, T>(
    m: map<K, T>, s: map<N, V>, name: K -> N, keyOf: V -> K, fits: (V, K, T) -> bool)
  {
    && (forall n :: n in s ==> n == name(keyOf(s[n])))
    && (forall k :: k in m <==> name(k) in s)
    && (forall k :: k in m ==> fits(s[name(k)], k, m[k]))
  }

  lemma MirrorDeletion<K(!new), N(!new), V, T>(
    m: map<K, T>, s: map<N, V>, name: K -> N, keyOf: V -> K, fits: (V, K, T) -> bool, k: K)
    requires Mirrors(m, s, name, keyOf, fits) && forall a, b :: name(a) == name(b) ==> a == b
    ensures Mirrors(m - {k}, s - {name(k)}, name, keyOf, fits)
  {
  }

  lemma MirrorCreation<K(!new), N(!new), V, T>(
    m: map<K, T>, s: map<N, V>, name: K -> N, keyOf: V -> K, fits: (V, K, T) -> bool, k: K, v: V, t: T)
    requires Mirrors(m, s, name, keyOf, fits) && forall a, b :: name(a) == name(b) ==> a == b
    requires keyOf(v) == k && fits(v, k, t)
    ensures Mirrors(m[k := t], s[name(k) := v], name, keyOf, fits)
  {
  }

  function LabelOf(): CS.StoredSecret -> Key { (s: CS.StoredSecret) => s.labels.cacheKey }

  function NameOf(): Key -> string { (k: Key) => CS.SecretName(k) }

  ghost function Fits(u: Setup): (CS.StoredSecret, Key, nat) -> bool {
    (s: CS.StoredSecret, k: Key, token: nat) => HoldsToken(s, k, token, u)
  }

  /** The Secrets are exactly those of the stored tokens. */
  ghost predicate Represents(stored: map<Key, nat>, s: CS.Store, u: Setup) {
    Mirrors(stored, s, NameOf(), LabelOf(), Fits(u))
  }

  lemma SecretNameInjective()
    ensures forall a, b :: NameOf()(a) == NameOf()(b) ==> a == b
  {
    forall a, b | NameOf()(a) == NameOf()(b)
      ensures a == b
    {
      assert CS.SecretName(a)[|CS.NAME_PREFIX|..] == a && CS.SecretName(b)[|CS.NAME_PREFIX|..] == b;
    }
  }

  lemma DeletionRepresents(stored: map<Key, nat>, s: CS.Store, u: Setup, k: Key)
    requires Represents(stored, s, u)
    ensures Represents(stored - {k}, s - {CS.SecretName(k)}, u)
  {
    SecretNameInjective();
    MirrorDeletion(stored, s, NameOf(), LabelOf(), Fits(u), k);
  }

  lemma CreationRepresents(stored: map<Key, nat>, s: CS.Store, e: Entry, secret: CS.StoredSecret, u: Setup)
    requires Represents(stored, s, u) && MadeFor(secret, e, u)
    ensures Represents(stored[e.cacheKey := e.token], s[CS.SecretName(e.cacheKey) := secret], u)
  {
    SecretNameInjective();
    assert HoldsToken(secret, e.cacheKey, e.token, u);
    MirrorCreation(stored, s, NameOf(), LabelOf(), Fits(u), e.cacheKey, secret, e.token);
  }

  /** What it means for one stored token. */
  lemma RepresentedToken(stored: map<Key, nat>, s: CS.Store, u: Setup, k: Key)
    requires Represents(stored, s, u)
    ensures k in stored <==> CS.SecretName(k) in s
    ensures k in stored ==> HoldsToken(s[CS.SecretName(k)], k, stored[k], u)
    ensures forall n :: n in s && s[n].labels.cacheKey == k ==> n == CS.SecretName(k)
  {
    assert NameOf()(k) == CS.SecretName(k);
    assert forall n :: n in s ==> n == NameOf()(LabelOf()(s[n]));
    assert k in stored ==> Fits(u)(s[NameOf()(k)], k, stored[k]);
  }

  /** How a call of `Store` came out for the Secret of that name, as the factory sees it. */
  function SavingOf(s: CS.Store, s': CS.Store, name: string, failure: Option<CS.StorageError>): FR.Saving {
    if failure.None? then FR.Saved else if name in s && name !in s' then FR.Lost else FR.Unsaved
  }

  /** What `Store` can do to the Secrets: create one, lose the old one, or nothing. */
  lemma StoreOutcomes(s: CS.Store, e: Entry, u: Setup, api: CS.Api)
    ensures var (s', r) := CS.StoreStep(s, e, false, Enforces(u), u.transit, u.codec, api);
      var name := CS.SecretName(e.cacheKey);
      match SavingOf(s, s', name, r)
      case Saved =>
        var made := CS.NewSecret(e, u.transit, u.codec); made.Ok? && s' == s[name := made.value]
      case Lost => s' == s - {name}
      case Unsaved => s' == s
  {
  }

  /** `storeClient` does to the Secrets what `WithStored` does to the tokens, whichever call of the API fails. */
  lemma StoringRepresents(t: Tiers, c: Client, e: Entry, s: CS.Store, u: Setup, api: CS.Api)
    requires Represents(t.stored, s, u) && t.persist
    requires e.cacheKey == c.key && e.token == c.token
    requires CS.IsInt64(e.authGeneration) && CS.IsInt64(e.connGeneration)
    ensures var (s', r) := CS.StoreStep(s, e, false, Enforces(u), u.transit, u.codec, api);
      Represents(FR.WithStored(t, c, SavingOf(s, s', CS.SecretName(c.key), r)).stored, s', u)
  {
    StoreOutcomes(s, e, u, api);
    var (s', r) := CS.StoreStep(s, e, false, Enforces(u), u.transit, u.codec, api);
    match SavingOf(s, s', CS.SecretName(c.key), r)
    case Saved => CreationRepresents(t.stored, s, e, CS.NewSecret(e, u.transit, u.codec).value, u);
    case Lost => DeletionRepresents(t.stored, s, u, c.key);
    case Unsaved =>
  }

  /**
   `restore` gives back the stored token and the whole identity of the client whenever the Secret
   can be read; otherwise it changes nothing, which is the factory's `Unreadable`.
   */
  lemma RestoringRepresents(stored: map<Key, nat>, s: CS.Store, u: Setup, k: Key, noPruneOnError: bool, api: CS.Api)
    requires Represents(stored, s, u) && Sound(u) && k in stored
    ensures var (s', r) := CS.RestoreStep(s, CS.SecretName(k), k, u.transit, noPruneOnError, u.codec, api);
      && CS.SecretName(k) in s && s' == s && (r.Ok? <==> api.readOk)
      && (r.Ok? ==> MadeFor(s[CS.SecretName(k)], r.value, u) && r.value.cacheKey == k && r.value.token == stored[k])
  {
    RepresentedToken(stored, s, u, k);
    var e: Entry :| MadeFor(s[CS.SecretName(k)], e, u) && e.cacheKey == k && e.token == stored[k];
    assert CS.Faithful(u.codec, u.transit, e.token);
    CS.RestoreOfStored(s, e, u.transit, u.codec, noPruneOnError, api);
  }

  /**
   When decryption fails after all, or the restored client does not validate, the Secret goes
   with the token, which is the factory's `Unusable`, or stays.
   */
  lemma RefusalRepresents(
    stored: map<Key, nat>, s: CS.Store, u: Setup, k: Key, other: Option<CS.Transit>, noPruneOnError: bool, api: CS.Api)
    requires Represents(stored, s, u) && k in stored
    ensures var (s', r) := CS.RestoreStep(s, CS.SecretName(k), k, other, noPruneOnError, u.codec, api);
      Represents(if s' == s then stored else stored - {k}, s', u)
  {
    RepresentedToken(stored, s, u, k);
    CS.FailedRestoreDeletesIff(s, CS.SecretName(k), k, other, noPruneOnError, u.codec, api);
    DeletionRepresents(stored, s, u, k);
  }

  /** The selector of `pruneStorage`. */
  function WithKey(k: Key): CS.Labels -> bool { (l: CS.Labels) => l.cacheKey == k }

  function SparesNothing(): CS.StoredSecret -> bool { (s: CS.StoredSecret) => false }

  /** `pruneStorage` finds the Secret of the key and no other. */
  lemma PruningFinds(stored: map<Key, nat>, s: CS.Store, u: Setup, k: Key)
    requires Represents(stored, s, u)
    ensures CS.Matching(s, WithKey(k), SparesNothing()) == if k in stored then {CS.SecretName(k)} else {}
  {
    RepresentedToken(stored, s, u, k);
    if k in stored {
      var e: Entry :| MadeFor(s[CS.SecretName(k)], e, u) && e.cacheKey == k && e.token == stored[k];
      assert s[CS.SecretName(k)].labels.cacheKey == k;
    }
  }

  /** Deleting that Secret is what `PruneStored` does to the tokens; a failing API leaves both. */
  lemma PruningRepresents(stored: map<Key, nat>, s: CS.Store, u: Setup, k: Key, stuck: set<Key>)
    requires Represents(stored, s, u)
    ensures Represents(PruneStored(stored, {k}, stuck), if k in stuck then s else s - {CS.SecretName(k)}, u)
  {
    PruneOne(stored, k, stuck);
    if k !in stuck {
      DeletionRepresents(stored, s, u, k);
    }
  }

  lemma PruneOne(stored: map<Key, nat>, k: Key, stuck: set<Key>)
    ensures PruneStored(stored, {k}, stuck) == if k in stuck then stored else stored - {k}
  {
  }
}
