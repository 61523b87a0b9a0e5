/**
 Persistent storage of Vault clients in Kubernetes Secrets (vault/cache_storage.go).  The
 Secrets of the operator's namespace are a map by name; JSON, the Transit engine and the
 HMAC are functions handed in, and the statements say what they assume of them.
 */
module ClientStorage {
  import opened Results
  import opened Decimals

  type Bytes = string

  const NAME_PREFIX: string := "vso-cc-"

  const FIELD_SECRET: string := "secret"
  const FIELD_MAC: string := "messageMAC"

  /** The labels of a stored client that restoration reads, as one record. */
  datatype Labels = Labels(
    cacheKey: string,
    authNamespace: string, authUID: string, authGeneration: string,
    connNamespace: string, connUID: string, connGeneration: string,
    providerUID: string, providerNamespace: string,
    encrypted: bool, transitRef: string)

  datatype StoredSecret = StoredSecret(labels: Labels, data: map<string, Bytes>)

  type Store = map<string, StoredSecret>

  /** What a client is restored from. */
  datatype Entry<Token> = Entry(
    cacheKey: string,
    token: Token,
    authUID: string, authNamespace: string, authGeneration: int,
    connUID: string, connNamespace: string, connGeneration: int,
    providerUID: string, providerNamespace: string)

  /** Transit encryption through a VaultAuth with that name. */
  datatype Transit = Transit(
    authName: string, encrypt: Bytes -> Option<Bytes>, decrypt: Bytes -> Option<Bytes>)

  datatype Codec<!Token> = Codec(
    marshal: Token -> Bytes, unmarshal: Bytes -> Option<Token>, mac: Bytes -> Bytes)

  datatype StorageError =
    | CloneNotStorable | EncryptionRequired | EncryptFailed | EmptyNameOrKey
    | ApiFailed | NotFound | MissingFields | BadMAC | DecryptionRequired | WrongTransitRef | DecryptFailed
    | BadToken | BadGeneration

  /** Which calls of the Kubernetes API succeed; `recreateOk` is the creation that follows a deletion. */
  datatype Api = Api(readOk: bool, createOk: bool, deleteOk: bool, recreateOk: bool)

  function SecretName(cacheKey: string): string { NAME_PREFIX + cacheKey }

  /** `message`: the parts are only concatenated. */
  function Message(name: string, cacheKey: string, b: Bytes): Bytes { name + cacheKey + b }

  // ---------------------------------------------------------------- storing

  function LabelsFor<T>(e: Entry<T>, transit: Option<Transit>): Labels {
    Labels(e.cacheKey,
           e.authNamespace, e.authUID, FormatInt(e.authGeneration),
           e.connNamespace, e.connUID, FormatInt(e.connGeneration),
           e.providerUID, e.providerNamespace,
           transit.Some?, if transit.Some? then transit.value.authName else "")
  }

  /** The Secret that `Store` creates; `transit` is given exactly when encryption is enforced. */
  function NewSecret<T>(e: Entry<T>, transit: Option<Transit>, c: Codec<T>): Result<StoredSecret, StorageError> {
    var plain := c.marshal(e.token);
    var b := if transit.Some? then transit.value.encrypt(plain) else Some(plain);
    if b.None? then Err(EncryptFailed)
    else if e.cacheKey == "" then Err(EmptyNameOrKey)
    else
      Ok(StoredSecret(LabelsFor(e, transit),
                      map[FIELD_SECRET := b.value,
                          FIELD_MAC := c.mac(Message(SecretName(e.cacheKey), e.cacheKey, b.value))]))
  }

  /** The request is one that `Store` takes to the API. */
  predicate Storable<T>(e: Entry<T>, isClone: bool, enforce: bool, transit: Option<Transit>, c: Codec<T>) {
    && !isClone && (enforce ==> transit.Some?)
    && NewSecret(e, if enforce then transit else None, c).Ok?
  }

  function StoreStep<T>(
    s: Store, e: Entry<T>, isClone: bool, enforce: bool, transit: Option<Transit>, c: Codec<T>, api: Api)
    : (Store, Option<StorageError>)
  {
    if isClone then (s, Some(CloneNotStorable))
    else if enforce && transit.None? then (s, Some(EncryptionRequired))
    else
      match NewSecret(e, if enforce then transit else None, c)
      case Err(err) => (s, Some(err))
      case Ok(secret) =>
        var name := SecretName(e.cacheKey);
        if !api.createOk || (name in s && !api.deleteOk) then (s, Some(ApiFailed))
        else if name in s && !api.recreateOk then (s - {name}, Some(ApiFailed))
        else (s[name := secret], None)
  }

  // ---------------------------------------------------------------- restoring

  function CheckMAC<T>(name: string, cacheKey: string, s: StoredSecret, c: Codec<T>): Option<StorageError> {
    if FIELD_SECRET !in s.data || FIELD_MAC !in s.data then Some(MissingFields)
    else if name == "" || cacheKey == "" then Some(EmptyNameOrKey)
    else if s.data[FIELD_MAC] != c.mac(Message(name, cacheKey, s.data[FIELD_SECRET])) then Some(BadMAC)
    else None
  }

  function Plain(s: StoredSecret, b: Bytes, transit: Option<Transit>): Result<Bytes, StorageError> {
    if s.labels.transitRef == "" then Ok(b)
    else if transit.None? then Err(DecryptionRequired)
    else if transit.value.authName != s.labels.transitRef then Err(WrongTransitRef)
    else
      match transit.value.decrypt(b)
      case None => Err(DecryptFailed)
      case Some(p) => Ok(p)
  }

  /** An absent generation counts as zero. */
  function Generation(text: string): Option<int> {
    if text == "" then Some(0)
    else
      match Atoi(text)
      case Err(_) => None
      case Ok(n) => Some(n)
  }

  /** `restore`, up to the deletion on failure. */
  function Decoded<T>(name: string, cacheKey: string, s: StoredSecret, transit: Option<Transit>, c: Codec<T>)
    : Result<Entry<T>, StorageError>
  {
    var err := CheckMAC(name, cacheKey, s, c);
    if err.Some? then Err(err.value)
    else
      match Plain(s, s.data[FIELD_SECRET], transit)
      case Err(e) => Err(e)
      case Ok(p) =>
        var token, authGen, connGen :=
          c.unmarshal(p), Generation(s.labels.authGeneration), Generation(s.labels.connGeneration);
        if token.None? then Err(BadToken)
        else if authGen.None? || connGen.None? then Err(BadGeneration)
        else
          Ok(Entry(cacheKey, token.value,
                   s.labels.authUID, s.labels.authNamespace, authGen.value,
                   s.labels.connUID, s.labels.connNamespace, connGen.value,
                   s.labels.providerUID, s.labels.providerNamespace))
  }

  function RestoreStep<T>(
    s: Store, name: string, cacheKey: string, transit: Option<Transit>, noPruneOnError: bool, c: Codec<T>, api: Api)
    : (Store, Result<Entry<T>, StorageError>)
  {
    if name == "" then (s, Err(EmptyNameOrKey))
    else if !api.readOk then (s, Err(ApiFailed))
    else if name !in s then (s, Err(NotFound))
    else
      var r := Decoded(name, cacheKey, s[name], transit, c);
      (if r.Err? && !noPruneOnError && api.deleteOk then s - {name} else s, r)
  }

  // ---------------------------------------------------------------- the storage as an object

  class Storage<!Token> {
    const codec: Codec<Token>
    const enforceEncryption: bool
    var secrets: Store

    constructor (codec: Codec<Token>, enforceEncryption: bool, secrets: Store)
      ensures this.codec == codec && this.enforceEncryption == enforceEncryption && this.secrets == secrets
    {
      this.codec, this.enforceEncryption, this.secrets := codec, enforceEncryption, secrets;
    }

    /** An existing Secret is immutable, so it is deleted and created anew. */
    method StoreClient(e: Entry<Token>, isClone: bool, transit: Option<Transit>, api: Api)
      returns (r: Option<StorageError>)
      modifies this`secrets
      ensures (secrets, r) == StoreStep(old(secrets), e, isClone, enforceEncryption, transit, codec, api)
    {
      if isClone {
        return Some(CloneNotStorable);
      }
      if enforceEncryption && transit.None? {
        return Some(EncryptionRequired);
      }
      var b := codec.marshal(e.token);
      var labels := LabelsFor(e, None);
      if enforceEncryption {
        labels := labels.(encrypted := true, transitRef := transit.value.authName);
        var enc := transit.value.encrypt(b);
        if enc.None? {
          return Some(EncryptFailed);
        }
        b := enc.value;
      }
      if e.cacheKey == "" {
        return Some(EmptyNameOrKey);
      }
      var name := SecretName(e.cacheKey);
      var s := StoredSecret(labels, map[FIELD_SECRET := b, FIELD_MAC := codec.mac(Message(name, e.cacheKey, b))]);
      if !api.createOk {
        return Some(ApiFailed);
      }
      if name in secrets {
        if !api.deleteOk {
          return Some(ApiFailed);
        }
        secrets := secrets - {name};
        if !api.recreateOk {
          return Some(ApiFailed);
        }
      }
      secrets := secrets[name := s];
      assert secrets == old(secrets)[name := s];
      return None;
    }

    method Restore(name: string, cacheKey: string, transit: Option<Transit>, noPruneOnError: bool, api: Api)
      returns (r: Result<Entry<Token>, StorageError>)
      modifies this`secrets
      ensures (secrets, r) == RestoreStep(old(secrets), name, cacheKey, transit, noPruneOnError, codec, api)
    {
      if name == "" {
        return Err(EmptyNameOrKey);
      }
      if !api.readOk {
        return Err(ApiFailed);
      }
      if name !in secrets {
        return Err(NotFound);
      }
      r := Decoded(name, cacheKey, secrets[name], transit, codec);
      if r.Err? && !noPruneOnError && api.deleteOk {
        secrets := secrets - {name};
      }
    }

    /**
     `Prune`: lists what a selector matches and deletes what the filter does not spare.  `stuck`
     are the Secrets whose deletion fails, which stops neither the walk nor the count of the rest.
     */
    method Prune(selector: Option<Labels -> bool>, spares: StoredSecret -> bool, listOk: bool, stuck: set<string>)
      returns (count: nat, failed: bool)
      modifies this`secrets
      ensures var all := if selector.Some? && listOk then Matching(old(secrets), selector.value, spares) else {};
        && secrets == old(secrets) - (all - stuck)
        && count == |all - stuck|
        && (failed <==> selector.None? || !listOk || exists n :: n in all && n in stuck)
    {
      if selector.None? || !listOk {
        return 0, true;
      }
      var all := Matching(secrets, selector.value, spares);
      secrets, count, failed := DeleteEach(secrets, all, stuck);
    }
  }

  /** The loop of `Prune`. */
  method DeleteEach<K(==), V>(before: map<K, V>, all: set<K>, stuck: set<K>)
    returns (after: map<K, V>, count: nat, failed: bool)
    ensures after == before - (all - stuck) && count == |all - stuck|
    ensures failed <==> exists k :: k in all && k in stuck
  {
    after, count, failed := before, 0, false;
    var items := all;
    ghost var gone: set<K> := {};
    while items != {}
      invariant items <= all && after == before - gone && count == |gone|
      invariant forall k :: k in gone <==> k in all && k !in items && k !in stuck
      invariant failed <==> exists k :: k in all && k !in items && k in stuck
      decreases |items|
    {
      var n :| n in items;
      items := items - {n};
      if n in stuck {
        failed := true;
      } else {
        after := after - {n};
        count := count + 1;
        gone := gone + {n};
      }
    }
    assert gone == all - stuck;
  }

  /** The entries that a pruning is to delete. */
  function Matching(s: Store, selector: Labels -> bool, spares: StoredSecret -> bool): set<string> {
    set n | n in s && selector(s[n].labels) && !spares(s[n])
  }

  // ---------------------------------------------------------------- round trip

  ghost predicate Faithful<T>(c: Codec<T>, transit: Option<Transit>, token: T) {
    && c.unmarshal(c.marshal(token)) == Some(token)
    && (transit.Some? ==>
          && transit.value.authName != ""
          && forall b :: transit.value.encrypt(b).Some? ==>
               transit.value.decrypt(transit.value.encrypt(b).value) == Some(b))
  }

  predicate IsInt64(n: int) { INT64_MIN <= n <= INT64_MAX }

  lemma GenerationRoundTrip(n: int)
    requires IsInt64(n)
    ensures Generation(FormatInt(n)) == Some(n)
  {
    AtoiFormatInt(n);
  }

  /** Restoring the Secret that was made for a client gives back every field of that client. */
  lemma RestoreOfStored<T>(
    s: Store, e: Entry<T>, transit: Option<Transit>, c: Codec<T>, noPruneOnError: bool, api: Api)
    requires SecretName(e.cacheKey) in s && NewSecret(e, transit, c) == Ok(s[SecretName(e.cacheKey)])
    requires Faithful(c, transit, e.token) && IsInt64(e.authGeneration) && IsInt64(e.connGeneration)
    ensures RestoreStep(s, SecretName(e.cacheKey), e.cacheKey, transit, noPruneOnError, c, api) ==
      (s, if api.readOk then Ok(e) else Err(ApiFailed))
  {
    GenerationRoundTrip(e.authGeneration);
    GenerationRoundTrip(e.connGeneration);
    assert FIELD_SECRET != FIELD_MAC;
  }

  /** Restoring what was just stored gives back every field of the client, encrypted or not. */
  lemma RestoreAfterStore<T>(
    s: Store, e: Entry<T>, enforce: bool, transit: Option<Transit>, c: Codec<T>, noPruneOnError: bool,
    api: Api, later: Api)
    requires StoreStep(s, e, false, enforce, transit, c, api).1.None? && later.readOk
    requires Faithful(c, if enforce then transit else None, e.token)
    requires IsInt64(e.authGeneration) && IsInt64(e.connGeneration)
    ensures var s' := StoreStep(s, e, false, enforce, transit, c, api).0;
      RestoreStep(s', SecretName(e.cacheKey), e.cacheKey, transit, noPruneOnError, c, later) == (s', Ok(e))
  {
    GenerationRoundTrip(e.authGeneration);
    GenerationRoundTrip(e.connGeneration);
    assert FIELD_SECRET != FIELD_MAC;
  }

  // ---------------------------------------------------------------- one entry per key, and no tampering

  /** Every stored client sits under the name made from the cache key in its labels. */
  predicate Indexed(s: Store) { forall n :: n in s ==> n == SecretName(s[n].labels.cacheKey) }

  lemma OneEntryPerKey(s: Store, a: string, b: string)
    requires Indexed(s) && a in s && b in s && s[a].labels.cacheKey == s[b].labels.cacheKey
    ensures a == b
  {
  }

  /** A store, a restoration, or a pruning of any entries; tokens and codecs may differ from step to step. */
  datatype Operation<!T> =
    | Storing(e: Entry<T>, isClone: bool, enforce: bool, transit: Option<Transit>, c: Codec<T>, api: Api)
    | Restoring(name: string, cacheKey: string, transit: Option<Transit>, noPruneOnError: bool, c: Codec<T>, api: Api)
    | Pruning(names: set<string>)

  function Step<T>(s: Store, op: Operation<T>): Store {
    match op
    case Storing(e, isClone, enforce, transit, c, api) => StoreStep(s, e, isClone, enforce, transit, c, api).0
    case Restoring(name, cacheKey, transit, noPrune, c, api) =>
      RestoreStep(s, name, cacheKey, transit, noPrune, c, api).0
    case Pruning(names) => s - names
  }

  function Run<T>(s: Store, ops: seq<Operation<T>>): Store {
    if ops == [] then s else Step(Run(s, ops[..|ops| - 1]), ops[|ops| - 1])
  }

  /** The parts that the MAC is taken of, in this order. */
  lemma MessageParts(name: string, cacheKey: string, b: Bytes)
    ensures var m := Message(name, cacheKey, b);
      && |m| == |name| + |cacheKey| + |b|
      && m[..|name|] == name && m[|name|..|name| + |cacheKey|] == cacheKey && m[|name| + |cacheKey|..] == b
  {
  }

  /**
   A restoration succeeds exactly when the Secret is there and can be read, its MAC is right, it
   can be decrypted by the VaultAuth it names, where it names one, and token and generations
   can be parsed; and it gives back what is in labels and data.
   */
  lemma RestoresIff<T>(
    s: Store, name: string, cacheKey: string, transit: Option<Transit>, noPruneOnError: bool, c: Codec<T>, api: Api)
    ensures var r := RestoreStep(s, name, cacheKey, transit, noPruneOnError, c, api).1;
      && (r.Ok? <==>
            && name != "" && cacheKey != "" && api.readOk && name in s
            && Restorable(name, cacheKey, s[name], transit, c))
      && (r.Ok? ==>
            && var l := s[name].labels;
            && r.value.cacheKey == cacheKey && c.unmarshal(PlainBytes(s[name], transit)) == Some(r.value.token)
            && r.value.authUID == l.authUID && r.value.authNamespace == l.authNamespace
            && r.value.connUID == l.connUID && r.value.connNamespace == l.connNamespace
            && r.value.providerUID == l.providerUID && r.value.providerNamespace == l.providerNamespace
            && Generation(l.authGeneration) == Some(r.value.authGeneration)
            && Generation(l.connGeneration) == Some(r.value.connGeneration))
  {
  }

  predicate Restorable<T>(name: string, cacheKey: string, s: StoredSecret, transit: Option<Transit>, c: Codec<T>) {
    && "secret" in s.data && "messageMAC" in s.data
    && s.data["messageMAC"] == c.mac(Message(name, cacheKey, s.data["secret"]))
    && (s.labels.transitRef != "" ==>
          && transit.Some? && transit.value.authName == s.labels.transitRef
          && transit.value.decrypt(s.data["secret"]).Some?)
    && c.unmarshal(PlainBytes(s, transit)).Some?
    && Generation(s.labels.authGeneration).Some? && Generation(s.labels.connGeneration).Some?
  }

  /** The bytes of the token, decrypted where the Secret names a VaultAuth for that. */
  function PlainBytes(s: StoredSecret, transit: Option<Transit>): Bytes {
    if "secret" !in s.data then ""
    else if s.labels.transitRef == "" || transit.None? || transit.value.decrypt(s.data["secret"]).None? then
      s.data["secret"]
    else transit.value.decrypt(s.data["secret"]).value
  }

  /** A client is stored exactly when it is no clone, can be encrypted where it must, and the API does its part. */
  lemma StoresIff<T>(
    s: Store, e: Entry<T>, isClone: bool, enforce: bool, transit: Option<Transit>, c: Codec<T>, api: Api)
    ensures var r := StoreStep(s, e, isClone, enforce, transit, c, api).1; var name := "vso-cc-" + e.cacheKey;
      && (r.None? <==>
            && !isClone && e.cacheKey != "" && api.createOk && (name in s ==> api.deleteOk && api.recreateOk)
            && (enforce ==> transit.Some? && transit.value.encrypt(c.marshal(e.token)).Some?))
      && (r == Some(CloneNotStorable) <==> isClone)
      && (r == Some(EncryptionRequired) <==> !isClone && enforce && transit.None?)
  {
  }

  /** The operation is about another entry, or restores this one successfully. */
  predicate Harmless<T>(s: Store, op: Operation<T>, name: string) {
    match op
    case Storing(e, _, _, _, _, _) => SecretName(e.cacheKey) != name
    case Restoring(n, cacheKey, transit, noPrune, c, api) =>
      n != name || RestoreStep(s, n, cacheKey, transit, noPrune, c, api).1.Ok?
    case Pruning(names) => name !in names
  }

  lemma HarmlessStep<T>(s: Store, op: Operation<T>, name: string)
    requires name in s && Harmless(s, op, name)
    ensures name in Step(s, op) && Step(s, op)[name] == s[name]
  {
  }

  lemma {:induction false} UntouchedEntryStays<T>(s: Store, ops: seq<Operation<T>>, name: string)
    requires name in s
    requires forall i :: 0 <= i < |ops| ==> Harmless(Run(s, ops[..i]), ops[i], name)
    ensures name in Run(s, ops) && Run(s, ops)[name] == s[name]
  {
    if ops != [] {
      var n := |ops| - 1;
      assert forall i :: 0 <= i < n ==> ops[..n][..i] == ops[..i];
      UntouchedEntryStays(s, ops[..n], name);
      assert Harmless(Run(s, ops[..n]), ops[n], name);
      HarmlessStep(Run(s, ops[..n]), ops[n], name);
    }
  }

  /**
   Over every run: a stored client is given back, field by field, until its entry is written
   again, pruned, or refused.
   */
  lemma {:induction false} RestoreAfterRun<T>(
    s: Store, e: Entry<T>, enforce: bool, transit: Option<Transit>, c: Codec<T>, api: Api,
    ops: seq<Operation<T>>, noPruneOnError: bool, later: Api)
    requires StoreStep(s, e, false, enforce, transit, c, api).1.None? && later.readOk
    requires Faithful(c, if enforce then transit else None, e.token)
    requires IsInt64(e.authGeneration) && IsInt64(e.connGeneration)
    requires var s1 := StoreStep(s, e, false, enforce, transit, c, api).0;
      forall i :: 0 <= i < |ops| ==> Harmless(Run(s1, ops[..i]), ops[i], SecretName(e.cacheKey))
    ensures var s2 := Run(StoreStep(s, e, false, enforce, transit, c, api).0, ops);
      RestoreStep(s2, SecretName(e.cacheKey), e.cacheKey, if enforce then transit else None, noPruneOnError, c, later)
      == (s2, Ok(e))
  {
    var s1 := StoreStep(s, e, false, enforce, transit, c, api).0;
    UntouchedEntryStays(s1, ops, SecretName(e.cacheKey));
    RestoreOfStored(Run(s1, ops), e, if enforce then transit else None, c, noPruneOnError, later);
  }

  /** Over every run storage holds at most one entry per cache key. */
  lemma {:induction false} StaysIndexed<T>(s: Store, ops: seq<Operation<T>>)
    requires Indexed(s)
    ensures Indexed(Run(s, ops))
  {
    if ops != [] {
      StaysIndexed(s, ops[..|ops| - 1]);
    }
  }

  /**
   A failed restoration removes its entry exactly when it was read, may be pruned, and can be
   deleted; it never touches another entry.
   */
  lemma FailedRestoreDeletesIff<T>(
    s: Store, name: string, cacheKey: string, transit: Option<Transit>, noPruneOnError: bool, c: Codec<T>, api: Api)
    requires name in s && name != ""
    ensures var (s', r) := RestoreStep(s, name, cacheKey, transit, noPruneOnError, c, api);
      && (name !in s' <==> r.Err? && api.readOk && api.deleteOk && !noPruneOnError)
      && (name in s' ==> s' == s) && (name !in s' ==> s' == s - {name})
  {
  }

  /**
   A failed store leaves everything as it was, except when an older entry of the key was deleted
   to make room and could not be created again: then that entry, and no other, is lost.
   */
  lemma FailedStoreLosesIff<T>(
    s: Store, e: Entry<T>, isClone: bool, enforce: bool, transit: Option<Transit>, c: Codec<T>, api: Api)
    requires StoreStep(s, e, isClone, enforce, transit, c, api).1.Some?
    ensures var s' := StoreStep(s, e, isClone, enforce, transit, c, api).0; var name := SecretName(e.cacheKey);
      && (s' != s <==>
            && Storable(e, isClone, enforce, transit, c)
            && name in s && api.createOk && api.deleteOk && !api.recreateOk)
      && (s' != s ==> s' == s - {name})
  {
    assert SecretName(e.cacheKey) in s ==> s - {SecretName(e.cacheKey)} != s;
  }

  ghost predicate CollisionFree(mac: Bytes -> Bytes) { forall a, b :: mac(a) == mac(b) ==> a == b }

  /**
   What the MAC binds: an entry under a stored client's name that carries that client's MAC is
   accepted for a key exactly when key and bytes have the same concatenation, and so, among keys
   of one length, exactly when both are the stored ones.
   */
  lemma AcceptedIff<T>(
    e: Entry<T>, transit: Option<Transit>, c: Codec<T>, found: StoredSecret, cacheKey: string)
    requires CollisionFree(c.mac) && NewSecret(e, transit, c).Ok? && cacheKey != ""
    requires FIELD_SECRET in found.data && FIELD_MAC in found.data
    requires found.data[FIELD_MAC] == NewSecret(e, transit, c).value.data[FIELD_MAC]
    ensures var stored := NewSecret(e, transit, c).value.data[FIELD_SECRET];
      var accepted := CheckMAC(SecretName(e.cacheKey), cacheKey, found, c).None?;
      && (accepted <==> cacheKey + found.data[FIELD_SECRET] == e.cacheKey + stored)
      && (|cacheKey| == |e.cacheKey| ==>
            (accepted <==> cacheKey == e.cacheKey && found.data[FIELD_SECRET] == stored))
  {
    var stored := NewSecret(e, transit, c).value.data[FIELD_SECRET];
    var name := SecretName(e.cacheKey);
    assert FIELD_SECRET != FIELD_MAC;
    var x, y := cacheKey + found.data[FIELD_SECRET], e.cacheKey + stored;
    assert Message(name, cacheKey, found.data[FIELD_SECRET]) == name + x;
    assert Message(name, e.cacheKey, stored) == name + y;
    assert (name + x)[|name|..] == x && (name + y)[|name|..] == y;
    if x == y && |cacheKey| == |e.cacheKey| {
      assert x[..|cacheKey|] == cacheKey && y[..|cacheKey|] == e.cacheKey;
      assert x[|cacheKey|..] == found.data[FIELD_SECRET] && y[|cacheKey|..] == stored;
    }
  }
}
