/**
 The two tiers of the Vault client cache as values (vault/cache.go): a bounded,
 recency-ordered list of parent clients, and one of namespaced clones that are tied to
 their parents by nothing but the text of their keys.  The classes of `ClientCaches` are
 proved against the functions below.
 */
module ClientTiers {
  import opened Results
  import opened CacheKeys

  /**
   A Vault client.  `id` stands for the object's identity, `key` for what `GetCacheKey`
   returns for it, `origin` for the client a clone was made from, and `token` for the login
   whose Vault token it holds.
   */
  datatype Client = Client(id: nat, key: Key, isClone: bool, namespace: string, origin: nat, token: nat)

  datatype Entry = Entry(key: Key, client: Client)

  /** The size of an LRU list, which `lru.New` requires to be positive. */
  type Capacity = n: nat | 0 < n witness 1

  // ---------------------------------------------------------------- recency-ordered lists

  /** Position of a key, or the length of the list.  Lists run from the oldest to the newest entry. */
  function Index(s: seq<Entry>, k: Key): (i: nat)
    ensures i <= |s|
    ensures i < |s| ==> s[i].key == k
    ensures forall j :: 0 <= j < i ==> s[j].key != k
  {
    if s == [] then 0 else if s[0].key == k then 0 else 1 + Index(s[1..], k)
  }

  predicate Has(s: seq<Entry>, k: Key) { Index(s, k) < |s| }

  function Without(s: seq<Entry>, k: Key): seq<Entry> {
    var i := Index(s, k);
    if i < |s| then s[..i] + s[i + 1..] else s
  }

  /** A hit makes the entry the newest one. */
  function Touched(s: seq<Entry>, k: Key): seq<Entry> {
    var i := Index(s, k);
    if i < |s| then s[..i] + s[i + 1..] + [s[i]] else s
  }

  /** An existing key is overwritten without any callback; otherwise the oldest entry makes room. */
  function Inserted(s: seq<Entry>, size: Capacity, e: Entry): (r: (seq<Entry>, Option<Entry>)) {
    if Has(s, e.key) then (Without(s, e.key) + [e], None)
    else if |s| < size then (s + [e], None)
    else (s[1..] + [e], Some(s[0]))
  }

  /** The entries whose key does not start with `p`, in order. */
  function Unprefixed(s: seq<Entry>, p: Key): seq<Entry> {
    if s == [] then []
    else
      var rest := Unprefixed(s[..|s| - 1], p);
      if p <= s[|s| - 1].key then rest else rest + [s[|s| - 1]]
  }

  ghost predicate Unique(s: seq<Entry>) {
    forall i, j :: 0 <= i < j < |s| ==> s[i].key != s[j].key
  }

  /** Removing the one entry that stands between `a` and `b` leaves `a + b`. */
  lemma WithoutMiddle(a: seq<Entry>, e: Entry, b: seq<Entry>)
    requires forall i :: 0 <= i < |a| ==> a[i].key != e.key
    ensures Without(a + [e] + b, e.key) == a + b
    ensures Index(a + [e] + b, e.key) == |a|
  {
    var s := a + [e] + b;
    assert s[|a|] == e;
    assert forall i :: 0 <= i < |a| ==> s[i] == a[i];
    var i := Index(s, e.key);
    assert i == |a|;
    assert s[..i] == a && s[i + 1..] == b;
  }

  lemma {:induction false} UnprefixedMembers(s: seq<Entry>, p: Key)
    ensures forall e :: e in Unprefixed(s, p) <==> e in s && !(p <= e.key)
  {
    if s != [] {
      UnprefixedMembers(s[..|s| - 1], p);
      assert s == s[..|s| - 1] + [s[|s| - 1]];
    }
  }

  lemma {:induction false} UnprefixedUnique(s: seq<Entry>, p: Key)
    requires Unique(s)
    ensures Unique(Unprefixed(s, p)) && |Unprefixed(s, p)| <= |s|
  {
    if s != [] {
      var front := s[..|s| - 1];
      UnprefixedUnique(front, p);
      UnprefixedMembers(front, p);
      var rest := Unprefixed(front, p);
      forall i | 0 <= i < |rest|
        ensures rest[i].key != s[|s| - 1].key
      {
        assert rest[i] in front;
      }
    }
  }

  lemma WithoutMembers(s: seq<Entry>, k: Key)
    requires Unique(s)
    ensures Unique(Without(s, k)) && |Without(s, k)| <= |s|
    ensures !Has(Without(s, k), k)
    ensures forall e :: e in Without(s, k) <==> e in s && e.key != k
  {
    var i := Index(s, k);
    if i < |s| {
      var w := Without(s, k);
      assert forall j :: 0 <= j < |w| ==> w[j] == s[if j < i then j else j + 1];
      forall e | e in s && e.key != k
        ensures e in w
      {
        var j :| 0 <= j < |s| && s[j] == e;
        assert w[if j < i then j else j - 1] == e;
      }
    }
  }

  lemma HasMember(s: seq<Entry>, k: Key)
    ensures Has(s, k) <==> exists e :: e in s && e.key == k
  {
    var i := Index(s, k);
    if i < |s| {
      assert s[i] in s;
    }
  }

  lemma SomeMember(s: seq<Entry>)
    ensures s == [] || exists e :: e in s
  {
    if s != [] {
      assert s[0] in s;
    }
  }

  /** Moving one element to the end permutes a sequence. */
  lemma MovedToEnd<T>(s: seq<T>, i: nat)
    requires i < |s|
    ensures var r := s[..i] + s[i + 1..] + [s[i]];
      multiset(r) == multiset(s) && forall e :: e in r <==> e in s
  {
    var r := s[..i] + s[i + 1..] + [s[i]];
    assert s == s[..i] + [s[i]] + s[i + 1..];
    assert multiset(r) == multiset(s);
    assert forall e :: e in r <==> e in multiset(r);
  }

  lemma TouchedMembers(s: seq<Entry>, k: Key)
    requires Unique(s)
    ensures Unique(Touched(s, k)) && |Touched(s, k)| == |s|
    ensures forall e :: e in Touched(s, k) <==> e in s
    ensures multiset(Touched(s, k)) == multiset(s)
  {
    var i := Index(s, k);
    if i < |s| {
      MovedToEnd(s, i);
      WithoutMembers(s, k);
      assert Touched(s, k) == Without(s, k) + [s[i]];
    }
  }

  lemma InsertedMembers(s: seq<Entry>, size: Capacity, e: Entry)
    requires Unique(s) && !Has(s, e.key) && |s| <= size
    ensures var (r, evicted) := Inserted(s, size, e);
      && Unique(r) && |r| <= size && e in r
      && (evicted.None? ==> forall x :: x in r <==> x in s || x == e)
      && (evicted.Some? ==>
            && evicted.value in s
            && forall x :: x in r <==> (x in s && x.key != evicted.value.key) || x == e)
  {
    var (r, evicted) := Inserted(s, size, e);
    if evicted.Some? {
      assert s == [s[0]] + s[1..];
    }
  }

  /** `e` is among the `d + 1` newest entries. */
  ghost predicate Recent(s: seq<Entry>, e: Entry, d: nat) {
    exists i :: 0 <= i < |s| && s[i] == e && |s| - 1 - i <= d
  }

  lemma TouchedIsNewest(s: seq<Entry>, k: Key)
    requires Has(s, k)
    ensures Recent(Touched(s, k), s[Index(s, k)], 0)
  {
    assert Touched(s, k)[|s| - 1] == s[Index(s, k)];
  }

  lemma InsertionAgesByOne(s: seq<Entry>, size: Capacity, x: Entry, e: Entry, d: nat)
    requires |s| <= size && Recent(s, e, d) && d + 1 < size && x.key != e.key
    ensures Recent(Inserted(s, size, x).0, e, d + 1) && |Inserted(s, size, x).0| <= size
    ensures Recent(Inserted(s, size, x).0, x, 0)
  {
    var i :| 0 <= i < |s| && s[i] == e && |s| - 1 - i <= d;
    var r := Inserted(s, size, x).0;
    var j := Index(s, x.key);
    assert r[|r| - 1] == x;
    if j < |s| {
      assert r[if i < j then i else i - 1] == e;
    } else if |s| < size {
      assert r[i] == e;
    } else {
      assert r[i - 1] == e;
    }
  }

  function InsertedAll(s: seq<Entry>, size: Capacity, xs: seq<Entry>): seq<Entry> {
    if xs == [] then s else Inserted(InsertedAll(s, size, xs[..|xs| - 1]), size, xs[|xs| - 1]).0
  }

  /** The newest entry outlives fewer than `size` additions under other keys. */
  lemma {:induction false} NewestSurvives(s: seq<Entry>, size: Capacity, e: Entry, xs: seq<Entry>)
    requires |s| <= size && Recent(s, e, 0) && |xs| < size
    requires forall i :: 0 <= i < |xs| ==> xs[i].key != e.key
    ensures Recent(InsertedAll(s, size, xs), e, |xs|) && |InsertedAll(s, size, xs)| <= size
  {
    if xs != [] {
      var n := |xs| - 1;
      NewestSurvives(s, size, e, xs[..n]);
      InsertionAgesByOne(InsertedAll(s, size, xs[..n]), size, xs[n], e, n);
    }
  }

  // ---------------------------------------------------------------- the two tiers

  /** One call of `Client.Close`. */
  datatype Closing = Closing(client: Client, revoked: bool)

  /**
   Both tiers, together with what the evict callback reads and writes: the log of closed
   clients, the stored tokens by cache key, the keys whose entries cannot be deleted from
   storage at present, and the three switches of the factory.
   */
  datatype Tiers = Tiers(
    size: Capacity,
    parents: seq<Entry>,
    clones: seq<Entry>,
    closings: seq<Closing>,
    stored: map<Key, nat>,
    stuck: set<Key>,
    persist: bool,
    revokeOnEvict: bool,
    pruneStorageOnEvict: bool)

  /** What only the surroundings and a shutdown change. */
  predicate SameSwitches(t: Tiers, t': Tiers) {
    && t'.size == t.size && t'.stuck == t.stuck && t'.persist == t.persist
    && t'.revokeOnEvict == t.revokeOnEvict && t'.pruneStorageOnEvict == t.pruneStorageOnEvict
  }

  /** No client was closed with revocation, and none would be. */
  predicate Unrevoked(t: Tiers) {
    !t.revokeOnEvict && forall i :: 0 <= i < |t.closings| ==> !t.closings[i].revoked
  }

  /** Besides, storage is left alone as long as evictions do not prune it, and revocation is not made up. */
  predicate SameFrame(t: Tiers, t': Tiers) {
    && SameSwitches(t, t') && (!t.pruneStorageOnEvict ==> t'.stored == t.stored)
    && (Unrevoked(t) ==> Unrevoked(t'))
  }

  /** `pruneStorage`: the entry goes unless the API fails. */
  function PruneStored(stored: map<Key, nat>, keys: set<Key>, stuck: set<Key>): map<Key, nat> {
    stored - (keys - stuck)
  }

  /** `onClientEvict`: the client is always closed. */
  function OnEvict(t: Tiers, e: Entry): (r: Tiers)
    ensures SameFrame(t, r)
  {
    t.(closings := t.closings + [Closing(e.client, t.revokeOnEvict)],
       stored := if t.persist && t.pruneStorageOnEvict then PruneStored(t.stored, {e.key}, t.stuck) else t.stored)
  }

  function PruneClones(t: Tiers, p: Key): Tiers {
    t.(clones := Unprefixed(t.clones, p))
  }

  /** `lru.Remove` on the parent tier: a removed entry reaches the evict callback. */
  function DropParent(t: Tiers, k: Key): (r: Tiers)
    ensures SameFrame(t, r)
  {
    var i := Index(t.parents, k);
    if i < |t.parents| then
      PruneClones(OnEvict(t.(parents := Without(t.parents, k)), t.parents[i]), k)
    else t
  }

  /** `remove`: without `peek` the clones of an absent parent are pruned as well. */
  function RemoveWith(t: Tiers, k: Key, peek: bool): (r: Tiers)
    ensures SameFrame(t, r)
  {
    if IsClone(k) then t.(clones := Without(t.clones, k))
    else if peek && !Has(t.parents, k) then t
    else DropParent(PruneClones(t, k), k)
  }

  function Remove(t: Tiers, k: Key): (r: Tiers)
    ensures SameFrame(t, r)
  {
    RemoveWith(t, k, true)
  }

  function Removes(t: Tiers, k: Key): bool {
    if IsClone(k) then Has(t.clones, k) else Has(t.parents, k)
  }

  function Lookup(t: Tiers, k: Key): (r: (Tiers, Option<Client>))
    ensures SameFrame(t, r.0)
  {
    if IsClone(k) then
      var i := Index(t.clones, k);
      if i < |t.clones| then (t.(clones := Touched(t.clones, k)), Some(t.clones[i].client))
      else (t, None)
    else
      var i := Index(t.parents, k);
      if i < |t.parents| then (t.(parents := Touched(t.parents, k)), Some(t.parents[i].client))
      else (t, None)
  }

  /** The outcome of `Add`: the new tiers, or the refusal of a clone whose key is not recognised. */
  function Add(t: Tiers, c: Client): (r: Result<Tiers, KeyError>)
    ensures r.Ok? ==> SameFrame(t, r.value)
  {
    if c.isClone then
      if !IsClone(c.key) then Err(InvalidKey)
      else Ok(t.(clones := Inserted(t.clones, t.size, Entry(c.key, c)).0))
    else
      var (parents, evicted) := Inserted(t.parents, t.size, Entry(c.key, c));
      var t' := t.(parents := parents);
      if evicted.Some? then Ok(PruneClones(OnEvict(t', evicted.value), evicted.value.key))
      else Ok(t')
  }

  /** `Prune` after the first `n` keys of its snapshot. */
  function PrunedUpTo(t: Tiers, filter: Client -> bool, n: nat): (r: Tiers)
    requires n <= |t.parents|
    ensures SameFrame(t, r)
  {
    if n == 0 then t
    else
      var t' := PrunedUpTo(t, filter, n - 1);
      var e := t.parents[n - 1];
      if filter(e.client) then DropParent(PruneClones(t', e.key), e.key) else t'
  }

  function Prune(t: Tiers, filter: Client -> bool): Tiers {
    PrunedUpTo(t, filter, |t.parents|)
  }

  /** The clients among the first `n` parents that a filter selects, oldest first. */
  function Selected(parents: seq<Entry>, filter: Client -> bool): seq<Client> {
    if parents == [] then []
    else
      var rest := Selected(parents[..|parents| - 1], filter);
      var c := parents[|parents| - 1].client;
      if filter(c) then rest + [c] else rest
  }

  function Rejected(parents: seq<Entry>, filter: Client -> bool): seq<Entry> {
    if parents == [] then []
    else
      var rest := Rejected(parents[..|parents| - 1], filter);
      var e := parents[|parents| - 1];
      if filter(e.client) then rest else rest + [e]
  }

  function ClosingsOf(parents: seq<Entry>, revoked: bool): seq<Closing> {
    seq(|parents|, i requires 0 <= i < |parents| => Closing(parents[i].client, revoked))
  }

  function KeySet(parents: seq<Entry>): set<Key> {
    set i | 0 <= i < |parents| :: parents[i].key
  }

  /** The clones that are left when the given parents have gone one after the other. */
  function ClonesAfter(clones: seq<Entry>, parents: seq<Entry>): seq<Entry> {
    if parents == [] then clones
    else Unprefixed(ClonesAfter(clones, parents[..|parents| - 1]), parents[|parents| - 1].key)
  }

  /** `Purge` after the first `n` keys of its snapshot: these parents are closed, oldest first. */
  function PurgedUpTo(t: Tiers, n: nat): Tiers
    requires n <= |t.parents|
  {
    t.(parents := t.parents[n..],
       clones := ClonesAfter(t.clones, t.parents[..n]),
       closings := t.closings + ClosingsOf(t.parents[..n], t.revokeOnEvict),
       stored := if t.persist && t.pruneStorageOnEvict
                 then PruneStored(t.stored, KeySet(t.parents[..n]), t.stuck)
                 else t.stored)
  }

  function Purge(t: Tiers): Tiers { PurgedUpTo(t, |t.parents|) }

  // ---------------------------------------------------------------- coherence

  /** The clone was made from this parent, under its key and with its token. */
  predicate ClonedFrom(e: Entry, p: Entry) {
    Parent(e.key) == Ok(p.key) && e.client.origin == p.client.id && e.client.token == p.client.token
  }

  /** The clone hangs off the very client that is cached under its parent key. */
  ghost predicate Linked(parents: seq<Entry>, e: Entry) {
    exists p :: p in parents && ClonedFrom(e, p)
  }

  ghost predicate WellFormedParent(e: Entry) {
    ComputedKey(e.key) && e.client.key == e.key && !e.client.isClone
  }

  /** The clone sits under the key of its parent and its own namespace. */
  ghost predicate WellFormedClone(e: Entry) {
    && IsClone(e.key) && e.client.key == e.key && e.client.isClone
    && e.key == Parent(e.key).value + "-" + e.client.namespace
  }

  ghost predicate Coherent(t: Tiers) {
    && Unique(t.parents) && |t.parents| <= t.size
    && Unique(t.clones) && |t.clones| <= t.size
    && (forall e :: e in t.parents ==> WellFormedParent(e))
    && (forall e :: e in t.clones ==> WellFormedClone(e) && Linked(t.parents, e))
  }

  lemma ComputedKeyIsNoClone(k: Key)
    requires ComputedKey(k)
    ensures !IsClone(k)
  {
    var m, d :| m in KEY_METHODS && HexDigest(d) && k == m + ("-" + d);
    RecognisedUnlessAppRole(m, d);
    if m != "approle" {
      BaseKeyIsNoClone(k);
    }
  }

  /** For every key the factory computes, the prefix test and the parent test agree. */
  lemma PrefixIsParentOfComputed(p: Key, c: Key)
    requires ComputedKey(p) && IsClone(c)
    ensures p <= c <==> Parent(c) == Ok(p)
  {
    var m, d :| m in KEY_METHODS && HexDigest(d) && p == m + ("-" + d);
    RecognisedUnlessAppRole(m, d);
    CloneOfParent(c);
    if m != "approle" {
      PrefixIsParent(p, c);
    } else if p <= c {
      AppRoleUnrecognised(p, c);
    }
  }

  /** Whatever else happens to the parents, losing one of them with its clones leaves the tiers coherent. */
  lemma DropKeepsCoherence(t: Tiers, t': Tiers, k: Key)
    requires Coherent(t) && ComputedKey(k)
    requires t'.size == t.size && Unique(t'.parents) && |t'.parents| <= t.size
    requires forall e :: e in t'.parents ==> WellFormedParent(e)
    requires forall e :: e in t.parents && e.key != k ==> e in t'.parents
    requires t'.clones == Unprefixed(t.clones, k)
    ensures Coherent(t')
  {
    UnprefixedMembers(t.clones, k);
    UnprefixedUnique(t.clones, k);
    forall e | e in t'.clones
      ensures WellFormedClone(e) && Linked(t'.parents, e)
    {
      PrefixIsParentOfComputed(k, e.key);
      var p :| p in t.parents && ClonedFrom(e, p);
      assert p in t'.parents;
    }
  }

  lemma {:induction false} UnprefixedIdempotent(s: seq<Entry>, p: Key)
    ensures Unprefixed(Unprefixed(s, p), p) == Unprefixed(s, p)
  {
    if s != [] {
      UnprefixedIdempotent(s[..|s| - 1], p);
      var rest := Unprefixed(s[..|s| - 1], p);
      var last := s[|s| - 1];
      if !(p <= last.key) {
        assert (rest + [last])[..|rest|] == rest;
      }
    }
  }

  lemma DropParentShape(t: Tiers, k: Key)
    requires Has(t.parents, k)
    ensures DropParent(PruneClones(t, k), k) ==
      OnEvict(t, t.parents[Index(t.parents, k)]).(
        parents := Without(t.parents, k), clones := Unprefixed(t.clones, k))
  {
    UnprefixedIdempotent(t.clones, k);
  }

  lemma DropParentKeepsCoherence(t: Tiers, k: Key)
    requires Coherent(t) && Has(t.parents, k)
    ensures Coherent(DropParent(PruneClones(t, k), k))
  {
    DropParentShape(t, k);
    WithoutMembers(t.parents, k);
    assert t.parents[Index(t.parents, k)] in t.parents;
    DropKeepsCoherence(t, DropParent(PruneClones(t, k), k), k);
  }

  lemma RemoveKeepsCoherence(t: Tiers, k: Key)
    requires Coherent(t)
    ensures Coherent(Remove(t, k))
    ensures !IsClone(k) ==> !Has(Remove(t, k).parents, k)
  {
    if IsClone(k) {
      WithoutMembers(t.clones, k);
    } else if Has(t.parents, k) {
      DropParentKeepsCoherence(t, k);
      DropParentShape(t, k);
      WithoutMembers(t.parents, k);
    }
  }

  /** Coherence speaks of members only, so a new order of the entries keeps it. */
  lemma ReorderingKeepsCoherence(t: Tiers, t': Tiers)
    requires Coherent(t) && t'.size == t.size
    requires Unique(t'.parents) && |t'.parents| == |t.parents| && forall e :: e in t'.parents <==> e in t.parents
    requires Unique(t'.clones) && |t'.clones| == |t.clones| && forall e :: e in t'.clones <==> e in t.clones
    ensures Coherent(t')
  {
    forall e | e in t'.clones
      ensures Linked(t'.parents, e)
    {
      assert Linked(t.parents, e);
    }
  }

  lemma {:induction false} LookupKeepsCoherence(t: Tiers, k: Key)
    requires Coherent(t)
    ensures Coherent(Lookup(t, k).0)
    ensures multiset(Lookup(t, k).0.parents) == multiset(t.parents)
    ensures forall e :: e in Lookup(t, k).0.parents <==> e in t.parents
    ensures forall e :: e in Lookup(t, k).0.clones <==> e in t.clones
  {
    TouchedMembers(t.clones, k);
    TouchedMembers(t.parents, k);
    ReorderingKeepsCoherence(t, Lookup(t, k).0);
  }

  /** What `Get` finds: the client that sits under the key in the tier of the key, if there is one. */
  lemma LookupFinds(t: Tiers, k: Key, c: Client)
    requires Coherent(t)
    ensures Lookup(t, k).1 == Some(c) <==> Entry(k, c) in if IsClone(k) then t.clones else t.parents
    ensures Lookup(t, k).1.None? <==> forall x: Client :: Entry(k, x) !in if IsClone(k) then t.clones else t.parents
  {
    var s := if IsClone(k) then t.clones else t.parents;
    var i := Index(s, k);
    if i < |s| {
      assert s[i] in s && s[i] == Entry(k, s[i].client);
    }
    if Entry(k, c) in s {
      var j :| 0 <= j < |s| && s[j] == Entry(k, c);
      assert i == j;
    }
  }

  /** A hit makes the client the newest of its tier and leaves the other tier alone. */
  lemma LookupRenews(t: Tiers, k: Key, c: Client)
    requires Coherent(t) && Lookup(t, k).1 == Some(c)
    ensures var t' := Lookup(t, k).0;
      if IsClone(k) then Recent(t'.clones, Entry(k, c), 0) && t'.parents == t.parents
      else Recent(t'.parents, Entry(k, c), 0) && t'.clones == t.clones
  {
    if IsClone(k) {
      TouchedIsNewest(t.clones, k);
    } else {
      TouchedIsNewest(t.parents, k);
    }
  }

  /** What `Remove` leaves: a clone goes alone, a parent takes its clones along, and all others stay. */
  lemma RemoveLeaves(t: Tiers, k: Key)
    requires Coherent(t)
    ensures var t' := Remove(t, k); var gone := if IsClone(k) then Has(t.clones, k) else Has(t.parents, k);
      && (gone <==> Removes(t, k))
      && (forall e :: e in t'.parents <==> e in t.parents && e.key != k)
      && (forall e :: e in t'.clones <==>
            e in t.clones && e.key != k && !(gone && !IsClone(k) && Parent(e.key) == Ok(k)))
  {
    HasMember(t.parents, k);
    if IsClone(k) {
      WithoutMembers(t.clones, k);
      forall e | e in t.parents
        ensures e.key != k
      {
        assert WellFormedParent(e);
        ComputedKeyIsNoClone(e.key);
      }
    } else {
      assert forall e :: e in t.clones ==> WellFormedClone(e);
      if Has(t.parents, k) {
        DropParentShape(t, k);
        WithoutMembers(t.parents, k);
        assert t.parents[Index(t.parents, k)] in t.parents && ComputedKey(k);
        UnprefixedClones(t, k);
      }
    }
  }

  /** The clones that survive the loss of a parent are those of the other parents. */
  lemma UnprefixedClones(t: Tiers, k: Key)
    requires Coherent(t) && ComputedKey(k)
    ensures forall x :: x in Unprefixed(t.clones, k) <==> x in t.clones && Parent(x.key) != Ok(k)
  {
    UnprefixedMembers(t.clones, k);
    forall x | x in t.clones
      ensures k <= x.key <==> Parent(x.key) == Ok(k)
    {
      assert WellFormedClone(x);
      PrefixIsParentOfComputed(k, x.key);
    }
  }

  /** A parent that is added while there is room is the newest, and nobody leaves. */
  lemma AddToRoom(t: Tiers, c: Client)
    requires Coherent(t) && !c.isClone && !Has(t.parents, c.key) && |t.parents| < t.size
    ensures Add(t, c).Ok?
    ensures var t' := Add(t, c).value; var e := Entry(c.key, c);
      && Recent(t'.parents, e, 0) && (forall x :: x in t'.parents <==> x in t.parents || x == e)
      && t'.clones == t.clones && t'.closings == t.closings
  {
    var t' := Add(t, c).value;
    assert t'.parents[|t'.parents| - 1] == Entry(c.key, c);
  }

  /** When the parents are full, the oldest one is closed and leaves with its clones, and nobody else does. */
  lemma AddToFull(t: Tiers, c: Client)
    requires Coherent(t) && !c.isClone && !Has(t.parents, c.key) && |t.parents| == t.size
    ensures Add(t, c).Ok?
    ensures var t' := Add(t, c).value; var e := Entry(c.key, c); var oldest := t.parents[0];
      && Recent(t'.parents, e, 0)
      && (forall x :: x in t'.parents <==> (x in t.parents && x.key != oldest.key) || x == e)
      && (forall x :: x in t'.clones <==> x in t.clones && Parent(x.key) != Ok(oldest.key))
      && t'.closings == t.closings + [Closing(oldest.client, t.revokeOnEvict)]
  {
    var t', oldest := Add(t, c).value, t.parents[0];
    InsertedMembers(t.parents, t.size, Entry(c.key, c));
    assert t'.parents[|t'.parents| - 1] == Entry(c.key, c);
    assert oldest in t.parents && WellFormedParent(oldest);
    UnprefixedClones(t, oldest.key);
  }

  /** A new parent may enter only under a key that is free; the oldest parent then leaves with its clones. */
  lemma AddParentKeepsCoherence(t: Tiers, c: Client)
    requires Coherent(t) && !c.isClone && ComputedKey(c.key) && !Has(t.parents, c.key)
    ensures Add(t, c).Ok? && Coherent(Add(t, c).value)
    ensures Entry(c.key, c) in Add(t, c).value.parents
  {
    var e := Entry(c.key, c);
    InsertedMembers(t.parents, t.size, e);
    var (parents, evicted) := Inserted(t.parents, t.size, e);
    if evicted.Some? {
      DropKeepsCoherence(t, Add(t, c).value, evicted.value.key);
    } else {
      forall x | x in t.clones
        ensures Linked(parents, x)
      {
        var p :| p in t.parents && ClonedFrom(x, p);
        assert p in parents;
      }
    }
  }

  lemma AddCloneKeepsCoherence(t: Tiers, c: Client, parent: Client)
    requires Coherent(t) && Entry(parent.key, parent) in t.parents
    requires c.isClone && IsClone(c.key) && !Has(t.clones, c.key)
    requires ClonedFrom(Entry(c.key, c), Entry(parent.key, parent)) && c.key == parent.key + "-" + c.namespace
    ensures Add(t, c).Ok? && Coherent(Add(t, c).value)
    ensures Entry(c.key, c) in Add(t, c).value.clones && Add(t, c).value.parents == t.parents
  {
    var e := Entry(c.key, c);
    InsertedMembers(t.clones, t.size, e);
    assert Linked(t.parents, e);
  }

  /** Overwriting a cached parent in place, which `cacheClient` avoids, would strand its clones. */
  lemma OverwriteBreaksCoherence(t: Tiers, c: Client, clone: Entry, old_: Entry)
    requires Coherent(t) && !c.isClone && c.key == old_.key && c.id != old_.client.id
    requires old_ in t.parents && clone in t.clones && Parent(clone.key) == Ok(old_.key)
    ensures Add(t, c).Ok? && !Coherent(Add(t, c).value)
  {
    HasMember(t.parents, c.key);
    WithoutMembers(t.parents, c.key);
    var t' := Add(t, c).value;
    assert clone in t'.clones;
    var p :| p in t.parents && ClonedFrom(clone, p);
    assert p == old_ by {
      var i :| 0 <= i < |t.parents| && t.parents[i] == p;
      var j :| 0 <= j < |t.parents| && t.parents[j] == old_;
      assert i == j;
    }
    assert forall q :: q in t'.parents && q.key == c.key ==> q == Entry(c.key, c);
  }

  // ---------------------------------------------------------------- conservation

  function ClientsOf(s: seq<Entry>): seq<Client> {
    seq(|s|, i requires 0 <= i < |s| => s[i].client)
  }

  function ClosedClients(s: seq<Closing>): seq<Client> {
    seq(|s|, i requires 0 <= i < |s| => s[i].client)
  }

  /** The parents in the cache and the clients closed so far, with multiplicity. */
  ghost function Accounted(t: Tiers): multiset<Client> {
    multiset(ClientsOf(t.parents)) + multiset(ClosedClients(t.closings))
  }

  lemma ClientsOfConcat(a: seq<Entry>, b: seq<Entry>)
    ensures ClientsOf(a + b) == ClientsOf(a) + ClientsOf(b)
  {
  }

  lemma EvictAccounts(t: Tiers, parents: seq<Entry>, e: Entry, a: seq<Entry>, b: seq<Entry>)
    requires t.parents == a + [e] + b && parents == a + b
    ensures Accounted(OnEvict(t.(parents := parents), e)) == Accounted(t)
  {
    ClientsOfConcat(a, [e]);
    ClientsOfConcat(a + [e], b);
    ClientsOfConcat(a, b);
    assert ClientsOf([e]) == [e.client];
    var t' := OnEvict(t.(parents := parents), e);
    assert ClosedClients(t'.closings) == ClosedClients(t.closings) + [e.client];
  }

  lemma DropParentConserves(t: Tiers, k: Key)
    requires Has(t.parents, k)
    ensures Accounted(DropParent(PruneClones(t, k), k)) == Accounted(t)
  {
    DropParentShape(t, k);
    var i := Index(t.parents, k);
    assert t.parents == t.parents[..i] + [t.parents[i]] + t.parents[i + 1..];
    EvictAccounts(t, Without(t.parents, k), t.parents[i], t.parents[..i], t.parents[i + 1..]);
  }

  lemma RemoveConserves(t: Tiers, k: Key)
    ensures Accounted(Remove(t, k)) == Accounted(t)
  {
    if !IsClone(k) && Has(t.parents, k) {
      DropParentConserves(t, k);
    }
  }

  lemma LookupConserves(t: Tiers, k: Key)
    ensures Accounted(Lookup(t, k).0) == Accounted(t)
  {
    var i := Index(t.parents, k);
    if !IsClone(k) && i < |t.parents| {
      var a, e, b := t.parents[..i], t.parents[i], t.parents[i + 1..];
      assert t.parents == a + [e] + b;
      ClientsOfConcat(a, [e]);
      ClientsOfConcat(a + [e], b);
      ClientsOfConcat(a, b);
      ClientsOfConcat(a + b, [e]);
    }
  }

  lemma AddConserves(t: Tiers, c: Client)
    requires |t.parents| <= t.size
    requires !c.isClone ==> !Has(t.parents, c.key)
    ensures Add(t, c).Ok? ==>
      Accounted(Add(t, c).value) == if c.isClone then Accounted(t) else Accounted(t) + multiset{c}
  {
    if !c.isClone {
      var e := Entry(c.key, c);
      var grown := t.(parents := t.parents + [e]);
      ClientsOfConcat(t.parents, [e]);
      assert ClientsOf([e]) == [c];
      assert Accounted(grown) == Accounted(t) + multiset{c};
      if |t.parents| == t.size {
        var oldest := t.parents[0];
        assert t.parents + [e] == [] + [oldest] + (t.parents[1..] + [e]);
        EvictAccounts(grown, t.parents[1..] + [e], oldest, [], t.parents[1..] + [e]);
      }
    }
  }

  // ---------------------------------------------------------------- pruning and purging

  lemma {:induction false} SelectedMembers(parents: seq<Entry>, filter: Client -> bool, c: Client)
    ensures c in Selected(parents, filter) <==> filter(c) && exists e :: e in parents && e.client == c
  {
    if parents != [] {
      var n := |parents| - 1;
      SelectedMembers(parents[..n], filter, c);
      assert parents == parents[..n] + [parents[n]];
    }
  }

  lemma RejectedMembers(parents: seq<Entry>, filter: Client -> bool)
    ensures forall e :: e in Rejected(parents, filter) <==> e in parents && !filter(e.client)
  {
    if parents != [] {
      assert parents == parents[..|parents| - 1] + [parents[|parents| - 1]];
    }
  }

  /** Where `Prune` stands after `n` keys: the decided parents are filtered, the rest is untouched. */
  lemma {:induction false} PrunedParents(t: Tiers, filter: Client -> bool, n: nat)
    requires Unique(t.parents) && n <= |t.parents|
    ensures PrunedUpTo(t, filter, n).parents == Rejected(t.parents[..n], filter) + t.parents[n..]
  {
    if n == 0 {
      assert t.parents[..0] == [] && t.parents[0..] == t.parents;
    } else {
      PrunedParents(t, filter, n - 1);
      PruneNext(t.parents, filter, n);
      if filter(t.parents[n - 1].client) {
        DropParentShape(PrunedUpTo(t, filter, n - 1), t.parents[n - 1].key);
      }
    }
  }

  /** The next key of the snapshot is still in the cache, behind the parents that were kept. */
  lemma PruneNext(parents: seq<Entry>, filter: Client -> bool, n: nat)
    requires Unique(parents) && 0 < n <= |parents|
    ensures
      var kept, e, rest := Rejected(parents[..n - 1], filter), parents[n - 1], parents[n..];
      var current := kept + parents[n - 1..];
      && Index(current, e.key) == |kept| < |current| && current[|kept|] == e
      && Without(current, e.key) == kept + rest
      && Rejected(parents[..n], filter) == (if filter(e.client) then kept else kept + [e])
      && (!filter(e.client) ==> current == Rejected(parents[..n], filter) + rest)
  {
    var a, e, b := Rejected(parents[..n - 1], filter), parents[n - 1], parents[n..];
    assert parents[n - 1..] == [e] + b;
    assert a + parents[n - 1..] == a + [e] + b;
    assert parents[..n][..n - 1] == parents[..n - 1];
    RejectedMembers(parents[..n - 1], filter);
    forall i | 0 <= i < |a|
      ensures a[i].key != e.key
    {
      assert a[i] in parents[..n - 1];
    }
    WithoutMiddle(a, e, b);
  }

  /** One turn of `Prune`: the key is still there, with its client, and goes if it is selected. */
  lemma PruneTurn(t: Tiers, filter: Client -> bool, n: nat)
    requires Unique(t.parents) && 0 < n <= |t.parents|
    ensures var t', e := PrunedUpTo(t, filter, n - 1), t.parents[n - 1];
      && Has(t'.parents, e.key) && t'.parents[Index(t'.parents, e.key)] == e
      && PrunedUpTo(t, filter, n) ==
           if filter(e.client) then DropParent(PruneClones(t', e.key), e.key) else t'
  {
    PrunedParents(t, filter, n - 1);
    PruneNext(t.parents, filter, n);
  }

  lemma {:induction false} PrunedCoherence(t: Tiers, filter: Client -> bool, n: nat)
    requires Coherent(t) && n <= |t.parents|
    ensures Coherent(PrunedUpTo(t, filter, n))
  {
    if n > 0 {
      PrunedCoherence(t, filter, n - 1);
      PruneTurn(t, filter, n);
      if filter(t.parents[n - 1].client) {
        DropParentKeepsCoherence(PrunedUpTo(t, filter, n - 1), t.parents[n - 1].key);
      }
    }
  }

  lemma DropParentCloses(t: Tiers, k: Key)
    requires Has(t.parents, k)
    ensures ClosedClients(DropParent(PruneClones(t, k), k).closings) ==
      ClosedClients(t.closings) + [t.parents[Index(t.parents, k)].client]
  {
    DropParentShape(t, k);
  }

  lemma SelectedNext(parents: seq<Entry>, filter: Client -> bool, n: nat)
    requires 0 < n <= |parents|
    ensures Selected(parents[..n], filter) == Selected(parents[..n - 1], filter) +
      if filter(parents[n - 1].client) then [parents[n - 1].client] else []
  {
    assert parents[..n][..n - 1] == parents[..n - 1];
  }

  lemma {:induction false} PrunedClosings(t: Tiers, filter: Client -> bool, n: nat)
    requires Unique(t.parents) && n <= |t.parents|
    ensures ClosedClients(PrunedUpTo(t, filter, n).closings) ==
      ClosedClients(t.closings) + Selected(t.parents[..n], filter)
  {
    if n > 0 {
      PrunedClosings(t, filter, n - 1);
      PruneTurn(t, filter, n);
      SelectedNext(t.parents, filter, n);
      if filter(t.parents[n - 1].client) {
        DropParentCloses(PrunedUpTo(t, filter, n - 1), t.parents[n - 1].key);
      }
    }
  }

  lemma {:induction false} PrunedConserves(t: Tiers, filter: Client -> bool, n: nat)
    requires Unique(t.parents) && n <= |t.parents|
    ensures Accounted(PrunedUpTo(t, filter, n)) == Accounted(t)
  {
    if n > 0 {
      PrunedConserves(t, filter, n - 1);
      PruneTurn(t, filter, n);
      if filter(t.parents[n - 1].client) {
        DropParentConserves(PrunedUpTo(t, filter, n - 1), t.parents[n - 1].key);
      }
    }
  }

  lemma {:induction false} PrunedClones(t: Tiers, filter: Client -> bool, n: nat)
    requires Unique(t.parents) && n <= |t.parents|
    ensures forall e :: e in PrunedUpTo(t, filter, n).clones <==>
      e in t.clones &&
      forall i :: 0 <= i < n && filter(t.parents[i].client) ==> !(t.parents[i].key <= e.key)
  {
    if n > 0 {
      PrunedClones(t, filter, n - 1);
      PruneTurn(t, filter, n);
      var t' := PrunedUpTo(t, filter, n - 1);
      var k := t.parents[n - 1].key;
      if filter(t.parents[n - 1].client) {
        DropParentShape(t', k);
        UnprefixedMembers(t'.clones, k);
      }
    }
  }

  /**
   `Prune` closes exactly the selected parents, oldest first, keeps the other parents in
   order, and keeps exactly the clones of those.
   */
  lemma PruneExact(t: Tiers, filter: Client -> bool)
    requires Coherent(t)
    ensures var t' := Prune(t, filter);
      && Coherent(t') && Accounted(t') == Accounted(t)
      && t'.parents == Rejected(t.parents, filter)
      && ClosedClients(t'.closings) == ClosedClients(t.closings) + Selected(t.parents, filter)
      && (forall e :: e in t'.clones <==> e in t.clones && Linked(Rejected(t.parents, filter), e))
  {
    var n := |t.parents|;
    assert t.parents[..n] == t.parents && t.parents[n..] == [];
    PrunedParents(t, filter, n);
    PrunedCoherence(t, filter, n);
    PrunedClosings(t, filter, n);
    PrunedConserves(t, filter, n);
    PrunedClones(t, filter, n);
    var t' := Prune(t, filter);
    RejectedMembers(t.parents, filter);
    forall e | e in t.clones && Linked(t'.parents, e)
      ensures e in t'.clones
    {
      var q :| q in t'.parents && ClonedFrom(e, q);
      forall i | 0 <= i < n && filter(t.parents[i].client)
        ensures !(t.parents[i].key <= e.key)
      {
        assert t.parents[i] in t.parents;
        PrefixIsParentOfComputed(t.parents[i].key, e.key);
        var j :| 0 <= j < n && t.parents[j] == q;
        assert i != j;
      }
    }
  }

  lemma PurgedNone(t: Tiers)
    ensures PurgedUpTo(t, 0) == t
  {
    assert t.parents[..0] == [] && t.parents[0..] == t.parents;
    assert ClosingsOf([], t.revokeOnEvict) == [] && KeySet([]) == {};
  }

  /** One turn of `Purge`. */
  lemma PurgeTurn(t: Tiers, n: nat)
    requires Unique(t.parents) && n < |t.parents| && !IsClone(t.parents[n].key)
    ensures Removes(PurgedUpTo(t, n), t.parents[n].key)
    ensures Remove(PurgedUpTo(t, n), t.parents[n].key) == PurgedUpTo(t, n + 1)
  {
    var t', e := PurgedUpTo(t, n), t.parents[n];
    assert t'.parents == [] + [e] + t.parents[n + 1..];
    WithoutMiddle([], e, t.parents[n + 1..]);
    DropParentShape(t', e.key);
    PurgedNext(t.clones, t.parents, n, t.revokeOnEvict);
  }

  lemma PurgedNext(clones: seq<Entry>, parents: seq<Entry>, n: nat, revoked: bool)
    requires n < |parents|
    ensures ClosingsOf(parents[..n + 1], revoked) ==
      ClosingsOf(parents[..n], revoked) + [Closing(parents[n].client, revoked)]
    ensures KeySet(parents[..n + 1]) == KeySet(parents[..n]) + {parents[n].key}
    ensures ClonesAfter(clones, parents[..n + 1]) ==
      Unprefixed(ClonesAfter(clones, parents[..n]), parents[n].key)
  {
    assert parents[..n + 1][..n] == parents[..n];
  }

  lemma {:induction false} ClonesAfterMembers(clones: seq<Entry>, parents: seq<Entry>, e: Entry)
    requires e in ClonesAfter(clones, parents)
    ensures e in clones && forall i :: 0 <= i < |parents| ==> !(parents[i].key <= e.key)
  {
    if parents != [] {
      var n := |parents| - 1;
      UnprefixedMembers(ClonesAfter(clones, parents[..n]), parents[n].key);
      ClonesAfterMembers(clones, parents[..n], e);
      assert forall i :: 0 <= i < n ==> parents[i] == parents[..n][i];
    }
  }

  lemma NotAfterItsParent(t: Tiers, e: Entry)
    requires Coherent(t) && e in t.clones
    ensures e !in ClonesAfter(t.clones, t.parents)
  {
    var p :| p in t.parents && ClonedFrom(e, p);
    var i :| 0 <= i < |t.parents| && t.parents[i] == p;
    PrefixIsParentOfComputed(p.key, e.key);
    if e in ClonesAfter(t.clones, t.parents) {
      ClonesAfterMembers(t.clones, t.parents, e);
    }
  }

  /** `Purge` visits only the parent tier; coherence is why the clone tier ends up empty too. */
  lemma PurgeEmptiesBothTiers(t: Tiers)
    requires Coherent(t)
    ensures var t' := Purge(t);
      && t'.parents == [] && t'.clones == []
      && ClosedClients(t'.closings) == ClosedClients(t.closings) + ClientsOf(t.parents)
      && Coherent(t') && Accounted(t') == Accounted(t)
  {
    var t' := Purge(t);
    assert t.parents[..|t.parents|] == t.parents;
    forall e
      ensures e !in t'.clones
    {
      if e in t.clones {
        NotAfterItsParent(t, e);
      } else if e in t'.clones {
        ClonesAfterMembers(t.clones, t.parents, e);
      }
    }
    SomeMember(t'.clones);
    assert ClosedClients(t'.closings) == ClosedClients(t.closings) + ClientsOf(t.parents);
    assert ClientsOf([]) == [];
  }
}
