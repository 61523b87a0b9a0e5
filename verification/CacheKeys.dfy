/**
 Keys of the Vault client cache (vault/cache_key.go): how a key is computed, how a
 namespaced clone's key is derived from its parent's, and how a key is recognised again.

 The three regular expressions of the source are read as follows.  `cacheKeyRe` is one of
 the supported provider methods, a dash and 22 hexadecimal digits; `cacheKeyLeftAnchoredRe`
 matches it at the start of the key; `cloneKeyRe` additionally requires a dash and a
 non-empty rest without a newline.
 */
module CacheKeys {
  import opened Results
  import opened Decimals

  type Key = string

  const DIGEST_LEN: nat := 22
  const UID_LEN: nat := 36
  const MAX_KEY_LEN: nat := 63

  datatype KeyError =
    | EmptyMethod
    | InvalidUIDLength
    | DuplicateUID
    | KeyLengthExceeded
    | InvalidKey
    | EmptyNamespace
    | ParentIsClone

  // ---------------------------------------------------------------- recognition

  /** The alternation of `cacheKeyRe`, in the order of `credentials.ProviderMethodsSupported`. */
  const PROVIDER_METHODS: seq<string> :=
    ["kubernetes", "jwt", "appRole", "aws", "gcp", "servicePrincipal"]

  predicate IsHex(c: char) { '0' <= c <= '9' || 'a' <= c <= 'f' || 'A' <= c <= 'F' }

  predicate HexDigest(s: string) {
    |s| == DIGEST_LEN && forall i :: 0 <= i < |s| ==> IsHex(s[i])
  }

  /** `^m-[[:xdigit:]]{22}` matches at the start of `k`. */
  predicate MatchesBase(m: string, k: Key) {
    var n := |m|;
    && n + 1 + DIGEST_LEN <= |k|
    && k[..n] == m
    && k[n] == '-'
    && HexDigest(k[n + 1..n + 1 + DIGEST_LEN])
  }

  /** The first alternative that matches. */
  function FirstMatch(methods: seq<string>, k: Key): Option<string> {
    if methods == [] then None
    else if MatchesBase(methods[0], k) then Some(methods[0])
    else FirstMatch(methods[1..], k)
  }

  function MethodOf(k: Key): Option<string> { FirstMatch(PROVIDER_METHODS, k) }

  lemma {:induction false} FirstMatchMatches(methods: seq<string>, k: Key)
    ensures var r := FirstMatch(methods, k);
      && (r.Some? ==> r.value in methods && MatchesBase(r.value, k))
      && (r.None? ==> forall m :: m in methods ==> !MatchesBase(m, k))
  {
    if methods != [] {
      FirstMatchMatches(methods[1..], k);
      assert methods == [methods[0]] + methods[1..];
    }
  }

  /** Length of the part of `k` that `cacheKeyLeftAnchoredRe` matches. */
  function BaseLength(k: Key): (n: nat)
    requires MethodOf(k).Some?
    ensures DIGEST_LEN < n <= |k|
  {
    FirstMatchMatches(PROVIDER_METHODS, k);
    |MethodOf(k).value| + 1 + DIGEST_LEN
  }

  predicate IsClone(k: Key) {
    && MethodOf(k).Some?
    && BaseLength(k) + 1 < |k|
    && k[BaseLength(k)] == '-'
    && '\n' !in k[BaseLength(k) + 1..]
  }

  function Parent(k: Key): Result<Key, KeyError> {
    if MethodOf(k).Some? then Ok(k[..BaseLength(k)]) else Err(InvalidKey)
  }

  function SameParent(a: Key, b: Key): Result<bool, KeyError> {
    match Parent(a)
    case Err(e) => Err(e)
    case Ok(p) =>
      match Parent(b)
      case Err(e) => Err(e)
      case Ok(q) => Ok(p == q)
  }

  function CloneKey(k: Key, namespace: string): Result<Key, KeyError> {
    if namespace == "" then Err(EmptyNamespace)
    else if IsClone(k) then Err(ParentIsClone)
    else Ok(k + "-" + namespace)
  }

  /** A key that is nothing but a recognised method and a digest. */
  predicate IsBaseKey(k: Key) {
    MethodOf(k).Some? && BaseLength(k) == |k|
  }

  predicate StartsWithMethod(m: string, k: Key) {
    '-' !in m && |m| < |k| && k[..|m|] == m && k[|m|] == '-'
  }

  /** The first dash of a key ends its method, so at most one alternative can match. */
  lemma MethodUnique(m: string, n: string, k: Key)
    requires StartsWithMethod(m, k) && StartsWithMethod(n, k)
    ensures m == n
  {
    assert forall i :: 0 <= i < |m| ==> k[i] == m[i];
    assert forall i :: 0 <= i < |n| ==> k[i] == n[i];
  }

  /** The alternatives are tried in order, but as at most one can match, any match decides. */
  lemma MethodOfMatch(m: string, k: Key)
    requires m in PROVIDER_METHODS && MatchesBase(m, k)
    ensures MethodOf(k) == Some(m)
  {
    MethodMatches(k);
    MethodHasNoDash(m);
    MethodUnique(m, MethodOf(k).value, k);
  }

  lemma MethodMatches(k: Key)
    ensures MethodOf(k).Some? ==> MethodOf(k).value in PROVIDER_METHODS && MatchesBase(MethodOf(k).value, k)
    ensures MethodOf(k).Some? ==> StartsWithMethod(MethodOf(k).value, k)
    ensures MethodOf(k).None? ==> forall m :: m in PROVIDER_METHODS ==> !MatchesBase(m, k)
  {
    FirstMatchMatches(PROVIDER_METHODS, k);
    if MethodOf(k).Some? {
      MethodHasNoDash(MethodOf(k).value);
    }
  }

  lemma MethodHasNoDash(m: string)
    requires m in KEY_METHODS || m in PROVIDER_METHODS
    ensures '-' !in m
  {
  }

  /** Whether and how the leading base matches depends only on that leading part. */
  lemma MethodOfExtended(b: Key, k: Key)
    requires MethodOf(b).Some? && b <= k
    ensures MethodOf(k) == MethodOf(b) && BaseLength(k) == BaseLength(b)
    ensures k[..BaseLength(k)] == b[..BaseLength(b)]
  {
    MethodMatches(b);
    var m := MethodOf(b).value;
    var n := |m| + 1 + DIGEST_LEN;
    assert k[..|m|] == b[..|m|];
    assert k[|m| + 1..n] == b[|m| + 1..n];
    MethodOfMatch(m, k);
    assert k[..n] == b[..n];
  }

  lemma MethodOfTruncated(k: Key)
    requires MethodOf(k).Some?
    ensures IsBaseKey(k[..BaseLength(k)]) && MethodOf(k[..BaseLength(k)]) == MethodOf(k)
  {
    MethodMatches(k);
    var m := MethodOf(k).value;
    var b := k[..BaseLength(k)];
    assert b[..|m|] == k[..|m|];
    assert b[|m| + 1..|m| + 1 + DIGEST_LEN] == k[|m| + 1..|m| + 1 + DIGEST_LEN];
    MethodOfMatch(m, b);
  }

  /** A base key, spelled out: a supported method, a dash and 22 hexadecimal digits. */
  lemma BaseKeyIff(k: Key)
    ensures IsBaseKey(k) <==>
      exists m :: m in {"kubernetes", "jwt", "appRole", "aws", "gcp", "servicePrincipal"} && SpellsBase(m, k)
  {
    MethodMatches(k);
    if IsBaseKey(k) {
      var m := MethodOf(k).value;
      assert forall i :: |m| < i < |k| ==> k[i] == k[|m| + 1..|m| + 1 + DIGEST_LEN][i - |m| - 1];
      assert SpellsBase(m, k);
    }
    if m :| m in {"kubernetes", "jwt", "appRole", "aws", "gcp", "servicePrincipal"} && SpellsBase(m, k) {
      var d := k[|m| + 1..|m| + 1 + DIGEST_LEN];
      assert forall i :: 0 <= i < |d| ==> d[i] == k[|m| + 1 + i];
      assert m in PROVIDER_METHODS && MatchesBase(m, k);
      MethodOfMatch(m, k);
    }
  }

  predicate SpellsBase(m: string, k: Key) {
    && |k| == |m| + 23 && k[..|m|] == m && k[|m|] == '-'
    && forall i :: |m| < i < |k| ==> ('0' <= k[i] <= '9' || 'a' <= k[i] <= 'f' || 'A' <= k[i] <= 'F')
  }

  /** A base key is never mistaken for a clone. */
  lemma BaseKeyIsNoClone(k: Key)
    requires IsBaseKey(k)
    ensures !IsClone(k) && Parent(k) == Ok(k)
  {
    assert k[..|k|] == k;
  }

  /** Cloning a base key and asking for the parent gives the base key back. */
  lemma ParentOfClone(k: Key, namespace: string)
    requires IsBaseKey(k) && namespace != "" && '\n' !in namespace
    ensures CloneKey(k, namespace).Ok?
    ensures var c := CloneKey(k, namespace).value; IsClone(c) && Parent(c) == Ok(k)
  {
    BaseKeyIsNoClone(k);
    var c := k + "-" + namespace;
    MethodOfExtended(k, c);
    assert c[..|k|] == k;
    assert c[|k| + 1..] == namespace;
  }

  /** Every recognised clone is the clone of its parent, under its suffix as namespace. */
  lemma CloneOfParent(c: Key)
    requires IsClone(c)
    ensures Parent(c).Ok? && IsBaseKey(Parent(c).value)
    ensures CloneKey(Parent(c).value, c[BaseLength(c) + 1..]) == Ok(c)
  {
    MethodOfTruncated(c);
    BaseKeyIsNoClone(c[..BaseLength(c)]);
    var n := BaseLength(c);
    assert c == c[..n] + [c[n]] + c[n + 1..];
  }

  /** Clones are siblings exactly when they were cloned from the same base key, whatever their namespaces. */
  lemma SiblingsIffSameBase(k: Key, ns: string, k': Key, ns': string)
    requires IsBaseKey(k) && ns != "" && '\n' !in ns && CloneKey(k, ns).Ok?
    requires IsBaseKey(k') && ns' != "" && '\n' !in ns' && CloneKey(k', ns').Ok?
    ensures SameParent(CloneKey(k, ns).value, CloneKey(k', ns').value) == Ok(k == k')
    ensures SameParent(CloneKey(k, ns).value, k') == Ok(k == k')
  {
    ParentOfClone(k, ns);
    ParentOfClone(k', ns');
    BaseKeyIsNoClone(k');
  }

  lemma CloneInjective(k: Key, ns: string, k': Key, ns': string)
    requires IsBaseKey(k) && IsBaseKey(k') && ns != "" && ns' != ""
    requires CloneKey(k, ns) == CloneKey(k', ns')
    ensures k == k' && ns == ns'
  {
    BaseKeyIsNoClone(k);
    BaseKeyIsNoClone(k');
    var c := k + "-" + ns;
    assert c == k' + "-" + ns';
    MethodOfExtended(k, c);
    MethodOfExtended(k', c);
    assert c[|k| + 1..] == ns && c[|k'| + 1..] == ns';
  }

  /** The prefix test that `pruneClones` uses finds exactly the clones of the key. */
  lemma PrefixIsParent(p: Key, c: Key)
    requires IsBaseKey(p) && IsClone(c)
    ensures p <= c <==> Parent(c) == Ok(p)
  {
    if p <= c {
      MethodOfExtended(p, c);
      assert p[..|p|] == p;
    }
  }

  // ---------------------------------------------------------------- computation

  function LowerChar(c: char): char {
    if 'A' <= c <= 'Z' then (c as int + 32) as char else c
  }

  function ToLower(s: string): (r: string)
    ensures |r| == |s|
  {
    seq(|s|, i requires 0 <= i < |s| => LowerChar(s[i]))
  }

  predicate LowerDigest(s: string) { HexDigest(s) && ToLower(s) == s }

  /** What identifies a client: the VaultAuth, the VaultConnection and the credential provider. */
  datatype Identity = Identity(
    authUID: string, authGeneration: int,
    connUID: string, connGeneration: int,
    providerUID: string)

  function HashInput(id: Identity): string {
    id.authUID + ("-" + FormatInt(id.authGeneration) + "." +
    (id.connUID + ("-" + FormatInt(id.connGeneration) + "." + id.providerUID)))
  }

  predicate ValidIdentity(id: Identity) {
    && |id.authUID| == UID_LEN && |id.connUID| == UID_LEN && |id.providerUID| == UID_LEN
    && id.authUID != id.connUID && id.authUID != id.providerUID && id.connUID != id.providerUID
  }

  function JoinedKey(m: string, digest: string): Key {
    ToLower(m + "-" + digest)
  }

  /**
   `computeClientCacheKey`.  All validation failures are collected, in the order in which
   the UIDs are visited, before the digest is taken.
   */
  method ComputeKey(authMethod: string, id: Identity, digest: string -> string)
    returns (r: Result<Key, seq<KeyError>>)
    ensures r.Ok? <==>
      authMethod != "" && ValidIdentity(id) && |authMethod| + 1 + |digest(HashInput(id))| <= 63
    ensures r.Ok? ==> r.value == JoinedKey(authMethod, digest(HashInput(id)))
    ensures r.Err? && authMethod != "" && ValidIdentity(id) ==> r.error == [KeyLengthExceeded]
    ensures r.Err? ==> r.error != []
    ensures r.Err? ==> (EmptyMethod in r.error <==> authMethod == "")
    ensures r.Err? ==> (InvalidUIDLength in r.error <==>
      exists uid :: uid in {id.authUID, id.connUID, id.providerUID} && |uid| != 36)
    ensures r.Err? ==> (DuplicateUID in r.error <==>
      id.authUID == id.connUID || id.authUID == id.providerUID || id.connUID == id.providerUID)
  {
    var errs: seq<KeyError> := [];
    if authMethod == "" {
      errs := errs + [EmptyMethod];
    }
    var seen: set<string> := {};
    var uids := [id.authUID, id.connUID, id.providerUID];
    for i := 0 to |uids|
      invariant EmptyMethod in errs <==> authMethod == ""
      invariant KeyLengthExceeded !in errs
      invariant seen == set j | 0 <= j < i :: uids[j]
      invariant InvalidUIDLength in errs <==> exists j :: 0 <= j < i && |uids[j]| != UID_LEN
      invariant DuplicateUID in errs <==> exists j, k :: 0 <= j < k < i && uids[j] == uids[k]
      invariant errs == [] <==> EmptyMethod !in errs && InvalidUIDLength !in errs && DuplicateUID !in errs
    {
      if |uids[i]| != UID_LEN {
        errs := errs + [InvalidUIDLength];
      }
      if uids[i] in seen {
        errs := errs + [DuplicateUID];
      }
      seen := seen + {uids[i]};
    }
    assert |uids| == 3 && uids[0] == id.authUID && uids[1] == id.connUID && uids[2] == id.providerUID;
    if errs != [] {
      return Err(errs);
    }
    var key := JoinedKey(authMethod, digest(HashInput(id)));
    if |key| > MAX_KEY_LEN {
      return Err([KeyLengthExceeded]);
    }
    return Ok(key);
  }

  /** A separator that occurs in neither head splits a text in only one way. */
  lemma SplitOnce(a: string, r: string, b: string, t: string, sep: char)
    requires a + [sep] + r == b + [sep] + t
    requires sep !in a && sep !in b
    ensures a == b && r == t
  {
    var s := a + [sep] + r;
    assert s[|a|] == sep && s[|b|] == sep;
    assert forall i :: 0 <= i < |a| ==> s[i] == a[i];
    assert forall i :: 0 <= i < |b| ==> s[i] == b[i];
    assert a == s[..|a|] && r == s[|a| + 1..];
    assert b == s[..|b|] && t == s[|b| + 1..];
  }

  lemma CutPrefix(a: string, r: string, b: string, t: string)
    requires a + r == b + t && |a| == |b|
    ensures a == b && r == t
  {
    assert a == (a + r)[..|a|] && r == (a + r)[|a|..];
    assert b == (b + t)[..|b|] && t == (b + t)[|b|..];
  }

  lemma GenerationThenRest(g: int, r: string, h: int, t: string)
    requires "-" + FormatInt(g) + "." + r == "-" + FormatInt(h) + "." + t
    ensures g == h && r == t
  {
    SplitOnce("-" + FormatInt(g), r, "-" + FormatInt(h), t, '.');
    CutPrefix("-", FormatInt(g), "-", FormatInt(h));
    FormatIntInjective(g, h);
  }

  /** Distinct identities are hashed from distinct texts, although the parts are only concatenated. */
  lemma HashInputInjective(a: Identity, b: Identity)
    requires ValidIdentity(a) && ValidIdentity(b)
    requires HashInput(a) == HashInput(b)
    ensures a == b
  {
    var restA := a.connUID + ("-" + FormatInt(a.connGeneration) + "." + a.providerUID);
    var restB := b.connUID + ("-" + FormatInt(b.connGeneration) + "." + b.providerUID);
    CutPrefix(a.authUID, "-" + FormatInt(a.authGeneration) + "." + restA,
              b.authUID, "-" + FormatInt(b.authGeneration) + "." + restB);
    GenerationThenRest(a.authGeneration, restA, b.authGeneration, restB);
    CutPrefix(a.connUID, "-" + FormatInt(a.connGeneration) + "." + a.providerUID,
              b.connUID, "-" + FormatInt(b.connGeneration) + "." + b.providerUID);
    GenerationThenRest(a.connGeneration, a.providerUID, b.connGeneration, b.providerUID);
  }

  /** As long as the digest does not collide, two clients share a key only if they are the same. */
  lemma KeyDeterminesIdentity(m: string, a: Identity, n: string, b: Identity, digest: string -> string)
    requires ValidIdentity(a) && ValidIdentity(b)
    requires LowerDigest(digest(HashInput(a))) && LowerDigest(digest(HashInput(b)))
    requires digest(HashInput(a)) == digest(HashInput(b)) ==> HashInput(a) == HashInput(b)
    requires JoinedKey(m, digest(HashInput(a))) == JoinedKey(n, digest(HashInput(b)))
    ensures a == b && ToLower(m) == ToLower(n)
  {
    JoinedKeyParts(m, digest(HashInput(a)));
    JoinedKeyParts(n, digest(HashInput(b)));
    CutPrefix(ToLower(m), "-" + digest(HashInput(a)), ToLower(n), "-" + digest(HashInput(b)));
    CutPrefix("-", digest(HashInput(a)), "-", digest(HashInput(b)));
    HashInputInjective(a, b);
  }

  lemma JoinedKeyParts(m: string, d: string)
    requires LowerDigest(d)
    ensures JoinedKey(m, d) == ToLower(m) + ("-" + d)
  {
    var k := JoinedKey(m, d);
    forall i | 0 <= i < |k|
      ensures k[i] == (ToLower(m) + ("-" + d))[i]
    {
      if i > |m| {
        assert k[i] == LowerChar(d[i - |m| - 1]) == ToLower(d)[i - |m| - 1];
      }
    }
  }

  // ---------------------------------------------------------------- the AppRole exception

  /** The methods a VaultAuth may name, as the factory sees them in its keys: lower-cased. */
  const KEY_METHODS: set<string> := {"kubernetes", "jwt", "approle", "aws", "gcp"}

  /** A key that `computeClientCacheKey` can produce for a VaultAuth. */
  ghost predicate ComputedKey(k: Key) {
    exists m, d :: m in KEY_METHODS && HexDigest(d) && k == m + ("-" + d)
  }

  /** The methods as a VaultAuth spells them. */
  const AUTH_METHODS: set<string> := {"kubernetes", "jwt", "appRole", "aws", "gcp"}

  /**
   The recogniser spells the method `appRole`, the computed keys spell it `approle`: among the
   computed keys exactly the AppRole ones are not recognised.
   */
  lemma RecognisedUnlessAppRole(m: string, d: string)
    requires m in KEY_METHODS && HexDigest(d)
    ensures var k := m + ("-" + d); IsBaseKey(k) <==> m != "approle"
    ensures var k := m + ("-" + d); MethodOf(k).Some? <==> m != "approle"
  {
    var k := m + ("-" + d);
    assert k[..|m|] == m && k[|m|] == '-' && k[|m| + 1..|m| + 1 + DIGEST_LEN] == d;
    if m != "approle" {
      MethodOfMatch(m, k);
    } else {
      AppRoleUnrecognised(k, k);
    }
  }

  /**
   A namespaced clone of a computed key is recognised as a clone exactly when the method is
   not AppRole and the namespace holds no newline.
   */
  lemma CloneRecognisedIff(m: string, d: string, namespace: string)
    requires m in KEY_METHODS && HexDigest(d) && namespace != ""
    ensures var k := m + ("-" + d);
      && CloneKey(k, namespace) == Ok(k + "-" + namespace)
      && (IsClone(k + "-" + namespace) <==> m != "approle" && '\n' !in namespace)
  {
    var k := m + ("-" + d);
    var c := k + "-" + namespace;
    RecognisedUnlessAppRole(m, d);
    assert c[|k| + 1..] == namespace;
    if m != "approle" {
      BaseKeyIsNoClone(k);
      MethodOfExtended(k, c);
    } else {
      AppRoleUnrecognised(k, c);
    }
  }

  lemma LoweredMethod(m: string)
    requires m in AUTH_METHODS
    ensures ToLower(m) in KEY_METHODS && (ToLower(m) == "approle" <==> m == "appRole")
  {
    assert ToLower("kubernetes") == "kubernetes" && ToLower("jwt") == "jwt" && ToLower("appRole") == "approle";
    assert ToLower("aws") == "aws" && ToLower("gcp") == "gcp";
  }

  /**
   What `computeClientCacheKey` returns for any method of a VaultAuth: a computed key, and a
   recognised one exactly when the method is not AppRole.
   */
  lemma ComputedKeyRecognisedIff(m: string, d: string)
    requires m in AUTH_METHODS && LowerDigest(d)
    ensures var k := JoinedKey(m, d);
      && ComputedKey(k)
      && (IsBaseKey(k) <==> m != "appRole")
      && (Parent(k).Ok? <==> m != "appRole")
  {
    LoweredMethod(m);
    JoinedKeyParts(m, d);
    RecognisedUnlessAppRole(ToLower(m), d);
  }

  /** Its namespaced clones are recognised exactly for the other methods and namespaces without a newline. */
  lemma ComputedCloneRecognisedIff(m: string, d: string, namespace: string)
    requires m in AUTH_METHODS && LowerDigest(d) && namespace != ""
    ensures var k := JoinedKey(m, d);
      && CloneKey(k, namespace).Ok?
      && (IsClone(CloneKey(k, namespace).value) <==> m != "appRole" && '\n' !in namespace)
  {
    LoweredMethod(m);
    JoinedKeyParts(m, d);
    CloneRecognisedIff(ToLower(m), d, namespace);
  }

  lemma AppRoleUnrecognised(k: Key, c: Key)
    requires "approle" <= k && k <= c && |k| > 7 && k[7] == '-'
    ensures MethodOf(c).None? && !IsClone(c)
  {
    assert c[..7] == "approle" && c[7] == '-';
    MethodHasNoDash("approle");
    assert StartsWithMethod("approle", c);
    MethodMatches(c);
    if MethodOf(c).Some? {
      MethodUnique("approle", MethodOf(c).value, c);
    }
  }
}
