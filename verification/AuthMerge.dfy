/**
 Merging a VaultAuthGlobal into a VaultAuth (common/common.go, api/v1beta1/vaultauth_types.go):
 finding the global object, filling in what the VaultAuth leaves empty, and rejecting results
 that cannot be used.  Deep copies are values; nil and empty maps and lists are not told apart.
 */
module AuthMerge {
  import opened Results

  type StringMap = map<string, string>

  const NAME_DEFAULT: string := "default"

  /** The auth methods a VaultAuth may name. */
  datatype Method = Unset | UseKubernetes | UseJwt | UseAppRole | UseAws | UseGcp | Unsupported(name: string)

  /** How maps are merged; the default is not to merge them. */
  datatype Strategy = Unstated | Union | Replace | KeepLocal | UnknownStrategy(name: string)

  // ---------------------------------------------------------------- configuration per auth method

  datatype Kubernetes = Kubernetes(role: string, serviceAccount: string, audiences: seq<string>, expiration: int)

  datatype Jwt = Jwt(role: string, secretRef: string, serviceAccount: string, audiences: seq<string>, expiration: int)

  datatype AppRole = AppRole(roleId: string, secretRef: string)

  datatype Aws = Aws(
    role: string, region: string, headerValue: string, sessionName: string, stsEndpoint: string,
    iamEndpoint: string, secretRef: string, irsaServiceAccount: string)

  datatype Gcp = Gcp(
    role: string, serviceAccount: string, region: string, clusterName: string, projectID: string)

  /** A method's section of a VaultAuthGlobal. */
  datatype GlobalConfig<C> = GlobalConfig(
    config: C, namespace: string, mount: string, params: StringMap, headers: StringMap)

  function Or<T(==)>(a: seq<T>, b: seq<T>): seq<T> { if a == [] then b else a }

  function OrNumber(a: int, b: int): int { if a == 0 then b else a }

  predicate ValidKubernetes(c: Kubernetes) { c.role != "" && c.serviceAccount != "" }
  predicate ValidJwt(c: Jwt) { c.role != "" }
  predicate ValidAppRole(c: AppRole) { c.roleId != "" && c.secretRef != "" }
  predicate ValidAws(c: Aws) { c.role != "" }
  predicate ValidGcp(c: Gcp) { c.role != "" && c.serviceAccount != "" }

  function FilledKubernetes(a: Kubernetes, b: Kubernetes): Kubernetes {
    Kubernetes(Or(a.role, b.role), Or(a.serviceAccount, b.serviceAccount),
               Or(a.audiences, b.audiences), OrNumber(a.expiration, b.expiration))
  }

  function FilledJwt(a: Jwt, b: Jwt): Jwt {
    Jwt(Or(a.role, b.role), Or(a.secretRef, b.secretRef), Or(a.serviceAccount, b.serviceAccount),
        Or(a.audiences, b.audiences), OrNumber(a.expiration, b.expiration))
  }

  function FilledAppRole(a: AppRole, b: AppRole): AppRole {
    AppRole(Or(a.roleId, b.roleId), Or(a.secretRef, b.secretRef))
  }

  function FilledAws(a: Aws, b: Aws): Aws {
    Aws(Or(a.role, b.role), Or(a.region, b.region), Or(a.headerValue, b.headerValue),
        Or(a.sessionName, b.sessionName), Or(a.stsEndpoint, b.stsEndpoint),
        Or(a.iamEndpoint, b.iamEndpoint), Or(a.secretRef, b.secretRef),
        Or(a.irsaServiceAccount, b.irsaServiceAccount))
  }

  function FilledGcp(a: Gcp, b: Gcp): Gcp {
    Gcp(Or(a.role, b.role), Or(a.serviceAccount, b.serviceAccount), Or(a.region, b.region),
        Or(a.clusterName, b.clusterName), Or(a.projectID, b.projectID))
  }

  method MergeKubernetes(a: Kubernetes, other: Kubernetes) returns (r: Option<Kubernetes>)
    ensures r == if ValidKubernetes(FilledKubernetes(a, other)) then Some(FilledKubernetes(a, other)) else None
  {
    var c := a;
    if c.role == "" { c := c.(role := other.role); }
    if c.serviceAccount == "" { c := c.(serviceAccount := other.serviceAccount); }
    if |c.audiences| == 0 { c := c.(audiences := other.audiences); }
    if c.expiration == 0 { c := c.(expiration := other.expiration); }
    return if ValidKubernetes(c) then Some(c) else None;
  }

  method MergeJwt(a: Jwt, other: Jwt) returns (r: Option<Jwt>)
    ensures r == if ValidJwt(FilledJwt(a, other)) then Some(FilledJwt(a, other)) else None
  {
    var c := a;
    if c.role == "" { c := c.(role := other.role); }
    if c.secretRef == "" { c := c.(secretRef := other.secretRef); }
    if c.serviceAccount == "" { c := c.(serviceAccount := other.serviceAccount); }
    if |c.audiences| == 0 { c := c.(audiences := other.audiences); }
    if c.expiration == 0 { c := c.(expiration := other.expiration); }
    return if ValidJwt(c) then Some(c) else None;
  }

  method MergeAppRole(a: AppRole, other: AppRole) returns (r: Option<AppRole>)
    ensures r == if ValidAppRole(FilledAppRole(a, other)) then Some(FilledAppRole(a, other)) else None
  {
    var c := a;
    if c.roleId == "" { c := c.(roleId := other.roleId); }
    if c.secretRef == "" { c := c.(secretRef := other.secretRef); }
    return if ValidAppRole(c) then Some(c) else None;
  }

  method MergeAws(a: Aws, other: Aws) returns (r: Option<Aws>)
    ensures r == if ValidAws(FilledAws(a, other)) then Some(FilledAws(a, other)) else None
  {
    var c := a;
    if c.role == "" { c := c.(role := other.role); }
    if c.region == "" { c := c.(region := other.region); }
    if c.headerValue == "" { c := c.(headerValue := other.headerValue); }
    if c.sessionName == "" { c := c.(sessionName := other.sessionName); }
    if c.stsEndpoint == "" { c := c.(stsEndpoint := other.stsEndpoint); }
    if c.iamEndpoint == "" { c := c.(iamEndpoint := other.iamEndpoint); }
    if c.secretRef == "" { c := c.(secretRef := other.secretRef); }
    if c.irsaServiceAccount == "" { c := c.(irsaServiceAccount := other.irsaServiceAccount); }
    return if ValidAws(c) then Some(c) else None;
  }

  method MergeGcp(a: Gcp, other: Gcp) returns (r: Option<Gcp>)
    ensures r == if ValidGcp(FilledGcp(a, other)) then Some(FilledGcp(a, other)) else None
  {
    var c := a;
    if c.role == "" { c := c.(role := other.role); }
    if c.serviceAccount == "" { c := c.(serviceAccount := other.serviceAccount); }
    if c.region == "" { c := c.(region := other.region); }
    if c.clusterName == "" { c := c.(clusterName := other.clusterName); }
    if c.projectID == "" { c := c.(projectID := other.projectID); }
    return if ValidGcp(c) then Some(c) else None;
  }

  // ---------------------------------------------------------------- objects

  datatype MergeStrategy = MergeStrategy(headers: Strategy, params: Strategy)

  datatype GlobalRef = GlobalRef(
    name: string, namespace: string, strategy: Option<MergeStrategy>, allowDefault: Option<bool>)

  datatype AuthSpec = AuthSpec(
    connectionRef: string,
    globalRef: Option<GlobalRef>,
    namespace: string,
    allowedNamespaces: seq<string>,
    authMethod: Method,
    mount: string,
    params: StringMap,
    headers: StringMap,
    kubernetes: Option<Kubernetes>,
    jwt: Option<Jwt>,
    appRole: Option<AppRole>,
    aws: Option<Aws>,
    gcp: Option<Gcp>)

  datatype VaultAuth = VaultAuth(namespace: string, name: string, spec: AuthSpec)

  datatype Global = Global(
    namespace: string,
    name: string,
    allowedNamespaces: seq<string>,
    connectionRef: string,
    defaultNamespace: string,
    defaultMethod: Method,
    defaultMount: string,
    defaultParams: StringMap,
    defaultHeaders: StringMap,
    kubernetes: Option<GlobalConfig<Kubernetes>>,
    jwt: Option<GlobalConfig<Jwt>>,
    appRole: Option<GlobalConfig<AppRole>>,
    aws: Option<GlobalConfig<Aws>>,
    gcp: Option<GlobalConfig<Gcp>>)

  datatype MergeError =
    | DefaultNotAllowed
    | InvalidRef
    | GlobalNotFound
    | DefaultNotFound
    | NamespaceNotAllowed
    | InvalidMerge
    | PlainError

  /** The cluster's VaultAuthGlobals by (namespace, name), and the operator's settings. */
  datatype Cluster = Cluster(
    globals: map<(string, string), Global>, operatorNamespace: string, allowDefaultGlobals: Option<bool>)

  // ---------------------------------------------------------------- finding the global object

  predicate IsAllowedNamespace(g: Global, target: string, operatorNamespace: string) {
    || target == g.namespace
    || (g.name == NAME_DEFAULT && g.namespace == operatorNamespace)
    || g.allowedNamespaces == ["*"]
    || target in g.allowedNamespaces
  }

  function FirstDefault(c: Cluster, namespaces: seq<string>): Option<Global> {
    if namespaces == [] then None
    else if namespaces[0] != "" && (namespaces[0], NAME_DEFAULT) in c.globals then
      Some(c.globals[(namespaces[0], NAME_DEFAULT)])
    else FirstDefault(c, namespaces[1..])
  }

  /** `FindVaultAuthGlobalDefault`: empty and repeated namespaces are passed over. */
  method FindDefault(c: Cluster, namespaces: seq<string>) returns (r: Option<Global>)
    ensures r == FirstDefault(c, namespaces)
  {
    var seen: set<string> := {};
    for i := 0 to |namespaces|
      invariant forall ns :: ns in seen ==> (ns, NAME_DEFAULT) !in c.globals
      invariant FirstDefault(c, namespaces) == FirstDefault(c, namespaces[i..])
    {
      var ns := namespaces[i];
      if ns == "" || ns in seen {
        continue;
      }
      seen := seen + {ns};
      if (ns, NAME_DEFAULT) in c.globals {
        return Some(c.globals[(ns, NAME_DEFAULT)]);
      }
    }
    return None;
  }

  function Resolve(o: VaultAuth, ref: GlobalRef, c: Cluster): Result<Global, MergeError> {
    if c.allowDefaultGlobals == Some(false) && ref.allowDefault == Some(true) then Err(DefaultNotAllowed)
    else
      var withDefault := c.allowDefaultGlobals == Some(true) && ref.allowDefault == Some(true);
      var namespace := if ref.namespace != "" then ref.namespace
                       else if ref.name != "" then o.namespace else "";
      if ref.name != "" && namespace != "" then
        if (namespace, ref.name) in c.globals then Ok(c.globals[(namespace, ref.name)]) else Err(GlobalNotFound)
      else if !withDefault || ref.name != "" then Err(InvalidRef)
      else
        var found := FirstDefault(c, if namespace != "" then [namespace] else [o.namespace, c.operatorNamespace]);
        if found.Some? then Ok(found.value) else Err(DefaultNotFound)
  }

  // ---------------------------------------------------------------- filling in

  function FirstNonEmpty(ss: seq<string>): string {
    if ss == [] then "" else if ss[0] != "" then ss[0] else FirstNonEmpty(ss[1..])
  }

  function FirstNonEmptyMap(ms: seq<StringMap>): StringMap {
    if ms == [] then map[] else if ms[0] != map[] then ms[0] else FirstNonEmptyMap(ms[1..])
  }

  method FirstNonZeroLenMap(ms: seq<StringMap>) returns (r: StringMap)
    ensures r == FirstNonEmptyMap(ms)
  {
    r := map[];
    for i := 0 to |ms|
      invariant r == map[] && FirstNonEmptyMap(ms) == FirstNonEmptyMap(ms[i..])
    {
      if |ms[i]| > 0 {
        return ms[i];
      }
    }
  }

  /** Later maps win. */
  function UnionMaps(ms: seq<StringMap>): StringMap {
    if ms == [] then map[] else UnionMaps(ms[..|ms| - 1]) + ms[|ms| - 1]
  }

  /** `mergeMaps`, map by map and entry by entry. */
  method MergeMaps(ms: seq<StringMap>) returns (r: StringMap)
    ensures r == UnionMaps(ms)
  {
    r := map[];
    for i := 0 to |ms|
      invariant r == UnionMaps(ms[..i])
    {
      r := PutAll(r, ms[i]);
      assert ms[..i + 1][..i] == ms[..i];
    }
    assert ms[..|ms|] == ms;
  }

  method PutAll<K(==), V>(to: map<K, V>, m: map<K, V>) returns (r: map<K, V>)
    ensures r == to + m
  {
    r := to;
    var keys := m.Keys;
    while keys != {}
      invariant keys <= m.Keys
      invariant r + m == to + m
      invariant forall k :: k in m && k !in keys ==> k in r && r[k] == m[k]
      decreases keys
    {
      var k :| k in keys;
      keys := keys - {k};
      r := r[k := m[k]];
      assert r + m == to + m;
    }
    assert r + m == r;
  }

  /** What the chosen method contributes beside its own configuration. */
  datatype Shared = Shared(mount: string, namespace: string, params: StringMap, headers: StringMap)

  const NOTHING_SHARED: Shared := Shared("", "", map[], map[])

  function SharedOf<C>(g: Option<GlobalConfig<C>>): Shared {
    if g.None? then NOTHING_SHARED
    else Shared(g.value.mount, g.value.namespace, g.value.params, g.value.headers)
  }

  /** The method's configuration after the merge: untouched without a global section, else filled and valid. */
  function MergedConfig<C>(
    local: Option<C>, global: Option<GlobalConfig<C>>,
    filled: (C, C) -> C, valid: C -> bool, missing: MergeError, unmergeable: MergeError)
    : Result<Option<C>, MergeError>
  {
    if global.None? then if local.None? then Err(missing) else Ok(local)
    else if local.None? then
      if valid(global.value.config) then Ok(Some(global.value.config)) else Err(InvalidMerge)
    else
      var merged := filled(local.value, global.value.config);
      if valid(merged) then Ok(Some(merged)) else Err(unmergeable)
  }

  /** The switch over the method: the spec with that method's section merged, and the shared settings. */
  function MergedMethod(s: AuthSpec, g: Global): Result<(AuthSpec, Shared), MergeError> {
    match s.authMethod
    case UseKubernetes =>
      (match MergedConfig(s.kubernetes, g.kubernetes, FilledKubernetes, ValidKubernetes, InvalidMerge, InvalidMerge)
       case Err(e) => Err(e)
       case Ok(m) => Ok((s.(kubernetes := m), SharedOf(g.kubernetes))))
    case UseJwt =>
      (match MergedConfig(s.jwt, g.jwt, FilledJwt, ValidJwt, InvalidMerge, InvalidMerge)
       case Err(e) => Err(e)
       case Ok(m) => Ok((s.(jwt := m), SharedOf(g.jwt))))
    case UseAppRole =>
      (match MergedConfig(s.appRole, g.appRole, FilledAppRole, ValidAppRole, InvalidMerge, InvalidMerge)
       case Err(e) => Err(e)
       case Ok(m) => Ok((s.(appRole := m), SharedOf(g.appRole))))
    case UseAws =>
      (match MergedConfig(s.aws, g.aws, FilledAws, ValidAws, PlainError, PlainError)
       case Err(e) => Err(e)
       case Ok(m) => Ok((s.(aws := m), SharedOf(g.aws))))
    case UseGcp =>
      (match MergedConfig(s.gcp, g.gcp, FilledGcp, ValidGcp, InvalidMerge, PlainError)
       case Err(e) => Err(e)
       case Ok(m) => Ok((s.(gcp := m), SharedOf(g.gcp))))
    case _ => Err(InvalidMerge)
  }

  function MergedMaps(strategy: Strategy, local: StringMap, shared: StringMap, default_: StringMap): Option<StringMap> {
    match strategy
    case Union => Some(UnionMaps([default_, shared, local]))
    case Replace => Some(FirstNonEmptyMap([local, shared, default_]))
    case UnknownStrategy(_) => None
    case _ => Some(local)
  }

  function ParamsStrategy(r: GlobalRef): Strategy {
    if r.strategy.Some? then r.strategy.value.params else Unstated
  }

  function HeadersStrategy(r: GlobalRef): Strategy {
    if r.strategy.Some? then r.strategy.value.headers else Unstated
  }

  function EffectiveMethod(s: AuthSpec, g: Global): Method {
    if s.authMethod == Unset then g.defaultMethod else s.authMethod
  }

  /** The merge with a resolved and permitted global object. */
  function MergedSpec(s: AuthSpec, ref: GlobalRef, g: Global): Result<AuthSpec, MergeError> {
    if s.authMethod == Unset && g.defaultMethod == Unset then Err(InvalidMerge)
    else
      var s1 := s.(authMethod := EffectiveMethod(s, g));
      match MergedMethod(s1, g)
      case Err(e) => Err(e)
      case Ok((s2, shared)) =>
        var mount := FirstNonEmpty([s2.mount, shared.mount, g.defaultMount]);
        if mount == "" then Err(InvalidMerge)
        else
          var params := MergedMaps(ParamsStrategy(ref), s2.params, shared.params, g.defaultParams);
          var headers := MergedMaps(HeadersStrategy(ref), s2.headers, shared.headers, g.defaultHeaders);
          if params.None? || headers.None? then Err(InvalidMerge)
          else
            Ok(s2.(mount := mount,
                   namespace := FirstNonEmpty([s2.namespace, shared.namespace, g.defaultNamespace]),
                   params := params.value,
                   headers := headers.value,
                   connectionRef := FirstNonEmpty([s2.connectionRef, g.connectionRef])))
  }

  /** `MergeInVaultAuthGlobal`. */
  function Merge(o: VaultAuth, c: Cluster): Result<VaultAuth, MergeError> {
    if o.spec.globalRef.None? then Ok(o)
    else
      match Resolve(o, o.spec.globalRef.value, c)
      case Err(e) => Err(e)
      case Ok(g) =>
        if !IsAllowedNamespace(g, o.namespace, c.operatorNamespace) then Err(NamespaceNotAllowed)
        else
          match MergedSpec(o.spec, o.spec.globalRef.value, g)
          case Err(e) => Err(e)
          case Ok(spec) => Ok(o.(spec := spec))
  }

  // ---------------------------------------------------------------- the merge, step by step

  method ResolveGlobal(o: VaultAuth, ref: GlobalRef, c: Cluster) returns (r: Result<Global, MergeError>)
    ensures r == Resolve(o, ref, c)
  {
    var withDefault := false;
    if c.allowDefaultGlobals.Some? {
      if c.allowDefaultGlobals.value {
        withDefault := ref.allowDefault == Some(true);
      } else if ref.allowDefault == Some(true) {
        return Err(DefaultNotAllowed);
      }
    }
    var namespace := ref.namespace;
    if namespace == "" && ref.name != "" {
      namespace := o.namespace;
    }
    if ref.name == "" || namespace == "" {
      if !withDefault || ref.name != "" {
        return Err(InvalidRef);
      }
      var search := [o.namespace, c.operatorNamespace];
      if namespace != "" {
        search := [namespace];
      }
      var found := FindDefault(c, search);
      return if found.Some? then Ok(found.value) else Err(DefaultNotFound);
    }
    return if (namespace, ref.name) in c.globals then Ok(c.globals[(namespace, ref.name)]) else Err(GlobalNotFound);
  }

  method MergeKubernetesSection(s: AuthSpec, g: Global) returns (r: Result<(AuthSpec, Shared), MergeError>)
    requires s.authMethod == UseKubernetes
    ensures r == MergedMethod(s, g)
  {
    if s.kubernetes.None? && g.kubernetes.None? {
      return Err(InvalidMerge);
    }
    var c := s;
    if g.kubernetes.Some? {
      var src := g.kubernetes.value.config;
      if s.kubernetes.None? {
        c := c.(kubernetes := Some(src));
      } else {
        var merged := MergeKubernetes(s.kubernetes.value, src);
        if merged.None? {
          return Err(InvalidMerge);
        }
        c := c.(kubernetes := merged);
      }
      if !ValidKubernetes(c.kubernetes.value) {
        return Err(InvalidMerge);
      }
    }
    return Ok((c, SharedOf(g.kubernetes)));
  }

  method MergeJwtSection(s: AuthSpec, g: Global) returns (r: Result<(AuthSpec, Shared), MergeError>)
    requires s.authMethod == UseJwt
    ensures r == MergedMethod(s, g)
  {
    if s.jwt.None? && g.jwt.None? {
      return Err(InvalidMerge);
    }
    var c := s;
    if g.jwt.Some? {
      var src := g.jwt.value.config;
      if s.jwt.None? {
        c := c.(jwt := Some(src));
      } else {
        var merged := MergeJwt(s.jwt.value, src);
        if merged.None? {
          return Err(InvalidMerge);
        }
        c := c.(jwt := merged);
      }
      if !ValidJwt(c.jwt.value) {
        return Err(InvalidMerge);
      }
    }
    return Ok((c, SharedOf(g.jwt)));
  }

  method MergeAppRoleSection(s: AuthSpec, g: Global) returns (r: Result<(AuthSpec, Shared), MergeError>)
    requires s.authMethod == UseAppRole
    ensures r == MergedMethod(s, g)
  {
    if s.appRole.None? && g.appRole.None? {
      return Err(InvalidMerge);
    }
    var c := s;
    if g.appRole.Some? {
      var src := g.appRole.value.config;
      if s.appRole.None? {
        c := c.(appRole := Some(src));
      } else {
        var merged := MergeAppRole(s.appRole.value, src);
        if merged.None? {
          return Err(InvalidMerge);
        }
        c := c.(appRole := merged);
      }
      if !ValidAppRole(c.appRole.value) {
        return Err(InvalidMerge);
      }
    }
    return Ok((c, SharedOf(g.appRole)));
  }

  method MergeAwsSection(s: AuthSpec, g: Global) returns (r: Result<(AuthSpec, Shared), MergeError>)
    requires s.authMethod == UseAws
    ensures r == MergedMethod(s, g)
  {
    if s.aws.None? && g.aws.None? {
      return Err(PlainError);
    }
    var c := s;
    if g.aws.Some? {
      var src := g.aws.value.config;
      if s.aws.None? {
        c := c.(aws := Some(src));
      } else {
        var merged := MergeAws(s.aws.value, src);
        if merged.None? {
          return Err(PlainError);
        }
        c := c.(aws := merged);
      }
      if !ValidAws(c.aws.value) {
        return Err(InvalidMerge);
      }
    }
    return Ok((c, SharedOf(g.aws)));
  }

  method MergeGcpSection(s: AuthSpec, g: Global) returns (r: Result<(AuthSpec, Shared), MergeError>)
    requires s.authMethod == UseGcp
    ensures r == MergedMethod(s, g)
  {
    if s.gcp.None? && g.gcp.None? {
      return Err(InvalidMerge);
    }
    var c := s;
    if g.gcp.Some? {
      var src := g.gcp.value.config;
      if s.gcp.None? {
        c := c.(gcp := Some(src));
      } else {
        var merged := MergeGcp(s.gcp.value, src);
        if merged.None? {
          return Err(PlainError);
        }
        c := c.(gcp := merged);
      }
      if !ValidGcp(c.gcp.value) {
        return Err(InvalidMerge);
      }
    }
    return Ok((c, SharedOf(g.gcp)));
  }

  method MergeMethodSection(s: AuthSpec, g: Global) returns (r: Result<(AuthSpec, Shared), MergeError>)
    ensures r == MergedMethod(s, g)
  {
    match s.authMethod
    case UseKubernetes => r := MergeKubernetesSection(s, g);
    case UseJwt => r := MergeJwtSection(s, g);
    case UseAppRole => r := MergeAppRoleSection(s, g);
    case UseAws => r := MergeAwsSection(s, g);
    case UseGcp => r := MergeGcpSection(s, g);
    case _ => r := Err(InvalidMerge);
  }

  method MergeByStrategy(strategy: Strategy, local: StringMap, shared: StringMap, default_: StringMap)
    returns (r: Option<StringMap>)
    ensures r == MergedMaps(strategy, local, shared, default_)
  {
    match strategy
    case Union =>
      var m := MergeMaps([default_, shared, local]);
      r := Some(m);
    case Replace =>
      var m := FirstNonZeroLenMap([local, shared, default_]);
      r := Some(m);
    case UnknownStrategy(_) => r := None;
    case _ => r := Some(local);
  }

  /** `MergeInVaultAuthGlobal`, on a copy of the VaultAuth that is filled in field by field. */
  method MergeInVaultAuthGlobal(o: VaultAuth, c: Cluster) returns (r: Result<VaultAuth, MergeError>)
    ensures r == Merge(o, c)
  {
    if o.spec.globalRef.None? {
      return Ok(o);
    }
    var ref := o.spec.globalRef.value;
    var resolved := ResolveGlobal(o, ref, c);
    if resolved.Err? {
      return Err(resolved.error);
    }
    var g := resolved.value;
    if !IsAllowedNamespace(g, o.namespace, c.operatorNamespace) {
      return Err(NamespaceNotAllowed);
    }
    var spec := o.spec;
    if spec.authMethod == Unset {
      if g.defaultMethod == Unset {
        return Err(InvalidMerge);
      }
      spec := spec.(authMethod := g.defaultMethod);
    }
    var section := MergeMethodSection(spec, g);
    if section.Err? {
      return Err(section.error);
    }
    var shared := section.value.1;
    spec := section.value.0;
    spec := spec.(mount := FirstNonEmpty([spec.mount, shared.mount, g.defaultMount]));
    if spec.mount == "" {
      return Err(InvalidMerge);
    }
    spec := spec.(namespace := FirstNonEmpty([spec.namespace, shared.namespace, g.defaultNamespace]));
    var params := MergeByStrategy(ParamsStrategy(ref), spec.params, shared.params, g.defaultParams);
    if params.None? {
      return Err(InvalidMerge);
    }
    spec := spec.(params := params.value);
    var headers := MergeByStrategy(HeadersStrategy(ref), spec.headers, shared.headers, g.defaultHeaders);
    if headers.None? {
      return Err(InvalidMerge);
    }
    spec := spec.(headers := headers.value);
    spec := spec.(connectionRef := FirstNonEmpty([spec.connectionRef, g.connectionRef]));
    return Ok(o.(spec := spec));
  }

  // ---------------------------------------------------------------- idempotence

  lemma MergedConfigIdempotent<C>(
    local: Option<C>, global: Option<GlobalConfig<C>>,
    filled: (C, C) -> C, valid: C -> bool, missing: MergeError, unmergeable: MergeError)
    requires global.Some? ==> filled(global.value.config, global.value.config) == global.value.config
    requires global.Some? && local.Some? ==>
      var b := global.value.config; filled(filled(local.value, b), b) == filled(local.value, b)
    ensures var r := MergedConfig(local, global, filled, valid, missing, unmergeable);
      r.Ok? ==> r.value.Some? && MergedConfig(r.value, global, filled, valid, missing, unmergeable) == r
  {
  }

  lemma MergedMethodIdempotent(s: AuthSpec, g: Global)
    requires MergedMethod(s, g).Ok?
    ensures MergedMethod(MergedMethod(s, g).value.0, g) == MergedMethod(s, g)
  {
    match s.authMethod
    case UseKubernetes =>
      MergedConfigIdempotent(s.kubernetes, g.kubernetes, FilledKubernetes, ValidKubernetes, InvalidMerge, InvalidMerge);
    case UseJwt =>
      MergedConfigIdempotent(s.jwt, g.jwt, FilledJwt, ValidJwt, InvalidMerge, InvalidMerge);
    case UseAppRole =>
      MergedConfigIdempotent(s.appRole, g.appRole, FilledAppRole, ValidAppRole, InvalidMerge, InvalidMerge);
    case UseAws =>
      MergedConfigIdempotent(s.aws, g.aws, FilledAws, ValidAws, PlainError, PlainError);
    case UseGcp =>
      MergedConfigIdempotent(s.gcp, g.gcp, FilledGcp, ValidGcp, InvalidMerge, PlainError);
    case _ =>
  }

  /** Only the section of the chosen method changes. */
  lemma MergedMethodShape(s: AuthSpec, g: Global)
    requires MergedMethod(s, g).Ok?
    ensures var t := MergedMethod(s, g).value.0;
      t == s.(kubernetes := t.kubernetes, jwt := t.jwt, appRole := t.appRole, aws := t.aws, gcp := t.gcp)
  {
  }

  lemma UnionOfThree(a: StringMap, b: StringMap, c: StringMap)
    ensures UnionMaps([a, b, c]) == a + b + c
  {
    assert [a, b, c][..2] == [a, b] && [a, b][..1] == [a] && [a][..0] == [];
    assert UnionMaps([a]) == map[] + a == a;
  }

  lemma MergedMapsIdempotent(strategy: Strategy, local: StringMap, shared: StringMap, default_: StringMap)
    ensures var r := MergedMaps(strategy, local, shared, default_);
      r.Some? ==> MergedMaps(strategy, r.value, shared, default_) == r
  {
    UnionOfThree(default_, shared, local);
    var u := default_ + shared + local;
    UnionOfThree(default_, shared, u);
    assert default_ + shared + u == u;
  }

  lemma FirstOfThree(a: string, b: string, c: string)
    ensures FirstNonEmpty([a, b, c]) == Or(a, Or(b, c)) && FirstNonEmpty([a, b]) == Or(a, b)
  {
    assert [c][1..] == [] && FirstNonEmpty([c]) == c;
    assert [b][1..] == [] && FirstNonEmpty([b]) == b;
    assert [b, c][1..] == [c] && FirstNonEmpty([b, c]) == Or(b, c);
    assert [a, b, c][1..] == [b, c] && [a, b][1..] == [b];
  }

  /** The settings outside the sections, in closed form. */
  lemma MergedSpecShape(s: AuthSpec, ref: GlobalRef, g: Global)
    requires MergedSpec(s, ref, g).Ok?
    ensures var s1 := s.(authMethod := EffectiveMethod(s, g)); var t := MergedSpec(s, ref, g).value;
      && MergedMethod(s1, g).Ok?
      && var (s2, shared) := MergedMethod(s1, g).value;
      && t.authMethod == s1.authMethod != Unset && t.globalRef == s.globalRef
      && t.allowedNamespaces == s.allowedNamespaces
      && t.mount == Or(s.mount, Or(shared.mount, g.defaultMount)) != ""
      && t.namespace == Or(s.namespace, Or(shared.namespace, g.defaultNamespace))
      && t.connectionRef == Or(s.connectionRef, g.connectionRef)
      && Some(t.params) == MergedMaps(ParamsStrategy(ref), s.params, shared.params, g.defaultParams)
      && Some(t.headers) == MergedMaps(HeadersStrategy(ref), s.headers, shared.headers, g.defaultHeaders)
      && t == s2.(mount := t.mount, namespace := t.namespace, params := t.params, headers := t.headers,
                  connectionRef := t.connectionRef)
  {
    var s1 := s.(authMethod := EffectiveMethod(s, g));
    MergedMethodShape(s1, g);
    var (s2, shared) := MergedMethod(s1, g).value;
    FirstOfThree(s2.mount, shared.mount, g.defaultMount);
    FirstOfThree(s2.namespace, shared.namespace, g.defaultNamespace);
    FirstOfThree(s2.connectionRef, g.connectionRef, "");
  }

  lemma MergedSpecIdempotent(s: AuthSpec, ref: GlobalRef, g: Global)
    requires MergedSpec(s, ref, g).Ok?
    ensures MergedSpec(MergedSpec(s, ref, g).value, ref, g) == MergedSpec(s, ref, g)
  {
    var s1 := s.(authMethod := EffectiveMethod(s, g));
    MergedSpecShape(s, ref, g);
    MergedMethodIdempotent(s1, g);
    MergedMethodShape(s1, g);
    var (s2, shared) := MergedMethod(s1, g).value;
    var t := MergedSpec(s, ref, g).value;
    assert t.(authMethod := EffectiveMethod(t, g)) == t;
    MethodIgnoresTheRest(s2, t, g);
    MergedMapsIdempotent(ParamsStrategy(ref), s.params, shared.params, g.defaultParams);
    MergedMapsIdempotent(HeadersStrategy(ref), s.headers, shared.headers, g.defaultHeaders);
    FirstOfThree(t.mount, shared.mount, g.defaultMount);
    FirstOfThree(t.namespace, shared.namespace, g.defaultNamespace);
    FirstOfThree(t.connectionRef, g.connectionRef, "");
  }

  /** Merging a method's section looks at nothing but the method and the sections. */
  lemma MethodIgnoresTheRest(s: AuthSpec, t: AuthSpec, g: Global)
    requires t == s.(mount := t.mount, namespace := t.namespace, params := t.params, headers := t.headers,
                     connectionRef := t.connectionRef)
    requires MergedMethod(s, g).Ok? && MergedMethod(s, g).value.0 == s
    ensures MergedMethod(t, g) == Ok((t, MergedMethod(s, g).value.1))
  {
  }

  /** Merging a successful result with the same cluster again changes nothing. */
  lemma MergeIdempotent(o: VaultAuth, c: Cluster)
    requires Merge(o, c).Ok?
    ensures Merge(Merge(o, c).value, c) == Merge(o, c)
  {
    if o.spec.globalRef.Some? {
      var ref := o.spec.globalRef.value;
      var g := Resolve(o, ref, c).value;
      MergedSpecIdempotent(o.spec, ref, g);
      MergedSpecShape(o.spec, ref, g);
    }
  }

  // ---------------------------------------------------------------- local bias

  predicate Keeps(a: string, b: string) { a != "" ==> b == a }

  /** Every setting the VaultAuth makes itself survives; maps survive entry by entry. */
  predicate LocallyBiased(s: AuthSpec, t: AuthSpec) {
    && (s.authMethod != Unset ==> t.authMethod == s.authMethod)
    && Keeps(s.mount, t.mount) && Keeps(s.namespace, t.namespace) && Keeps(s.connectionRef, t.connectionRef)
    && (forall k :: k in s.params ==> k in t.params && t.params[k] == s.params[k])
    && (forall k :: k in s.headers ==> k in t.headers && t.headers[k] == s.headers[k])
    && t.globalRef == s.globalRef && t.allowedNamespaces == s.allowedNamespaces
  }

  predicate KeepsKubernetes(a: Kubernetes, b: Kubernetes) {
    && Keeps(a.role, b.role) && Keeps(a.serviceAccount, b.serviceAccount)
    && (a.audiences != [] ==> b.audiences == a.audiences) && (a.expiration != 0 ==> b.expiration == a.expiration)
  }

  predicate KeepsJwt(a: Jwt, b: Jwt) {
    && Keeps(a.role, b.role) && Keeps(a.secretRef, b.secretRef) && Keeps(a.serviceAccount, b.serviceAccount)
    && (a.audiences != [] ==> b.audiences == a.audiences) && (a.expiration != 0 ==> b.expiration == a.expiration)
  }

  predicate KeepsAppRole(a: AppRole, b: AppRole) { Keeps(a.roleId, b.roleId) && Keeps(a.secretRef, b.secretRef) }

  predicate KeepsAws(a: Aws, b: Aws) {
    && Keeps(a.role, b.role) && Keeps(a.region, b.region) && Keeps(a.headerValue, b.headerValue)
    && Keeps(a.sessionName, b.sessionName) && Keeps(a.stsEndpoint, b.stsEndpoint)
    && Keeps(a.iamEndpoint, b.iamEndpoint) && Keeps(a.secretRef, b.secretRef)
    && Keeps(a.irsaServiceAccount, b.irsaServiceAccount)
  }

  predicate KeepsGcp(a: Gcp, b: Gcp) {
    && Keeps(a.role, b.role) && Keeps(a.serviceAccount, b.serviceAccount) && Keeps(a.region, b.region)
    && Keeps(a.clusterName, b.clusterName) && Keeps(a.projectID, b.projectID)
  }

  /** A section that the VaultAuth has stays, with everything it sets. */
  predicate KeepsSection<C>(a: Option<C>, b: Option<C>, keeps: (C, C) -> bool) {
    a.Some? ==> b.Some? && keeps(a.value, b.value)
  }

  /** The same for the sections of the auth methods. */
  predicate SectionsBiased(s: AuthSpec, t: AuthSpec) {
    && KeepsSection(s.kubernetes, t.kubernetes, KeepsKubernetes)
    && KeepsSection(s.jwt, t.jwt, KeepsJwt)
    && KeepsSection(s.appRole, t.appRole, KeepsAppRole)
    && KeepsSection(s.aws, t.aws, KeepsAws)
    && KeepsSection(s.gcp, t.gcp, KeepsGcp)
  }

  lemma MergedMapsKeepLocal(strategy: Strategy, local: StringMap, shared: StringMap, default_: StringMap)
    ensures var r := MergedMaps(strategy, local, shared, default_);
      r.Some? ==> forall k :: k in local ==> k in r.value && r.value[k] == local[k]
  {
    UnionOfThree(default_, shared, local);
  }

  /** Whatever the global object holds, the merge never overrides the VaultAuth. */
  lemma MergeIsLocallyBiased(o: VaultAuth, c: Cluster)
    requires Merge(o, c).Ok?
    ensures LocallyBiased(o.spec, Merge(o, c).value.spec) && SectionsBiased(o.spec, Merge(o, c).value.spec)
  {
    if o.spec.globalRef.Some? {
      var ref := o.spec.globalRef.value;
      var g := Resolve(o, ref, c).value;
      var s1 := o.spec.(authMethod := EffectiveMethod(o.spec, g));
      MergedSpecShape(o.spec, ref, g);
      SectionsKeepLocal(s1, g);
      var shared := MergedMethod(s1, g).value.1;
      MergedMapsKeepLocal(ParamsStrategy(ref), o.spec.params, shared.params, g.defaultParams);
      MergedMapsKeepLocal(HeadersStrategy(ref), o.spec.headers, shared.headers, g.defaultHeaders);
    }
  }

  lemma MergedConfigKeeps<C>(
    local: Option<C>, global: Option<GlobalConfig<C>>, keeps: (C, C) -> bool,
    filled: (C, C) -> C, valid: C -> bool, missing: MergeError, unmergeable: MergeError)
    requires local.Some? ==> keeps(local.value, local.value)
    requires local.Some? && global.Some? ==> keeps(local.value, filled(local.value, global.value.config))
    ensures var r := MergedConfig(local, global, filled, valid, missing, unmergeable);
      r.Ok? ==> KeepsSection(local, r.value, keeps)
  {
  }

  lemma SectionsKeepThemselves(s: AuthSpec)
    ensures SectionsBiased(s, s)
  {
  }

  lemma SectionsKeepLocal(s: AuthSpec, g: Global)
    requires MergedMethod(s, g).Ok?
    ensures SectionsBiased(s, MergedMethod(s, g).value.0)
  {
    SectionsKeepThemselves(s);
    match s.authMethod
    case UseKubernetes =>
      MergedConfigKeeps(s.kubernetes, g.kubernetes, KeepsKubernetes,
                        FilledKubernetes, ValidKubernetes, InvalidMerge, InvalidMerge);
    case UseJwt =>
      MergedConfigKeeps(s.jwt, g.jwt, KeepsJwt, FilledJwt, ValidJwt, InvalidMerge, InvalidMerge);
    case UseAppRole =>
      MergedConfigKeeps(s.appRole, g.appRole, KeepsAppRole, FilledAppRole, ValidAppRole, InvalidMerge, InvalidMerge);
    case UseAws =>
      MergedConfigKeeps(s.aws, g.aws, KeepsAws, FilledAws, ValidAws, PlainError, PlainError);
    case UseGcp =>
      MergedConfigKeeps(s.gcp, g.gcp, KeepsGcp, FilledGcp, ValidGcp, InvalidMerge, PlainError);
    case _ =>
  }

  /** A union map takes each key's value from the most local map that holds it, and holds nothing else. */
  lemma UnionTakesMostLocal(default_: StringMap, shared: StringMap, local: StringMap, k: string)
    ensures var u := UnionMaps([default_, shared, local]);
      && (k in u <==> k in local || k in shared || k in default_)
      && (k in local ==> u[k] == local[k])
      && (k !in local && k in shared ==> u[k] == shared[k])
      && (k !in local && k !in shared && k in default_ ==> u[k] == default_[k])
  {
    UnionOfThree(default_, shared, local);
  }

  predicate HasSection(s: AuthSpec) {
    match s.authMethod
    case UseKubernetes => s.kubernetes.Some?
    case UseJwt => s.jwt.Some?
    case UseAppRole => s.appRole.Some?
    case UseAws => s.aws.Some?
    case UseGcp => s.gcp.Some?
    case _ => false
  }

  /** A merged VaultAuth can be used: it names a method, has that method's section, and a mount. */
  lemma MergeIsUsable(o: VaultAuth, c: Cluster)
    requires o.spec.globalRef.Some? && Merge(o, c).Ok?
    ensures Merge(o, c).value.spec.mount != "" && HasSection(Merge(o, c).value.spec)
  {
    var ref := o.spec.globalRef.value;
    var g := Resolve(o, ref, c).value;
    MergedSpecShape(o.spec, ref, g);
    assert HasSection(MergedMethod(o.spec.(authMethod := EffectiveMethod(o.spec, g)), g).value.0);
  }
}
