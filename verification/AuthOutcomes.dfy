/**
 What a merged VaultAuth holds (common/common.go, api/v1beta1/vaultauth_types.go), stated field by
 field of the VaultAuth and the VaultAuthGlobal it refers to: which object that is, where each
 setting comes from, and when the merge fails.
 */
module AuthOutcomes {
  import opened Results
  import opened AuthMerge

  // ---------------------------------------------------------------- which object a reference means

  /** The default object of a namespace. */
  predicate HasDefault(c: Cluster, ns: string) { ns != "" && (ns, "default") in c.globals }

  /**
   A name means the object of that name in the namespace of the reference, or else of the
   VaultAuth.  Without a name, and only where defaults are allowed on both sides, it is the default
   object of the reference's namespace, or else that of the VaultAuth before the operator's.
   */
  lemma ReferenceMeans(o: VaultAuth, ref: GlobalRef, c: Cluster)
    ensures var r := Resolve(o, ref, c);
      var ns := if ref.namespace != "" then ref.namespace else o.namespace;
      var refused := c.allowDefaultGlobals == Some(false) && ref.allowDefault == Some(true);
      var defaults := c.allowDefaultGlobals == Some(true) && ref.allowDefault == Some(true);
      if refused then r == Err(DefaultNotAllowed)
      else if ref.name != "" then
        if ns == "" then r == Err(InvalidRef)
        else if (ns, ref.name) in c.globals then r == Ok(c.globals[(ns, ref.name)])
        else r == Err(GlobalNotFound)
      else if !defaults then r == Err(InvalidRef)
      else if ref.namespace != "" then
        r == if HasDefault(c, ref.namespace) then Ok(c.globals[(ref.namespace, "default")]) else Err(DefaultNotFound)
      else if HasDefault(c, o.namespace) then r == Ok(c.globals[(o.namespace, "default")])
      else if HasDefault(c, c.operatorNamespace) then r == Ok(c.globals[(c.operatorNamespace, "default")])
      else r == Err(DefaultNotFound)
  {
    FirstDefaultOf(c, ref.namespace, "");
    FirstDefaultOf(c, o.namespace, c.operatorNamespace);
  }

  lemma FirstDefaultOf(c: Cluster, a: string, b: string)
    ensures FirstDefault(c, [a]) == if HasDefault(c, a) then Some(c.globals[(a, "default")]) else None
    ensures FirstDefault(c, [a, b]) ==
      if HasDefault(c, a) then Some(c.globals[(a, "default")])
      else if HasDefault(c, b) then Some(c.globals[(b, "default")]) else None
  {
    assert [a][1..] == [] && [b][1..] == [] && [a, b][1..] == [b];
    assert FirstDefault(c, []) == None;
  }

  /** The object may be used from its own namespace, as the operator's default, or where it says so. */
  lemma AllowedIff(g: Global, target: string, operatorNamespace: string)
    ensures IsAllowedNamespace(g, target, operatorNamespace) <==>
      || target == g.namespace
      || (g.name == "default" && g.namespace == operatorNamespace)
      || (|g.allowedNamespaces| == 1 && g.allowedNamespaces[0] == "*")
      || exists i :: 0 <= i < |g.allowedNamespaces| && g.allowedNamespaces[i] == target
  {
  }

  // ---------------------------------------------------------------- the section of the method

  /** A setting of the VaultAuth stays, an empty one takes the global value. */
  predicate Filled(local: string, global: string, r: string) { r == if local != "" then local else global }

  predicate FilledList(local: seq<string>, global: seq<string>, r: seq<string>) {
    r == if |local| > 0 then local else global
  }

  predicate FilledNumber(local: int, global: int, r: int) { r == if local != 0 then local else global }

  predicate KubernetesFrom(a: Kubernetes, b: Kubernetes, r: Kubernetes) {
    && Filled(a.role, b.role, r.role) && Filled(a.serviceAccount, b.serviceAccount, r.serviceAccount)
    && FilledList(a.audiences, b.audiences, r.audiences) && FilledNumber(a.expiration, b.expiration, r.expiration)
  }

  predicate JwtFrom(a: Jwt, b: Jwt, r: Jwt) {
    && Filled(a.role, b.role, r.role) && Filled(a.secretRef, b.secretRef, r.secretRef)
    && Filled(a.serviceAccount, b.serviceAccount, r.serviceAccount)
    && FilledList(a.audiences, b.audiences, r.audiences) && FilledNumber(a.expiration, b.expiration, r.expiration)
  }

  predicate AppRoleFrom(a: AppRole, b: AppRole, r: AppRole) {
    Filled(a.roleId, b.roleId, r.roleId) && Filled(a.secretRef, b.secretRef, r.secretRef)
  }

  predicate AwsFrom(a: Aws, b: Aws, r: Aws) {
    && Filled(a.role, b.role, r.role) && Filled(a.region, b.region, r.region)
    && Filled(a.headerValue, b.headerValue, r.headerValue) && Filled(a.sessionName, b.sessionName, r.sessionName)
    && Filled(a.stsEndpoint, b.stsEndpoint, r.stsEndpoint) && Filled(a.iamEndpoint, b.iamEndpoint, r.iamEndpoint)
    && Filled(a.secretRef, b.secretRef, r.secretRef)
    && Filled(a.irsaServiceAccount, b.irsaServiceAccount, r.irsaServiceAccount)
  }

  predicate GcpFrom(a: Gcp, b: Gcp, r: Gcp) {
    && Filled(a.role, b.role, r.role) && Filled(a.serviceAccount, b.serviceAccount, r.serviceAccount)
    && Filled(a.region, b.region, r.region) && Filled(a.clusterName, b.clusterName, r.clusterName)
    && Filled(a.projectID, b.projectID, r.projectID)
  }

  /** A section without a global counterpart stays; one that is missing is the global one; others are filled in. */
  predicate SectionFrom<C(==)>(
    local: Option<C>, global: Option<GlobalConfig<C>>, from: (C, C, C) -> bool, r: Option<C>)
  {
    && r.Some?
    && if global.None? then r == local
       else if local.None? then r.value == global.value.config
       else from(local.value, global.value.config, r.value)
  }

  /** The merge of a section succeeds exactly when there is one and, where a global one took part, it is usable. */
  ghost predicate SectionOk<C(!new)>(
    local: Option<C>, global: Option<GlobalConfig<C>>, from: (C, C, C) -> bool, usable: C -> bool)
  {
    if global.None? then local.Some?
    else if local.None? then usable(global.value.config)
    else exists r: C :: from(local.value, global.value.config, r) && usable(r)
  }

  lemma ConfigMeans<C(!new)>(
    local: Option<C>, global: Option<GlobalConfig<C>>, filled: (C, C) -> C, from: (C, C, C) -> bool,
    valid: C -> bool, usable: C -> bool, missing: MergeError, unmergeable: MergeError)
    requires forall a, b, r :: from(a, b, r) <==> r == filled(a, b)
    requires forall a :: valid(a) == usable(a)
    ensures var r := MergedConfig(local, global, filled, valid, missing, unmergeable);
      && (r.Ok? <==> SectionOk(local, global, from, usable))
      && (r.Ok? ==> SectionFrom(local, global, from, r.value))
  {
    if local.Some? && global.Some? {
      assert from(local.value, global.value.config, filled(local.value, global.value.config));
    }
  }

  function UsableKubernetes(): Kubernetes -> bool { (k: Kubernetes) => k.role != "" && k.serviceAccount != "" }
  function UsableJwt(): Jwt -> bool { (k: Jwt) => k.role != "" }
  function UsableAppRole(): AppRole -> bool { (k: AppRole) => k.roleId != "" && k.secretRef != "" }
  function UsableAws(): Aws -> bool { (k: Aws) => k.role != "" }
  function UsableGcp(): Gcp -> bool { (k: Gcp) => k.role != "" && k.serviceAccount != "" }

  lemma KubernetesMeans(s: AuthSpec, g: Global)
    requires s.authMethod == UseKubernetes
    ensures MergedMethod(s, g).Ok? <==> SectionOk(s.kubernetes, g.kubernetes, KubernetesFrom, UsableKubernetes())
    ensures MergedMethod(s, g).Ok? ==>
      var t := MergedMethod(s, g).value.0;
      t == s.(kubernetes := t.kubernetes) && SectionFrom(s.kubernetes, g.kubernetes, KubernetesFrom, t.kubernetes)
  {
    ConfigMeans(s.kubernetes, g.kubernetes, FilledKubernetes, KubernetesFrom, ValidKubernetes, UsableKubernetes(),
                InvalidMerge, InvalidMerge);
  }

  lemma JwtMeans(s: AuthSpec, g: Global)
    requires s.authMethod == UseJwt
    ensures MergedMethod(s, g).Ok? <==> SectionOk(s.jwt, g.jwt, JwtFrom, UsableJwt())
    ensures MergedMethod(s, g).Ok? ==>
      var t := MergedMethod(s, g).value.0;
      t == s.(jwt := t.jwt) && SectionFrom(s.jwt, g.jwt, JwtFrom, t.jwt)
  {
    ConfigMeans(s.jwt, g.jwt, FilledJwt, JwtFrom, ValidJwt, UsableJwt(), InvalidMerge, InvalidMerge);
  }

  lemma AppRoleMeans(s: AuthSpec, g: Global)
    requires s.authMethod == UseAppRole
    ensures MergedMethod(s, g).Ok? <==> SectionOk(s.appRole, g.appRole, AppRoleFrom, UsableAppRole())
    ensures MergedMethod(s, g).Ok? ==>
      var t := MergedMethod(s, g).value.0;
      t == s.(appRole := t.appRole) && SectionFrom(s.appRole, g.appRole, AppRoleFrom, t.appRole)
  {
    ConfigMeans(s.appRole, g.appRole, FilledAppRole, AppRoleFrom, ValidAppRole, UsableAppRole(),
                InvalidMerge, InvalidMerge);
  }

  lemma AwsMeans(s: AuthSpec, g: Global)
    requires s.authMethod == UseAws
    ensures MergedMethod(s, g).Ok? <==> SectionOk(s.aws, g.aws, AwsFrom, UsableAws())
    ensures MergedMethod(s, g).Ok? ==>
      var t := MergedMethod(s, g).value.0;
      t == s.(aws := t.aws) && SectionFrom(s.aws, g.aws, AwsFrom, t.aws)
  {
    ConfigMeans(s.aws, g.aws, FilledAws, AwsFrom, ValidAws, UsableAws(), PlainError, PlainError);
  }

  lemma GcpMeans(s: AuthSpec, g: Global)
    requires s.authMethod == UseGcp
    ensures MergedMethod(s, g).Ok? <==> SectionOk(s.gcp, g.gcp, GcpFrom, UsableGcp())
    ensures MergedMethod(s, g).Ok? ==>
      var t := MergedMethod(s, g).value.0;
      t == s.(gcp := t.gcp) && SectionFrom(s.gcp, g.gcp, GcpFrom, t.gcp)
  {
    ConfigMeans(s.gcp, g.gcp, FilledGcp, GcpFrom, ValidGcp, UsableGcp(), InvalidMerge, PlainError);
  }

  /** A failed section is an invalid merge, except for these errors of AWS and GCP, which are handed on bare. */
  lemma SectionErrors(s: AuthSpec, g: Global)
    requires MergedMethod(s, g).Err?
    ensures MergedMethod(s, g).error ==
      if (s.authMethod == UseAws && (g.aws.None? || s.aws.Some?)) ||
         (s.authMethod == UseGcp && g.gcp.Some? && s.gcp.Some?)
      then PlainError else InvalidMerge
  {
  }

  // ---------------------------------------------------------------- the settings beside it

  /** What the global section of the method contributes beside its configuration. */
  predicate Contributes<C>(g: Option<GlobalConfig<C>>, shared: Shared) {
    if g.None? then shared.mount == "" && shared.namespace == "" && shared.params == map[] && shared.headers == map[]
    else
      && shared.mount == g.value.mount && shared.namespace == g.value.namespace
      && shared.params == g.value.params && shared.headers == g.value.headers
  }

  lemma SharedMeans(s: AuthSpec, g: Global)
    requires MergedMethod(s, g).Ok?
    ensures var shared := MergedMethod(s, g).value.1;
      && (s.authMethod == UseKubernetes ==> Contributes(g.kubernetes, shared))
      && (s.authMethod == UseJwt ==> Contributes(g.jwt, shared))
      && (s.authMethod == UseAppRole ==> Contributes(g.appRole, shared))
      && (s.authMethod == UseAws ==> Contributes(g.aws, shared))
      && (s.authMethod == UseGcp ==> Contributes(g.gcp, shared))
      && s.authMethod in {UseKubernetes, UseJwt, UseAppRole, UseAws, UseGcp}
  {
  }

  /** How maps are merged: "replace" takes the most local map that is not empty, no strategy keeps the local one. */
  lemma StrategyMeans(strategy: Strategy, local: StringMap, shared: StringMap, default_: StringMap)
    ensures var r := MergedMaps(strategy, local, shared, default_);
      && (r.None? <==> strategy.UnknownStrategy?)
      && (strategy == Replace ==>
            r == Some(if local != map[] then local else if shared != map[] then shared else default_))
      && (strategy in {Unstated, KeepLocal} ==> r == Some(local))
      && (strategy == Union ==> r.Some? && MostLocal(local, shared, default_, r.value))
  {
    FirstOfMaps(local, shared, default_);
    forall k
      ensures strategy == Union ==> MostLocalAt(local, shared, default_, UnionMaps([default_, shared, local]), k)
    {
      UnionTakesMostLocal(default_, shared, local, k);
    }
  }

  /** At this key the map holds the value of the most local map that has one. */
  predicate MostLocalAt(local: StringMap, shared: StringMap, default_: StringMap, u: StringMap, k: string) {
    && (k in u <==> k in local || k in shared || k in default_)
    && (k in u ==> u[k] == if k in local then local[k] else if k in shared then shared[k] else default_[k])
  }

  ghost predicate MostLocal(local: StringMap, shared: StringMap, default_: StringMap, u: StringMap) {
    forall k :: MostLocalAt(local, shared, default_, u, k)
  }

  lemma FirstOfMaps(a: StringMap, b: StringMap, c: StringMap)
    ensures FirstNonEmptyMap([a, b, c]) == if a != map[] then a else if b != map[] then b else c
  {
    assert [a, b, c][1..] == [b, c] && [b, c][1..] == [c] && [c][1..] == [];
    assert FirstNonEmptyMap([c]) == c;
    assert FirstNonEmptyMap([b, c]) == if b != map[] then b else c;
  }

  /** The first of three settings that is not empty. */
  function FirstSet(a: string, b: string, c: string): string { if a != "" then a else if b != "" then b else c }

  /** The strategies as the reference states them. */
  predicate StatesStrategies(ref: GlobalRef, params: Strategy, headers: Strategy) {
    if ref.strategy.None? then params == Unstated && headers == Unstated
    else params == ref.strategy.value.params && headers == ref.strategy.value.headers
  }

  /**
   A merged VaultAuth: mount and Vault namespace are its own, else the section's, else the
   default; the connection is its own or the global one; the maps follow the strategies; and
   nothing but the section of the method is different besides.
   */
  lemma MergedSettings(o: VaultAuth, c: Cluster, params: Strategy, headers: Strategy)
    requires o.spec.globalRef.Some? && Merge(o, c).Ok?
    requires StatesStrategies(o.spec.globalRef.value, params, headers)
    ensures Resolve(o, o.spec.globalRef.value, c).Ok?
    ensures var g := Resolve(o, o.spec.globalRef.value, c).value; var s, t := o.spec, Merge(o, c).value.spec;
      var s1 := s.(authMethod := t.authMethod);
      && IsAllowedNamespace(g, o.namespace, c.operatorNamespace)
      && Merge(o, c).value == o.(spec := t)
      && t.authMethod == (if s.authMethod == Unset then g.defaultMethod else s.authMethod)
      && MergedMethod(s1, g).Ok?
      && var (s2, shared) := MergedMethod(s1, g).value;
      && t.mount == FirstSet(s.mount, shared.mount, g.defaultMount) != ""
      && t.namespace == FirstSet(s.namespace, shared.namespace, g.defaultNamespace)
      && t.connectionRef == FirstSet(s.connectionRef, g.connectionRef, "")
      && MergedMaps(params, s.params, shared.params, g.defaultParams) == Some(t.params)
      && MergedMaps(headers, s.headers, shared.headers, g.defaultHeaders) == Some(t.headers)
      && t == s2.(mount := t.mount, namespace := t.namespace, params := t.params, headers := t.headers,
                  connectionRef := t.connectionRef)
  {
    var ref := o.spec.globalRef.value;
    MergedSpecShape(o.spec, ref, Resolve(o, ref, c).value);
  }

  /** The merge succeeds exactly when each of its steps does; without a reference the object stays as it is. */
  lemma MergeOkIff(o: VaultAuth, c: Cluster)
    ensures o.spec.globalRef.None? ==> Merge(o, c) == Ok(o)
    ensures o.spec.globalRef.Some? ==>
      var found := Resolve(o, o.spec.globalRef.value, c);
      && (found.Err? ==> Merge(o, c) == Err(found.error))
      && (found.Ok? && !IsAllowedNamespace(found.value, o.namespace, c.operatorNamespace) ==>
            Merge(o, c) == Err(NamespaceNotAllowed))
    ensures o.spec.globalRef.Some? ==>
      (Merge(o, c).Ok? <==>
         var ref := o.spec.globalRef.value;
         && Resolve(o, ref, c).Ok?
         && var g := Resolve(o, ref, c).value;
         var s1 := o.spec.(authMethod := if o.spec.authMethod == Unset then g.defaultMethod else o.spec.authMethod);
         && IsAllowedNamespace(g, o.namespace, c.operatorNamespace)
         && MergedMethod(s1, g).Ok?
         && FirstSet(o.spec.mount, MergedMethod(s1, g).value.1.mount, g.defaultMount) != ""
         && (ref.strategy.Some? ==> !ref.strategy.value.params.UnknownStrategy?
                                    && !ref.strategy.value.headers.UnknownStrategy?))
  {
    if o.spec.globalRef.Some? && Resolve(o, o.spec.globalRef.value, c).Ok? {
      var g := Resolve(o, o.spec.globalRef.value, c).value;
      var s1 := o.spec.(authMethod := EffectiveMethod(o.spec, g));
      if MergedMethod(s1, g).Ok? {
        MergedMethodShape(s1, g);
        FirstOfThree(o.spec.mount, MergedMethod(s1, g).value.1.mount, g.defaultMount);
      }
    }
  }
}
