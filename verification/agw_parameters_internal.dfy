/** The earlier generation of the agentgateway deployer's parameter handling
    (internal/kgateway/deployer/agentgateway_parameters.go). It resolves ONE
    AgentgatewayParameters per Gateway (the Gateway's own reference wins,
    else the GatewayClass's), also honours a legacy GatewayParameters for
    the security-context switch and pod metadata, and layers configs with
    different rules: env vars are appended, labels and annotations are
    unioned, and the log level (not the format) is set. */
module AgwParametersInternal {
  import opened Common
  import opened AgwTypes
  import AgwParameters

  // ---------------------------------------------------------------------
  // Resolution

  /** `getGatewayClassFromGateway`: a nil Gateway, an empty class name and a
      missing class are errors. */
  function GetGatewayClassFromGateway(store: Store, gw: Option<Gateway>): (r: Result<GatewayClass>)
    ensures r.Ok? <==> gw.Some? && gw.value.className != "" && gw.value.className in store.classes
    ensures r.Ok? ==> r.value == store.classes[gw.value.className]
  {
    if gw.None? then Err("nil Gateway")
    else if gw.value.className == "" then Err("gatewayClassName must not be empty")
    else if gw.value.className !in store.classes then
      Err("failed to get GatewayClass " + gw.value.className + " for Gateway "
          + gw.value.namespace + "/" + gw.value.name)
    else Ok(store.classes[gw.value.className])
  }

  /** `getAgentgatewayParametersFromGatewayClass`: a class without a
      parametersRef, or with a reference to another kind, yields no
      parameters and no error; a reference to a missing
      AgentgatewayParameters is an error. The namespace defaults to "". */
  function GetAgentgatewayParametersFromGatewayClass(store: Store, gw: Option<Gateway>): (r: Result<Option<Params>>)
    ensures GetGatewayClassFromGateway(store, gw).Err? ==> r.Err?
    ensures GetGatewayClassFromGateway(store, gw).Ok? ==>
      var ref := GetGatewayClassFromGateway(store, gw).value.parametersRef;
      && (ref.None? ==> r == Ok(None))
      && (ref.Some? && !IsAgwRef(ref.value.group, ref.value.kind) ==> r == Ok(None))
      && (ref.Some? && IsAgwRef(ref.value.group, ref.value.kind) ==>
            var key := NamespacedName(ref.value.namespace.GetOr(""), ref.value.name);
            && (key !in store.agwParams ==> r.Err?)
            && (key in store.agwParams ==> r == Ok(Some(store.agwParams[key]))))
  {
    var gwc :- GetGatewayClassFromGateway(store, gw);
    if gwc.parametersRef.None? then Ok(None)
    else
      var ref := gwc.parametersRef.value;
      if ref.group != AgwGroup || ref.kind != AgwParamsKind then Ok(None)
      else
        var ns := if ref.namespace.Some? then ref.namespace.value else "";
        var key := NamespacedName(ns, ref.name);
        if key !in store.agwParams then
          Err("AgentgatewayParameters " + ns + "/" + ref.name + " not found for GatewayClass " + gwc.name)
        else Ok(Some(store.agwParams[key]))
  }

  /** The Gateway's infrastructure reference, when it names AgentgatewayParameters. */
  function AgwInfraRef(gw: Gateway): Option<LocalParametersRef> {
    if gw.infrastructure.Some? && gw.infrastructure.value.parametersRef.Some?
       && IsAgwRef(gw.infrastructure.value.parametersRef.value.group, gw.infrastructure.value.parametersRef.value.kind)
    then gw.infrastructure.value.parametersRef
    else None
  }

  /** `GetAgentgatewayParametersForGateway`: a Gateway reference to
      AgentgatewayParameters takes precedence and is looked up in the
      Gateway's own namespace (missing is an error); a reference of any
      other kind is ignored and the GatewayClass decides. */
  function GetAgentgatewayParametersForGateway(store: Store, gw: Gateway): (r: Result<Option<Params>>)
    ensures AgwInfraRef(gw).Some? ==>
      var key := NamespacedName(gw.namespace, AgwInfraRef(gw).value.name);
      && (key in store.agwParams ==> r == Ok(Some(store.agwParams[key])))
      && (key !in store.agwParams ==> r.Err?)
    ensures AgwInfraRef(gw).None? ==> r == GetAgentgatewayParametersFromGatewayClass(store, Some(gw))
  {
    if gw.infrastructure.Some? && gw.infrastructure.value.parametersRef.Some? then
      var ref := gw.infrastructure.value.parametersRef.value;
      if ref.group == AgwGroup && ref.kind == AgwParamsKind then
        var key := NamespacedName(gw.namespace, ref.name);
        if key !in store.agwParams then
          Err("AgentgatewayParameters " + gw.namespace + "/" + ref.name + " not found for Gateway "
              + gw.namespace + "/" + gw.name)
        else Ok(Some(store.agwParams[key]))
      else GetAgentgatewayParametersFromGatewayClass(store, Some(gw))
    else GetAgentgatewayParametersFromGatewayClass(store, Some(gw))
  }

  /** A non-AgentgatewayParameters reference on the Gateway never changes
      the outcome: resolution is the same as with no reference at all. */
  lemma ForeignInfraRefIgnored(store: Store, gw: Gateway)
    requires gw.infrastructure.Some? && gw.infrastructure.value.parametersRef.Some?
    requires !IsAgwRef(gw.infrastructure.value.parametersRef.value.group,
                       gw.infrastructure.value.parametersRef.value.kind)
    ensures GetAgentgatewayParametersForGateway(store, gw)
         == GetAgentgatewayParametersForGateway(store, gw.(infrastructure := None))
  {
    assert GetGatewayClassFromGateway(store, Some(gw)) == GetGatewayClassFromGateway(store, Some(gw.(infrastructure := None)));
  }

  /** The two generations compared. A Gateway reference to an existing
      AgentgatewayParameters is chosen by both when the current generation
      resolves at all. A GatewayClass reference to some other kind is an
      error in the current generation but is passed over here. */
  lemma GenerationsCompared(store: Store, gw: Gateway)
    ensures AgwInfraRef(gw).Some? && AgwParameters.ResolveParameters(store, gw).Ok? ==>
      && GetAgentgatewayParametersForGateway(store, gw).Ok?
      && AgwParameters.ResolveParameters(store, gw).value.gatewayParams
           == GetAgentgatewayParametersForGateway(store, gw).value
    ensures (&& AgwParameters.ClassRef(store, gw).Some?
             && !IsAgwRef(AgwParameters.ClassRef(store, gw).value.group, AgwParameters.ClassRef(store, gw).value.kind)
             && AgwInfraRef(gw).None? && gw.className != "") ==>
      && AgwParameters.ResolveParameters(store, gw).Err?
      && GetAgentgatewayParametersForGateway(store, gw) == Ok(None)
  {
  }

  /** `getGatewayParametersForGateway`: the Gateway's own GatewayParameters
      reference (in its namespace) first, else the GatewayClass's; a missing
      object is simply nil, never an error. */
  function GetGatewayParametersForGateway(store: Store, gw: Gateway): (r: Option<GatewayParameters>)
    ensures r.Some? ==> r.value in store.gwParams.Values
    ensures GwpInfraRef(gw).Some? ==>
      var key := NamespacedName(gw.namespace, GwpInfraRef(gw).value.name);
      r == (if key in store.gwParams then Some(store.gwParams[key]) else None)
    ensures GwpInfraRef(gw).None? && GwpClassRef(store, gw).Some? ==>
      var key := NamespacedName(GwpClassRef(store, gw).value.namespace.GetOr(""), GwpClassRef(store, gw).value.name);
      r == (if key in store.gwParams then Some(store.gwParams[key]) else None)
    ensures GwpInfraRef(gw).None? && GwpClassRef(store, gw).None? ==> r.None?
  {
    if gw.infrastructure.Some? && gw.infrastructure.value.parametersRef.Some?
       && gw.infrastructure.value.parametersRef.value.group == KgwGroup
       && gw.infrastructure.value.parametersRef.value.kind == GatewayParamsKind then
      var key := NamespacedName(gw.namespace, gw.infrastructure.value.parametersRef.value.name);
      if key in store.gwParams then Some(store.gwParams[key]) else None
    else if gw.className in store.classes && store.classes[gw.className].parametersRef.Some? then
      var ref := store.classes[gw.className].parametersRef.value;
      if ref.group == KgwGroup && ref.kind == GatewayParamsKind then
        var key := NamespacedName(if ref.namespace.Some? then ref.namespace.value else "", ref.name);
        if key in store.gwParams then Some(store.gwParams[key]) else None
      else None
    else None
  }

  /** The Gateway's infrastructure reference, when it names GatewayParameters. */
  function GwpInfraRef(gw: Gateway): Option<LocalParametersRef> {
    if gw.infrastructure.Some? && gw.infrastructure.value.parametersRef.Some?
       && gw.infrastructure.value.parametersRef.value.group == KgwGroup
       && gw.infrastructure.value.parametersRef.value.kind == GatewayParamsKind
    then gw.infrastructure.value.parametersRef
    else None
  }

  /** The GatewayClass's reference, when the class exists and names GatewayParameters. */
  function GwpClassRef(store: Store, gw: Gateway): Option<ParametersRef> {
    if gw.className in store.classes && store.classes[gw.className].parametersRef.Some?
       && store.classes[gw.className].parametersRef.value.group == KgwGroup
       && store.classes[gw.className].parametersRef.value.kind == GatewayParamsKind
    then store.classes[gw.className].parametersRef
    else None
  }

  /** Once the Gateway names a GatewayParameters, the GatewayClass is never
      consulted, even when the named object is missing. */
  lemma GatewayParametersRefShadowsClass(store: Store, gw: Gateway, classes: map<string, GatewayClass>)
    requires GwpInfraRef(gw).Some?
    ensures GetGatewayParametersForGateway(store, gw) == GetGatewayParametersForGateway(store.(classes := classes), gw)
  {
  }

  /** `shouldOmitDefaultSecurityContext`: true only when a GatewayParameters
      with a kube section explicitly asks for it; the default is false. */
  function ShouldOmitDefaultSecurityContext(gwp: Option<GatewayParameters>): (r: bool)
    ensures r <==> gwp.Some? && gwp.value.kube.Some? && gwp.value.kube.value.omitDefaultSecurityContext == Some(true)
  {
    if gwp.Some? && gwp.value.kube.Some? then gwp.value.kube.value.omitDefaultSecurityContext.GetOr(false)
    else false
  }

  // ---------------------------------------------------------------------
  // Layering

  /** `ApplyToHelmValues` of this generation. */
  function ApplyToHelmValues(params: Option<Params>, vals: Option<HelmConfig>): (r: Option<HelmConfig>)
    ensures params.None? || vals.None? || vals.value.gateway.None? ==> r == vals
    ensures vals.Some? <==> r.Some?
    ensures vals.Some? ==> (vals.value.gateway.Some? <==> r.value.gateway.Some?)
    ensures params.Some? && vals.Some? && vals.value.gateway.Some? ==>
      r.value.gateway.value == ApplyConfigs(params.value.spec.configs, vals.value.gateway.value)
  {
    if params.None? || vals.None? || vals.value.gateway.None? then vals
    else Some(HelmConfig(Some(ApplyConfigs(params.value.spec.configs, vals.value.gateway.value))))
  }

  /** The log level a Logging config produces over a prior one: only a
      non-empty level is written. */
  function ApplyLogLevel(l: Option<Logging>, prior: Option<string>): (r: Option<string>)
    ensures l.Some? && l.value.level != "" ==> r == Some(l.value.level)
    ensures l.None? || l.value.level == "" ==> r == prior
  {
    if l.Some? && l.value.level != "" then Some(l.value.level) else prior
  }

  /** Env vars are appended after the existing ones without de-duplication
      (the chart drops a default whose name the user also sets). */
  function AppendEnv(existing: seq<EnvVar>, extra: seq<EnvVar>): (r: seq<EnvVar>)
    ensures |r| == |existing| + |extra|
    ensures forall i :: 0 <= i < |existing| ==> r[i] == existing[i]
    ensures forall i :: 0 <= i < |extra| ==> r[|existing| + i] == extra[i]
  {
    if |extra| > 0 then existing + extra else existing
  }

  /** Image parts overwrite only when set, resources only when set, env vars
      are appended, the log level is set only when non-empty, and labels and
      annotations are unioned with the config winning. */
  function ApplyConfigs(c: Configs, g: HelmGateway): (r: HelmGateway)
    ensures r.(image := g.image, resources := g.resources, env := g.env, logLevel := g.logLevel,
               extraPodLabels := g.extraPodLabels, extraPodAnnotations := g.extraPodAnnotations) == g
    ensures r.image == ApplyImage(c.image, g.image)
    ensures c.resources.Some? ==> r.resources == c.resources
    ensures c.resources.None? ==> r.resources == g.resources
    ensures r.env == AppendEnv(g.env, c.env)
    ensures r.logLevel == ApplyLogLevel(c.logging, g.logLevel)
    ensures r.extraPodLabels == CopyInto(g.extraPodLabels, c.labels)
    ensures r.extraPodAnnotations == CopyInto(g.extraPodAnnotations, c.annotations)
  {
    g.(image := ApplyImage(c.image, g.image),
       resources := if c.resources.Some? then c.resources else g.resources,
       env := AppendEnv(g.env, c.env),
       logLevel := ApplyLogLevel(c.logging, g.logLevel),
       extraPodLabels := CopyInto(g.extraPodLabels, c.labels),
       extraPodAnnotations := CopyInto(g.extraPodAnnotations, c.annotations))
  }

  /** Unlike the current generation, applying the same parameters twice is
      not the same as applying them once: env vars are appended again. */
  lemma ApplyToHelmValuesRepeatsEnv(params: Params, g: HelmGateway)
    requires |params.spec.configs.env| > 0
    ensures var twice := ApplyToHelmValues(Some(params), ApplyToHelmValues(Some(params), Some(HelmConfig(Some(g)))));
      && twice.value.gateway.value.env == g.env + params.spec.configs.env + params.spec.configs.env
      && twice != ApplyToHelmValues(Some(params), Some(HelmConfig(Some(g))))
  {
    var e := params.spec.configs.env;
    var once := ApplyToHelmValues(Some(params), Some(HelmConfig(Some(g))));
    assert once.value.gateway.value.env == g.env + e;
    assert |g.env + e + e| != |g.env + e|;
  }

  /** The source's worked example for env vars: EXISTING, then CUSTOM, then ANOTHER. */
  lemma AppendEnvExample()
    ensures AppendEnv([EnvVar("EXISTING_VAR", "existing_value")],
                      [EnvVar("CUSTOM_VAR", "custom_value"), EnvVar("ANOTHER_VAR", "another_value")])
         == [EnvVar("EXISTING_VAR", "existing_value"), EnvVar("CUSTOM_VAR", "custom_value"),
             EnvVar("ANOTHER_VAR", "another_value")]
  {
  }

  /** The source's worked example for labels and annotations, with the
      literal keys abstracted: an existing label survives next to a new one,
      and a nil annotation map is created to hold the new annotation. */
  lemma CopyIntoExample(existing: string, custom: string, v1: string, v2: string)
    requires existing != custom
    ensures var r := CopyInto(Some(map[existing := v1]), map[custom := v2]);
      r.Some? && r.value.Keys == {existing, custom} && r.value[existing] == v1 && r.value[custom] == v2
    ensures CopyInto(None, map[custom := v2]) == Some(map[custom := v2])
  {
    var src := map[custom := v2];
    assert src.Keys == {custom};
    assert |src| == 1;
    assert map[] + src == src;
  }

  /** `applyGatewayParametersToHelmValues`, pod metadata part: the pod
      template's extra annotations and labels are unioned in. */
  function ApplyGatewayParametersToHelmValues(gwp: Option<GatewayParameters>, vals: HelmConfig): (r: HelmConfig)
    ensures gwp.None? || gwp.value.kube.None? || vals.gateway.None? ==> r == vals
    ensures r.gateway.Some? <==> vals.gateway.Some?
    ensures gwp.Some? && gwp.value.kube.Some? && vals.gateway.Some? ==>
      && r.gateway.value.extraPodLabels == CopyInto(vals.gateway.value.extraPodLabels, gwp.value.kube.value.podExtraLabels)
      && r.gateway.value.extraPodAnnotations ==
           CopyInto(vals.gateway.value.extraPodAnnotations, gwp.value.kube.value.podExtraAnnotations)
      && r.gateway.value.(extraPodLabels := vals.gateway.value.extraPodLabels,
                          extraPodAnnotations := vals.gateway.value.extraPodAnnotations) == vals.gateway.value
  {
    if gwp.None? || gwp.value.kube.None? || vals.gateway.None? then vals
    else
      var k := gwp.value.kube.value;
      var g := vals.gateway.value;
      HelmConfig(Some(g.(extraPodAnnotations := CopyInto(g.extraPodAnnotations, k.podExtraAnnotations),
                         extraPodLabels := CopyInto(g.extraPodLabels, k.podExtraLabels))))
  }

  // ---------------------------------------------------------------------
  // Default values and GetValues

  const ErrNoValidPorts: string := "no valid ports"

  /** The data-plane marker this generation writes into the values. */
  const DataPlaneAgentgateway: string := "agentgateway"

  /** `getDefaultAgentgatewayHelmValues` of this generation: as the current
      one, plus the Envoy-style xDS endpoint and the data-plane marker, and
      the two security contexts are set exactly when not omitted. */
  function DefaultHelmValues(gw: Gateway, ports: seq<HelmPort>, cp: ControlPlane, img: ImageDefaults,
                             omitDefaultSecurityContext: bool): (r: Result<HelmConfig>)
    ensures r.Err? <==> |ports| == 0
    ensures r.Ok? ==> r.value.gateway.Some?
    ensures r.Ok? ==> var g := r.value.gateway.value;
      && g.ports == ports
      && g.dataPlaneType == Some(DataPlaneAgentgateway)
      && (g.podSecurityContext.Some? <==> !omitDefaultSecurityContext)
      && (g.securityContext.Some? <==> !omitDefaultSecurityContext)
      && g.xds == Some(HelmXds(cp.xdsHost, cp.xdsPort, cp.xdsTls, cp.xdsTlsCaPath))
      && g.agwXds == Some(HelmXds(cp.xdsHost, cp.agwXdsPort, cp.xdsTls, cp.xdsTlsCaPath))
      && g.env == [] && g.logLevel.None? && g.extraPodLabels.None? && g.extraPodAnnotations.None?
  {
    if |ports| == 0 then Err(ErrNoValidPorts)
    else
      var infra := gw.infrastructure;
      Ok(HelmConfig(Some(HelmGateway(
        dataPlaneType := Some(DataPlaneAgentgateway),
        name := Some(gw.name),
        gatewayName := Some(gw.name),
        gatewayNamespace := Some(gw.namespace),
        gatewayClassName := Some(gw.className),
        gatewayAnnotations := if infra.Some? then Some(infra.value.annotations) else None,
        gatewayLabels := if infra.Some? then Some(infra.value.labels) else None,
        ports := ports,
        xds := Some(HelmXds(cp.xdsHost, cp.xdsPort, cp.xdsTls, cp.xdsTlsCaPath)),
        agwXds := Some(HelmXds(cp.xdsHost, cp.agwXdsPort, cp.xdsTls, cp.xdsTlsCaPath)),
        image := Some(HelmImage(Some(img.registry), Some(img.repository), Some(img.tag), None, Some(""))),
        terminationGracePeriodSeconds := Some(60),
        gracefulShutdown := Some(GracefulShutdown(true, 10)),
        readinessProbe := Some(DefaultReadinessProbe),
        startupProbe := Some(DefaultStartupProbe),
        podSecurityContext := if omitDefaultSecurityContext then None else Some(DefaultPodSecurityContext),
        securityContext := if omitDefaultSecurityContext then None else Some(DefaultSecurityContext),
        resources := None,
        env := [],
        logLevel := None,
        logFormat := None,
        rawConfig := None,
        extraPodLabels := None,
        extraPodAnnotations := None))))
  }

  /** `GetValues` of this generation, up to the xDS CA injection: the
      AgentgatewayParameters must resolve, the defaults honour the legacy
      security-context switch, then the GatewayParameters pod metadata and
      finally the AgentgatewayParameters configs are applied. */
  function GetValues(store: Store, obj: ClientObject, ports: seq<HelmPort>, cp: ControlPlane,
                     img: ImageDefaults): (r: Result<HelmGateway>)
    ensures obj.OtherObject? ==> r.Err?
    ensures obj.GatewayObject? && GetAgentgatewayParametersForGateway(store, obj.gateway).Err? ==> r.Err?
    ensures obj.GatewayObject? && GetAgentgatewayParametersForGateway(store, obj.gateway).Ok? ==>
      (r.Err? <==> |ports| == 0)
    ensures r.Ok? ==>
      (r.value.securityContext.Some? <==>
        !ShouldOmitDefaultSecurityContext(GetGatewayParametersForGateway(store, obj.gateway)))
  {
    match obj
    case OtherObject(kind) => Err("expected a Gateway resource, got " + kind)
    case GatewayObject(gw) =>
      var agwp :- GetAgentgatewayParametersForGateway(store, gw);
      var gwp := GetGatewayParametersForGateway(store, gw);
      var omit := ShouldOmitDefaultSecurityContext(gwp);
      var vals :- DefaultHelmValues(gw, ports, cp, img, omit);
      var withGwp := if gwp.Some? then ApplyGatewayParametersToHelmValues(gwp, vals) else vals;
      var layered := ApplyToHelmValues(agwp, Some(withGwp));
      Ok(layered.value.gateway.value)
  }

  /** `ApplyOverlaysToObjects` of this generation: as in the current one, the
      strategic-merge-patch applier is passed in. */
  function ApplyOverlaysToObjects<O>(params: Option<Params>, objs: seq<O>,
                                    applier: (Params, seq<O>) -> (seq<O>, Option<string>)): (r: (seq<O>, Option<string>))
    ensures params.None? ==> r == (objs, None)
    ensures params.Some? ==> r == applier(params.value, objs)
  {
    AgwParameters.ApplyOverlaysToObjects(params, objs, applier)
  }
}
