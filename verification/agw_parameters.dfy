/** The current generation of the agentgateway deployer's parameter handling
    (pkg/kgateway/deployer/agentgateway_parameters.go): resolving the
    GatewayClass-level and Gateway-level AgentgatewayParameters of a Gateway,
    layering their configs onto the default Helm values, and applying their
    overlays to the rendered objects, GatewayClass first and Gateway on top. */
module AgwParameters {
  import opened Common
  import opened GoJson
  import opened AgwTypes

  // ---------------------------------------------------------------------
  // Environment variables

  /** The names that occur in a list of variables. */
  function Names(vars: seq<EnvVar>): (r: set<string>)
    ensures forall i :: 0 <= i < |vars| ==> vars[i].name in r
    ensures forall n :: n in r ==> exists i :: 0 <= i < |vars| && vars[i].name == n
  {
    set i | 0 <= i < |vars| :: vars[i].name
  }

  /** The variables whose name is not in `names`, in their original order. */
  function Without(vars: seq<EnvVar>, names: set<string>): (r: seq<EnvVar>)
    ensures forall e :: e in r <==> e in vars && e.name !in names
    ensures |r| <= |vars|
  {
    if |vars| == 0 then []
    else (if vars[0].name in names then [] else [vars[0]]) + Without(vars[1..], names)
  }

  /** `mergeEnvVars`: the base variables not overridden by name, in base
      order, followed by every override variable in override order. The
      two early returns of the source agree with this general formula. */
  function MergeEnvVars(base: seq<EnvVar>, override: seq<EnvVar>): (r: seq<EnvVar>)
    ensures r == Without(base, Names(override)) + override
    ensures |override| == 0 ==> r == base
    ensures |base| == 0 ==> r == override
  {
    if |override| == 0 then
      assert Names(override) == {};
      WithoutNothing(base);
      base
    else if |base| == 0 then override
    else Without(base, Names(override)) + override
  }

  lemma WithoutNothing(vars: seq<EnvVar>)
    ensures Without(vars, {}) == vars
  {
  }

  lemma {:induction false} WithoutConcat(a: seq<EnvVar>, b: seq<EnvVar>, names: set<string>)
    ensures Without(a + b, names) == Without(a, names) + Without(b, names)
    decreases |a|
  {
    if |a| == 0 {
      assert a + b == b;
    } else {
      assert (a + b)[1..] == a[1..] + b;
      WithoutConcat(a[1..], b, names);
    }
  }

  lemma {:induction false} WithoutTwice(vars: seq<EnvVar>, names: set<string>)
    ensures Without(Without(vars, names), names) == Without(vars, names)
    decreases |vars|
  {
    if |vars| > 0 {
      var head := if vars[0].name in names then [] else [vars[0]];
      WithoutConcat(head, Without(vars[1..], names), names);
      WithoutTwice(vars[1..], names);
      if vars[0].name !in names {
        assert head[1..] == [];
      }
    }
  }

  lemma {:induction false} WithoutOwnNames(vars: seq<EnvVar>, names: set<string>)
    requires Names(vars) <= names
    ensures Without(vars, names) == []
    decreases |vars|
  {
    if |vars| > 0 {
      assert vars[0].name in Names(vars);
      assert Names(vars[1..]) <= Names(vars) by {
        forall n | n in Names(vars[1..]) ensures n in Names(vars) {
          var i :| 0 <= i < |vars[1..]| && vars[1..][i].name == n;
          assert vars[i + 1].name == n;
        }
      }
      WithoutOwnNames(vars[1..], names);
    }
  }

  /** No base variable whose name is overridden survives a merge, and every
      override variable is present. */
  lemma MergeEnvVarsOverrides(base: seq<EnvVar>, override: seq<EnvVar>)
    ensures forall e :: e in base && e.name in Names(override) && e !in override ==> e !in MergeEnvVars(base, override)
    ensures forall e :: e in override ==> e in MergeEnvVars(base, override)
    ensures forall e :: e in MergeEnvVars(base, override) ==> e in base || e in override
  {
  }

  /** Merging the same override twice is the same as merging it once. */
  lemma MergeEnvVarsIdempotent(base: seq<EnvVar>, override: seq<EnvVar>)
    ensures MergeEnvVars(MergeEnvVars(base, override), override) == MergeEnvVars(base, override)
  {
    var n := Names(override);
    var once := MergeEnvVars(base, override);
    WithoutConcat(Without(base, n), override, n);
    WithoutTwice(base, n);
    WithoutOwnNames(override, n);
    assert Without(once, n) == Without(base, n);
  }

  // ---------------------------------------------------------------------
  // Layering configs onto Helm values

  /** The object a RawConfig decodes to, if it is non-empty and decodes to a
      JSON object (decoding `null` into a Go map leaves it nil, and any other
      document is a decode error). */
  function RawConfigObject(codec: Codec, rc: Option<RawJson>): Option<map<string, Json>>
  {
    if rc.Some? && |rc.value.raw| > 0 then
      match codec.decode(rc.value.raw)
      case Some(Object(fields)) => Some(fields)
      case _ => None
    else None
  }

  /** The Go map `json.Unmarshal` builds for an object. */
  function GoMap(fields: map<string, Json>): (m: map<string, Any>)
    ensures m.Keys == fields.Keys
    ensures forall k :: k in m ==> Marshal(m[k]) == fields[k]
  {
    forall k | k in fields ensures Marshal(FromJson(fields[k])) == fields[k] {
      MarshalFromJson(fields[k]);
    }
    FromJson(Object(fields)).entries
  }

  /** The log format a Logging config produces over a prior one. */
  function ApplyLogFormat(l: Option<Logging>, prior: Option<string>): (r: Option<string>)
    ensures l.Some? && l.value.format != "" ==> r == Some(l.value.format)
    ensures l.None? || l.value.format == "" ==> r == prior
  {
    if l.Some? && l.value.format != "" then Some(l.value.format) else prior
  }

  /** The field-by-field merge of one AgentgatewayParameters' configs onto
      the gateway section of the Helm values. */
  function ApplyConfigs(codec: Codec, c: Configs, g: HelmGateway): (r: HelmGateway)
    // only image, resources, raw config, log format and env can change
    ensures r.(image := g.image, resources := g.resources, rawConfig := g.rawConfig,
               logFormat := g.logFormat, env := g.env) == g
    ensures r.image == ApplyImage(c.image, g.image)
    ensures c.resources.Some? ==> r.resources == c.resources
    ensures c.resources.None? ==> r.resources == g.resources
    ensures RawConfigObject(codec, c.rawConfig).None? ==> r.rawConfig == g.rawConfig
    ensures RawConfigObject(codec, c.rawConfig).Some? ==>
      r.rawConfig.Some? && forall k :: k in r.rawConfig.value <==> k in RawConfigObject(codec, c.rawConfig).value
    ensures RawConfigObject(codec, c.rawConfig).Some? ==>
      forall k :: k in r.rawConfig.value ==> Marshal(r.rawConfig.value[k]) == RawConfigObject(codec, c.rawConfig).value[k]
    ensures r.logFormat == ApplyLogFormat(c.logging, g.logFormat)
    ensures r.env == Without(g.env, Names(c.env)) + c.env
  {
    var raw := RawConfigObject(codec, c.rawConfig);
    g.(image := ApplyImage(c.image, g.image),
       resources := SetIfNonNil(g.resources, c.resources),
       rawConfig := if raw.Some? then Some(GoMap(raw.value)) else g.rawConfig,
       logFormat := ApplyLogFormat(c.logging, g.logFormat),
       env := MergeEnvVars(g.env, c.env))
  }

  /** `ApplyToHelmValues`: a no-op when the parameters, the values or their
      gateway section are nil; otherwise the configs are merged into the
      gateway section. */
  function ApplyToHelmValues(codec: Codec, params: Option<Params>, vals: Option<HelmConfig>): (r: Option<HelmConfig>)
    ensures params.None? || vals.None? || vals.value.gateway.None? ==> r == vals
    ensures vals.Some? <==> r.Some?
    ensures vals.Some? ==> (vals.value.gateway.Some? <==> r.value.gateway.Some?)
    ensures params.Some? && vals.Some? && vals.value.gateway.Some? ==>
      r.value.gateway.value == ApplyConfigs(codec, params.value.spec.configs, vals.value.gateway.value)
  {
    if params.None? || vals.None? || vals.value.gateway.None? then vals
    else Some(HelmConfig(Some(ApplyConfigs(codec, params.value.spec.configs, vals.value.gateway.value))))
  }

  /** Applying the same parameters twice gives the same values as applying
      them once: every field is overwritten or merged by name, never
      accumulated. */
  lemma ApplyToHelmValuesIdempotent(codec: Codec, params: Option<Params>, vals: Option<HelmConfig>)
    ensures ApplyToHelmValues(codec, params, ApplyToHelmValues(codec, params, vals))
         == ApplyToHelmValues(codec, params, vals)
  {
    if params.Some? && vals.Some? && vals.value.gateway.Some? {
      var c := params.value.spec.configs;
      var g := vals.value.gateway.value;
      var once := ApplyConfigs(codec, c, g);
      ApplyImageIdempotent(c.image, g.image);
      MergeEnvVarsIdempotent(g.env, c.env);
      assert ApplyConfigs(codec, c, once) == once;
    }
  }

  // ---------------------------------------------------------------------
  // Resolution

  /** The GatewayClass-level and Gateway-level parameters of a Gateway. */
  datatype Resolved = Resolved(classParams: Option<Params>, gatewayParams: Option<Params>)

  /** Where a GatewayClass reference is looked up: its namespace, or "". */
  function ClassRefKey(ref: ParametersRef): NamespacedName {
    NamespacedName(ref.namespace.GetOr(""), ref.name)
  }

  /** Where a Gateway reference is looked up: always the Gateway's namespace. */
  function GatewayRefKey(gw: Gateway, ref: LocalParametersRef): NamespacedName {
    NamespacedName(gw.namespace, ref.name)
  }

  /** The parametersRef of the Gateway's class, if the class exists and has one. */
  function ClassRef(store: Store, gw: Gateway): Option<ParametersRef> {
    if gw.className in store.classes then store.classes[gw.className].parametersRef else None
  }

  /** The Gateway's own infrastructure parametersRef, if any. */
  function InfraRef(gw: Gateway): Option<LocalParametersRef> {
    if gw.infrastructure.Some? then gw.infrastructure.value.parametersRef else None
  }

  /** The class reference is unusable: not an AgentgatewayParameters, or one that does not exist. */
  predicate ClassRefBroken(store: Store, gw: Gateway) {
    var ref := ClassRef(store, gw);
    ref.Some? && (!IsAgwRef(ref.value.group, ref.value.kind) || ClassRefKey(ref.value) !in store.agwParams)
  }

  /** The Gateway reference is unusable: another kind, or an AgentgatewayParameters that does not exist. */
  predicate GatewayRefBroken(store: Store, gw: Gateway) {
    var ref := InfraRef(gw);
    ref.Some? && (!IsAgwRef(ref.value.group, ref.value.kind) || GatewayRefKey(gw, ref.value) !in store.agwParams)
  }

  /** `resolveParameters`. A missing GatewayClass is not an error here; every
      unusable reference is. */
  function ResolveParameters(store: Store, gw: Gateway): (r: Result<Resolved>)
    ensures r.Err? <==> ClassRefBroken(store, gw) || GatewayRefBroken(store, gw)
    ensures r.Ok? ==> (r.value.classParams ==
      if ClassRef(store, gw).Some? then Some(store.agwParams[ClassRefKey(ClassRef(store, gw).value)]) else None)
    ensures r.Ok? ==> (r.value.gatewayParams ==
      if InfraRef(gw).Some? then Some(store.agwParams[GatewayRefKey(gw, InfraRef(gw).value)]) else None)
  {
    var classParams :- ResolveClassLevel(store, gw);
    if gw.infrastructure.Some? && gw.infrastructure.value.parametersRef.Some? then
      var ref := gw.infrastructure.value.parametersRef.value;
      if IsAgwRef(ref.group, ref.kind) then
        var key := NamespacedName(gw.namespace, ref.name);
        if key !in store.agwParams then
          Err("AgentgatewayParameters " + gw.namespace + "/" + ref.name + " not found for Gateway "
              + gw.namespace + "/" + gw.name)
        else Ok(Resolved(classParams, Some(store.agwParams[key])))
      else
        Err("infrastructure.parametersRef on Gateway " + gw.namespace + "/" + gw.name
            + " references unsupported type: group=" + ref.group + " kind=" + ref.kind
            + "; use AgentgatewayParameters instead")
    else Ok(Resolved(classParams, None))
  }

  /** The GatewayClass half of `resolveParameters`. */
  function ResolveClassLevel(store: Store, gw: Gateway): (r: Result<Option<Params>>)
    ensures r.Err? <==> ClassRefBroken(store, gw)
    ensures r.Ok? ==> (r.value ==
      if ClassRef(store, gw).Some? then Some(store.agwParams[ClassRefKey(ClassRef(store, gw).value)]) else None)
  {
    if gw.className in store.classes && store.classes[gw.className].parametersRef.Some? then
      var gwc := store.classes[gw.className];
      var ref := gwc.parametersRef.value;
      if ref.group == AgwGroup && ref.kind == AgwParamsKind then
        var ns := if ref.namespace.Some? then ref.namespace.value else "";
        var key := NamespacedName(ns, ref.name);
        if key !in store.agwParams then
          Err("for GatewayClass " + gwc.name + ", AgentgatewayParameters " + ns + "/" + ref.name + " not found")
        else Ok(Some(store.agwParams[key]))
      else
        Err("the GatewayClass " + gwc.name + " references parameters of a type other than AgentgatewayParameters: "
            + ref.name)
    else Ok(None)
  }

  // ---------------------------------------------------------------------
  // Default values and GetValues

  /** Error returned when the Gateway yields no usable port (its text is not
      part of this model). */
  const ErrNoValidPorts: string := "no valid ports"

  /** `getDefaultAgentgatewayHelmValues`: fails on an empty port list;
      otherwise the Gateway's identity, the ports, the agentgateway xDS
      endpoint, the default image, probes, shutdown and both security
      contexts, with nothing configurable set yet. */
  function DefaultHelmValues(gw: Gateway, ports: seq<HelmPort>, cp: ControlPlane, img: ImageDefaults): (r: Result<HelmConfig>)
    ensures r.Err? <==> |ports| == 0
    ensures r.Ok? ==> r.value.gateway.Some?
    ensures r.Ok? ==> var g := r.value.gateway.value;
      && g.ports == ports
      && g.name == Some(gw.name) && g.gatewayNamespace == Some(gw.namespace)
      && g.gatewayClassName == Some(gw.className)
      && g.image == Some(HelmImage(Some(img.registry), Some(img.repository), Some(img.tag), None, Some("")))
      && g.podSecurityContext.Some? && g.securityContext.Some?
      && g.env == [] && g.resources.None? && g.rawConfig.None? && g.logFormat.None?
      && g.agwXds == Some(HelmXds(cp.xdsHost, cp.agwXdsPort, cp.xdsTls, cp.xdsTlsCaPath))
  {
    if |ports| == 0 then Err(ErrNoValidPorts)
    else
      var infra := gw.infrastructure;
      Ok(HelmConfig(Some(HelmGateway(
        dataPlaneType := None,
        name := Some(gw.name),
        gatewayName := Some(gw.name),
        gatewayNamespace := Some(gw.namespace),
        gatewayClassName := Some(gw.className),
        gatewayAnnotations := if infra.Some? then Some(infra.value.annotations) else None,
        gatewayLabels := if infra.Some? then Some(infra.value.labels) else None,
        ports := ports,
        xds := None,
        agwXds := Some(HelmXds(cp.xdsHost, cp.agwXdsPort, cp.xdsTls, cp.xdsTlsCaPath)),
        image := Some(HelmImage(Some(img.registry), Some(img.repository), Some(img.tag), None, Some(""))),
        terminationGracePeriodSeconds := Some(60),
        gracefulShutdown := Some(GracefulShutdown(true, 10)),
        readinessProbe := Some(DefaultReadinessProbe),
        startupProbe := Some(DefaultStartupProbe),
        podSecurityContext := Some(DefaultPodSecurityContext),
        securityContext := Some(DefaultSecurityContext),
        resources := None,
        env := [],
        logLevel := None,
        logFormat := None,
        rawConfig := None,
        extraPodLabels := None,
        extraPodAnnotations := None))))
  }

  /** `GetValues` up to (not including) the xDS CA injection and the final
      JSON conversion: fails for a non-Gateway object, on a resolution error
      and on an empty port list; otherwise the defaults with the
      GatewayClass configs applied first and the Gateway configs on top. */
  function GetValues(codec: Codec, store: Store, obj: ClientObject, ports: seq<HelmPort>,
                     cp: ControlPlane, img: ImageDefaults): (r: Result<HelmGateway>)
    ensures r.Err? <==>
      || obj.OtherObject?
      || (obj.GatewayObject? && (ClassRefBroken(store, obj.gateway) || GatewayRefBroken(store, obj.gateway)))
      || |ports| == 0
  {
    match obj
    case OtherObject(kind) => Err("expected a Gateway resource, got " + kind)
    case GatewayObject(gw) =>
      var resolved :- ResolveParameters(store, gw);
      var vals :- DefaultHelmValues(gw, ports, cp, img);
      var layered := ApplyToHelmValues(codec, resolved.gatewayParams,
                       ApplyToHelmValues(codec, resolved.classParams, Some(vals)));
      Ok(layered.value.gateway.value)
  }

  /** Layering order: a Gateway-level setting beats a GatewayClass-level one,
      which beats the default, whenever the higher level sets it at all;
      Gateway-level env vars replace same-named class-level and default
      ones. */
  lemma GetValuesLayering(codec: Codec, store: Store, gw: Gateway, ports: seq<HelmPort>,
                          cp: ControlPlane, img: ImageDefaults)
    requires GetValues(codec, store, GatewayObject(gw), ports, cp, img).Ok?
    ensures var g := GetValues(codec, store, GatewayObject(gw), ports, cp, img).value;
      var res := ResolveParameters(store, gw).value;
      && (res.gatewayParams.Some? && res.gatewayParams.value.spec.configs.resources.Some? ==>
            g.resources == res.gatewayParams.value.spec.configs.resources)
      && (res.gatewayParams.Some? && res.gatewayParams.value.spec.configs.image.Some?
          && res.gatewayParams.value.spec.configs.image.value.tag.Some? ==>
            g.image.value.tag == res.gatewayParams.value.spec.configs.image.value.tag)
      && (res.classParams.Some? && res.classParams.value.spec.configs.image.Some?
          && res.classParams.value.spec.configs.image.value.tag.Some?
          && (res.gatewayParams.None? || res.gatewayParams.value.spec.configs.image.None?
              || res.gatewayParams.value.spec.configs.image.value.tag.None?) ==>
            g.image.value.tag == res.classParams.value.spec.configs.image.value.tag)
      && (res.classParams.Some? && res.classParams.value.spec.configs.resources.Some?
          && (res.gatewayParams.None? || res.gatewayParams.value.spec.configs.resources.None?) ==>
            g.resources == res.classParams.value.spec.configs.resources)
      && ((res.classParams.None? || res.classParams.value.spec.configs.image.None?
           || res.classParams.value.spec.configs.image.value.tag.None?)
          && (res.gatewayParams.None? || res.gatewayParams.value.spec.configs.image.None?
              || res.gatewayParams.value.spec.configs.image.value.tag.None?) ==>
            g.image.value.tag == Some(img.tag))
      && ((res.classParams.None? || res.classParams.value.spec.configs.resources.None?)
          && (res.gatewayParams.None? || res.gatewayParams.value.spec.configs.resources.None?) ==>
            g.resources.None?)
      && (res.gatewayParams.Some? ==>
            forall e :: e in res.gatewayParams.value.spec.configs.env ==> e in g.env)
      && (res.gatewayParams.Some? ==>
            forall e :: e in g.env && e.name in Names(res.gatewayParams.value.spec.configs.env) ==>
              e in res.gatewayParams.value.spec.configs.env)
      && (res.classParams.None? && res.gatewayParams.None? ==> g.env == [] && g.resources.None?)
  {
  }

  // ---------------------------------------------------------------------
  // Overlays

  /** `ApplyOverlaysToObjects`: nil parameters leave the objects alone;
      otherwise the strategic-merge-patch applier, which is not part of this
      model and is passed in, does the work. It may fail after changing some
      objects, so it returns the objects together with its error. */
  function ApplyOverlaysToObjects<O>(params: Option<Params>, objs: seq<O>,
                                    applier: (Params, seq<O>) -> (seq<O>, Option<string>)): (r: (seq<O>, Option<string>))
    ensures params.None? ==> r == (objs, None)
    ensures params.Some? ==> r == applier(params.value, objs)
  {
    if params.None? then (objs, None) else applier(params.value, objs)
  }

  /** `PostProcessObjects`: nothing for a non-Gateway object or when the
      parameters do not resolve (the resolution error is swallowed); else the
      GatewayClass overlays, then the Gateway overlays, stopping at the first
      error. */
  function PostProcessObjects<O>(store: Store, obj: ClientObject, rendered: seq<O>,
                                 applier: (Params, seq<O>) -> (seq<O>, Option<string>)): (r: (seq<O>, Option<string>))
    ensures obj.OtherObject? ==> r == (rendered, None)
    ensures obj.GatewayObject? && ResolveParameters(store, obj.gateway).Err? ==> r == (rendered, None)
    ensures obj.GatewayObject? && ResolveParameters(store, obj.gateway).Ok? ==>
      var res := ResolveParameters(store, obj.gateway).value;
      var first := ApplyOverlaysToObjects(res.classParams, rendered, applier);
      && (first.1.Some? ==> r == first)
      && (first.1.None? ==> r == ApplyOverlaysToObjects(res.gatewayParams, first.0, applier))
  {
    match obj
    case OtherObject(_) => (rendered, None)
    case GatewayObject(gw) =>
      var resolved := ResolveParameters(store, gw);
      if resolved.Err? then (rendered, None)
      else
        var res := resolved.value;
        var first := if res.classParams.Some? then applier(res.classParams.value, rendered) else (rendered, None);
        if first.1.Some? then first
        else if res.gatewayParams.Some? then applier(res.gatewayParams.value, first.0)
        else first
  }

  /** With both levels present and no failures, the Gateway overlays see the
      result of the GatewayClass overlays, never the other way round. */
  lemma PostProcessOrder<O>(store: Store, gw: Gateway, rendered: seq<O>,
                            applier: (Params, seq<O>) -> (seq<O>, Option<string>))
    requires ResolveParameters(store, gw).Ok?
    requires ResolveParameters(store, gw).value.classParams.Some?
    requires ResolveParameters(store, gw).value.gatewayParams.Some?
    requires applier(ResolveParameters(store, gw).value.classParams.value, rendered).1.None?
    ensures var res := ResolveParameters(store, gw).value;
      PostProcessObjects(store, GatewayObject(gw), rendered, applier)
        == applier(res.gatewayParams.value, applier(res.classParams.value, rendered).0)
  {
  }
}
