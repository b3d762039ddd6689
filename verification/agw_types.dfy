/** The records the agentgateway deployer reads and writes: the
    AgentgatewayParameters resource (configs and overlays), the Gateway API
    objects that reference it, the legacy GatewayParameters resource, and the
    Helm values record handed to the chart. Only the fields the deployer
    touches are kept. */
module AgwTypes {
  import opened Common
  import opened GoJson

  /** API group of AgentgatewayParameters (`agentgateway.GroupName`). */
  const AgwGroup: string := "agentgateway.dev"
  /** Kind of `wellknown.AgentgatewayParametersGVK`. */
  const AgwParamsKind: string := "AgentgatewayParameters"
  /** API group of GatewayParameters (`kgateway.GroupName`). */
  const KgwGroup: string := "gateway.kgateway.dev"
  /** Kind of `wellknown.GatewayParametersGVK`. */
  const GatewayParamsKind: string := "GatewayParameters"

  // ---------------------------------------------------------------------
  // AgentgatewayParameters

  datatype EnvVar = EnvVar(name: string, value: string)

  /** `corev1.ResourceRequirements`, carried through opaquely. */
  datatype Resources = Resources(limits: map<string, string>, requests: map<string, string>)

  /** The user-facing container image; every part is optional. */
  datatype Image = Image(
    registry: Option<string>,
    repository: Option<string>,
    tag: Option<string>,
    digest: Option<string>,
    pullPolicy: Option<string>)

  datatype Logging = Logging(level: string, levels: seq<string>, format: string)

  /** `apiextensionsv1.JSON`: raw, unvalidated JSON bytes. */
  datatype RawJson = RawJson(raw: Bytes)

  datatype Configs = Configs(
    labels: map<string, string>,
    annotations: map<string, string>,
    logging: Option<Logging>,
    image: Option<Image>,
    env: seq<EnvVar>,
    resources: Option<Resources>,
    rawConfig: Option<RawJson>)

  datatype ObjectMetadata = ObjectMetadata(labels: map<string, string>, annotations: map<string, string>)

  /** `KubernetesResourceOverlay`: metadata to merge and an opaque spec patch. */
  datatype Overlay = Overlay(metadata: ObjectMetadata, spec: Option<RawJson>)

  datatype Overlays = Overlays(
    deployment: Option<Overlay>,
    service: Option<Overlay>,
    serviceAccount: Option<Overlay>,
    podDisruptionBudget: Option<Overlay>,
    horizontalPodAutoscaler: Option<Overlay>)

  datatype ParamsSpec = ParamsSpec(configs: Configs, overlays: Overlays)

  datatype Params = Params(namespace: string, name: string, spec: ParamsSpec)

  // ---------------------------------------------------------------------
  // Gateway API objects

  /** `gwv1.LocalParametersReference` on a Gateway's infrastructure. */
  datatype LocalParametersRef = LocalParametersRef(group: string, kind: string, name: string)

  datatype Infrastructure = Infrastructure(
    labels: map<string, string>,
    annotations: map<string, string>,
    parametersRef: Option<LocalParametersRef>)

  datatype Gateway = Gateway(
    namespace: string,
    name: string,
    className: string,
    infrastructure: Option<Infrastructure>)

  /** `gwv1.ParametersReference` on a GatewayClass; the namespace is optional. */
  datatype ParametersRef = ParametersRef(group: string, kind: string, name: string, namespace: Option<string>)

  datatype GatewayClass = GatewayClass(name: string, controllerName: string, parametersRef: Option<ParametersRef>)

  /** The object handed to a values generator or post-processor: only a
      Gateway is acted on. */
  datatype ClientObject = GatewayObject(gateway: Gateway) | OtherObject(kind: string)

  /** The legacy GatewayParameters resource, reduced to what the agentgateway
      deployer reads from it. */
  datatype KubeProxyConfig = KubeProxyConfig(
    omitDefaultSecurityContext: Option<bool>,
    podExtraLabels: map<string, string>,
    podExtraAnnotations: map<string, string>)

  datatype GatewayParameters = GatewayParameters(namespace: string, name: string, kube: Option<KubeProxyConfig>)

  /** The informer caches the deployer reads, as finite maps. GatewayClasses
      are cluster scoped and keyed by name. */
  datatype Store = Store(
    classes: map<string, GatewayClass>,
    agwParams: map<NamespacedName, Params>,
    gwParams: map<NamespacedName, GatewayParameters>)

  /** A reference names AgentgatewayParameters exactly when group and kind both match. */
  predicate IsAgwRef(group: string, kind: string) {
    group == AgwGroup && kind == AgwParamsKind
  }

  // ---------------------------------------------------------------------
  // Helm values

  datatype HelmImage = HelmImage(
    registry: Option<string>,
    repository: Option<string>,
    tag: Option<string>,
    digest: Option<string>,
    pullPolicy: Option<string>)

  /** A port entry as `GetPortsValues` returns it; its computation is not part
      of this model. */
  datatype HelmPort = HelmPort(name: string, port: int, targetPort: int)

  datatype HelmXds = HelmXds(host: string, port: int, tlsEnabled: bool, caCert: string)

  datatype Probe = Probe(
    path: string,
    port: int,
    periodSeconds: int,
    timeoutSeconds: int,
    failureThreshold: int,
    successThreshold: int)

  datatype GracefulShutdown = GracefulShutdown(enabled: bool, sleepTimeSeconds: int)

  datatype Sysctl = Sysctl(name: string, value: string)

  datatype PodSecurityContext = PodSecurityContext(sysctls: seq<Sysctl>)

  datatype SecurityContext = SecurityContext(
    allowPrivilegeEscalation: bool,
    dropCapabilities: seq<string>,
    readOnlyRootFilesystem: bool,
    runAsNonRoot: bool,
    runAsUser: int)

  /** The `gateway` section of the Helm values. Maps and pointers that Go
      distinguishes as nil are `Option`s here. */
  datatype HelmGateway = HelmGateway(
    dataPlaneType: Option<string>,
    name: Option<string>,
    gatewayName: Option<string>,
    gatewayNamespace: Option<string>,
    gatewayClassName: Option<string>,
    gatewayAnnotations: Option<map<string, string>>,
    gatewayLabels: Option<map<string, string>>,
    ports: seq<HelmPort>,
    xds: Option<HelmXds>,
    agwXds: Option<HelmXds>,
    image: Option<HelmImage>,
    terminationGracePeriodSeconds: Option<int>,
    gracefulShutdown: Option<GracefulShutdown>,
    readinessProbe: Option<Probe>,
    startupProbe: Option<Probe>,
    podSecurityContext: Option<PodSecurityContext>,
    securityContext: Option<SecurityContext>,
    resources: Option<Resources>,
    env: seq<EnvVar>,
    logLevel: Option<string>,
    logFormat: Option<string>,
    rawConfig: Option<map<string, Any>>,
    extraPodLabels: Option<map<string, string>>,
    extraPodAnnotations: Option<map<string, string>>)

  datatype HelmConfig = HelmConfig(gateway: Option<HelmGateway>)

  /** Control-plane settings the default values are built from. */
  datatype ControlPlane = ControlPlane(
    xdsHost: string,
    xdsPort: int,
    agwXdsPort: int,
    xdsTls: bool,
    xdsTlsCaPath: string)

  /** Default image coordinates (`deployer.AgentgatewayRegistry`, …); their
      values are not part of this model, only that they are used. */
  datatype ImageDefaults = ImageDefaults(registry: string, repository: string, tag: string)

  const ReadyPath: string := "/healthz/ready"
  const ReadyPort: int := 15021

  /** The readiness probe every default rendering carries. */
  const DefaultReadinessProbe: Probe := Probe(ReadyPath, ReadyPort, 10, 0, 0, 0)

  /** The startup probe every default rendering carries. */
  const DefaultStartupProbe: Probe := Probe(ReadyPath, ReadyPort, 1, 2, 60, 1)

  /** Lets unprivileged processes bind ports below 1024. */
  const DefaultPodSecurityContext: PodSecurityContext :=
    PodSecurityContext([Sysctl("net.ipv4.ip_unprivileged_port_start", "0")])

  const DefaultSecurityContext: SecurityContext :=
    SecurityContext(false, ["ALL"], true, true, 10101)

  /** The image a config produces: a record is created only when the config
      has an image, and each part is overwritten only by a set config part. */
  function ApplyImage(c: Option<Image>, img: Option<HelmImage>): (r: Option<HelmImage>)
    ensures c.None? ==> r == img
    ensures c.Some? ==> r.Some?
    ensures c.Some? ==> var prior := img.GetOr(HelmImage(None, None, None, None, None));
      && (c.value.registry.Some? ==> r.value.registry == c.value.registry)
      && (c.value.registry.None? ==> r.value.registry == prior.registry)
      && (c.value.repository.Some? ==> r.value.repository == c.value.repository)
      && (c.value.repository.None? ==> r.value.repository == prior.repository)
      && (c.value.tag.Some? ==> r.value.tag == c.value.tag)
      && (c.value.tag.None? ==> r.value.tag == prior.tag)
      && (c.value.digest.Some? ==> r.value.digest == c.value.digest)
      && (c.value.digest.None? ==> r.value.digest == prior.digest)
      && (c.value.pullPolicy.Some? ==> r.value.pullPolicy == c.value.pullPolicy)
      && (c.value.pullPolicy.None? ==> r.value.pullPolicy == prior.pullPolicy)
  {
    match c
    case None => img
    case Some(ci) =>
      var base := img.GetOr(HelmImage(None, None, None, None, None));
      Some(HelmImage(
        SetIfNonNil(base.registry, ci.registry),
        SetIfNonNil(base.repository, ci.repository),
        SetIfNonNil(base.tag, ci.tag),
        SetIfNonNil(base.digest, ci.digest),
        SetIfNonNil(base.pullPolicy, ci.pullPolicy)))
  }

  /** Go's `maps.Copy(dst, src)` preceded by "create dst if nil", done only
      when `src` is non-empty: keys of `src` win, every other key of `dst`
      stays, and a nil `dst` stays nil when there is nothing to copy. */
  function CopyInto(dst: Option<map<string, string>>, src: map<string, string>): (r: Option<map<string, string>>)
    ensures |src| == 0 ==> r == dst
    ensures |src| > 0 ==> r.Some? && r.value.Keys == dst.GetOr(map[]).Keys + src.Keys
    ensures |src| > 0 ==> forall k :: k in src ==> r.value[k] == src[k]
    ensures |src| > 0 && dst.Some? ==> forall k :: k in dst.value && k !in src ==> r.value[k] == dst.value[k]
  {
    if |src| > 0 then Some(dst.GetOr(map[]) + src) else dst
  }

  /** Applying the same image config twice is the same as applying it once. */
  lemma ApplyImageIdempotent(c: Option<Image>, img: Option<HelmImage>)
    ensures ApplyImage(c, ApplyImage(c, img)) == ApplyImage(c, img)
  {
  }

  /** Copying the same map in twice is the same as copying it once. */
  lemma CopyIntoIdempotent(dst: Option<map<string, string>>, src: map<string, string>)
    ensures CopyInto(CopyInto(dst, src), src) == CopyInto(dst, src)
  {
    if |src| > 0 {
      var once := dst.GetOr(map[]) + src;
      assert once + src == once;
    }
  }
}
