/** The InferencePool plugin of the agentgateway translator
    (pkg/agentgateway/plugins/inference_plugin.go): the two backend policies
    generated per pool, validation of the pool's endpoint-picker reference,
    which HTTPRoutes use a pool, and the status written back to the pool.
    The informer lookups become finite maps and sequences handed in. */
module InferencePlugin {
  import opened Common
  import opened Text
  import opened GatewayOrder

  const InferenceGroup: string := "inference.networking.k8s.io"
  const InferencePoolKind: string := "InferencePool"
  const ServiceKind: string := "Service"
  const GatewayGroup: string := "gateway.networking.k8s.io"
  const GatewayKind: string := "Gateway"
  /** Kind and name of the pseudo-parent that carries validation errors. */
  const StatusParentKind: string := "Status"
  const StatusParentName: string := "default"
  const FailOpenMode: string := "FailOpen"
  const ProtocolTcp: string := "TCP"
  const ExternalNameType: string := "ExternalName"

  const CondAccepted: string := "Accepted"
  const CondResolvedRefs: string := "ResolvedRefs"
  const ReasonAccepted: string := "Accepted"
  const ReasonRouteNotAccepted: string := "HTTPRouteNotAccepted"
  const ReasonResolvedRefs: string := "ResolvedRefs"
  const ReasonInvalidExtensionRef: string := "InvalidExtensionRef"
  const MsgResolved: string := "All InferencePool references have been resolved"
  const MsgNotAccepted: string := "InferencePool is referenced by a route that is not accepted"

  /** Go's `int32`, the type of Kubernetes port numbers. */
  type Int32 = x: int | -0x8000_0000 <= x < 0x8000_0000

  /** The conversion `uint32(x)` of an `int32`: two's-complement
      reinterpretation. */
  function ToUint32(x: Int32): (r: nat)
    ensures r < 0x1_0000_0000
    ensures x >= 0 ==> r == x
    ensures x < 0 ==> r == x + 0x1_0000_0000
    ensures (r - x) % 0x1_0000_0000 == 0
  {
    if x < 0 then x + 0x1_0000_0000 else x
  }

  // ---------------------------------------------------------------------
  // Inputs

  /** `EndpointPickerRef`; the port is `nil` when absent. */
  datatype PickerRef = PickerRef(
    group: Option<string>,
    kind: string,
    name: string,
    port: Option<Int32>,
    failureMode: string)

  datatype InferencePool = InferencePool(
    namespace: string,
    name: string,
    generation: int,
    targetPorts: seq<Int32>,
    picker: PickerRef)

  datatype ServicePort = ServicePort(port: Int32, protocol: string)

  datatype Service = Service(serviceType: string, ports: seq<ServicePort>)

  // ---------------------------------------------------------------------
  // Policy translation

  /** `kubeutils.GetInferenceServiceHostname` and `GetServiceHostname`; how
      they spell hostnames is not part of this model. */
  datatype Hostname =
    | InferenceServiceHostname(name: string, namespace: string)
    | ServiceHostname(name: string, namespace: string)

  /** `TypedResourceName(kind, obj)`. */
  datatype TypedName = TypedName(kind: string, namespace: string, name: string)

  datatype FailureMode = FailOpen | FailClosed

  datatype PolicyTarget = ServiceTarget(namespace: string, hostname: Hostname, port: Option<string>)

  datatype PolicySpec =
    | InferenceRouting(pickerHost: Hostname, pickerNamespace: string, pickerPort: nat, failureMode: FailureMode)
    | BackendTlsInsecureAll

  datatype Policy = Policy(key: string, name: TypedName, target: PolicyTarget, spec: PolicySpec)

  /** A picker reference the translator can act on. */
  predicate PickerUsable(p: PickerRef) {
    (p.group.None? || p.group.value == "") && p.kind == ServiceKind && p.port.Some?
  }

  /** `translatePoliciesForInferencePool`: nothing for a picker with a
      group, a non-Service kind or no port; otherwise an inference-routing
      policy for the pool's service followed by a TLS policy (verification
      off) for the picker's service and port. */
  function TranslatePolicies(pool: InferencePool): (r: seq<Policy>)
    ensures |r| == 0 <==> !PickerUsable(pool.picker)
    ensures |r| != 0 ==> |r| == 2
    ensures |r| != 0 ==>
      var port := pool.picker.port.value;
      var pickerHost := ServiceHostname(pool.picker.name, pool.namespace);
      && r[0].key == pool.namespace + "/" + pool.name + ":inference"
      && r[1].key == pool.namespace + "/" + pool.name + ":inferencetls"
      && r[0].name == TypedName(InferencePoolKind, pool.namespace, pool.name)
      && r[1].name == r[0].name
      && r[0].target == ServiceTarget(pool.namespace, InferenceServiceHostname(pool.name, pool.namespace), None)
      && r[0].spec.InferenceRouting?
      && r[0].spec.pickerHost == pickerHost
      && r[0].spec.pickerNamespace == pool.namespace
      && r[0].spec.pickerPort == ToUint32(port)
      && (r[0].spec.failureMode == FailOpen <==> pool.picker.failureMode == FailOpenMode)
      && r[1].spec == BackendTlsInsecureAll
      && r[1].target.namespace == pool.namespace
      && r[1].target.hostname == pickerHost
      && r[1].target.port.Some?
      && (port >= 0 ==> var digits := r[1].target.port.value;
            (forall i :: 0 <= i < |digits| ==> IsDigit(digits[i])) && ParseDigits(digits) == port)
  {
    var epr := pool.picker;
    if epr.group.Some? && epr.group.value != "" then []
    else if epr.kind != ServiceKind then []
    else if epr.port.None? then []
    else
      var port := epr.port.value;
      var hostname := InferenceServiceHostname(pool.name, pool.namespace);
      var eppSvc := ServiceHostname(epr.name, pool.namespace);
      var mode := if epr.failureMode == FailOpenMode then FailOpen else FailClosed;
      var name := TypedName(InferencePoolKind, pool.namespace, pool.name);
      var routing := Policy(
        pool.namespace + "/" + pool.name + ":inference",
        name,
        ServiceTarget(pool.namespace, hostname, None),
        InferenceRouting(eppSvc, pool.namespace, ToUint32(port), mode));
      var tls := Policy(
        pool.namespace + "/" + pool.name + ":inferencetls",
        name,
        ServiceTarget(pool.namespace, eppSvc, Some(IntToString(port))),
        BackendTlsInsecureAll);
      if port >= 0 then ParseNatToString(port); [routing, tls] else [routing, tls]
  }

  /** The two policies of a pool never share a key. */
  lemma TranslatedKeysDistinct(pool: InferencePool)
    requires PickerUsable(pool.picker)
    ensures var r := TranslatePolicies(pool); r[0].key != r[1].key
  {
    var r := TranslatePolicies(pool);
    var prefix := pool.namespace + "/" + pool.name;
    assert r[0].key == prefix + ":inference";
    assert r[1].key == prefix + ":inferencetls";
    assert |r[0].key| != |r[1].key|;
  }

  // ---------------------------------------------------------------------
  // Validation

  datatype ValidationError =
    | InvalidGroup(group: string)
    | InvalidKind(kind: string)
    | InvalidOneTargetPort
    | PortRequired
    | ServiceNotFound(namespace: string, name: string)
    | ExternalNameNotAllowed
    | TcpPortNotFound(port: Int32, namespace: string, name: string)

  /** The position of each check in `validateInferencePool`. */
  function Rank(e: ValidationError): nat {
    match e
    case InvalidGroup(_) => 0
    case InvalidKind(_) => 1
    case InvalidOneTargetPort => 2
    case PortRequired => 3
    case ServiceNotFound(_, _) => 4
    case ExternalNameNotAllowed => 5
    case TcpPortNotFound(_, _, _) => 6
  }

  /** The error text. `%q` is modelled by `Quote`. */
  function Message(e: ValidationError): string {
    match e
    case InvalidGroup(g) => "invalid extensionRef: only core API group supported, got " + Quote(g)
    case InvalidKind(k) => "invalid extensionRef: Kind " + Quote(k) + " is not supported (only Service)"
    case InvalidOneTargetPort => "invalid InferencePool: must have exactly one target port"
    case PortRequired => "invalid extensionRef port must be specified"
    case ServiceNotFound(ns, n) => "invalid extensionRef: Service " + ns + "/" + n + " not found"
    case ExternalNameNotAllowed => "invalid extensionRef: must use any Service type other than ExternalName"
    case TcpPortNotFound(p, ns, n) => "TCP port " + IntToString(p) + " not found on Service " + ns + "/" + n
  }

  /** Each error message names what is wrong: the quoted group or kind,
      the missing Service as `<ns>/<name>`, and the port number in decimal. */
  lemma MessageNamesCulprit(e: ValidationError)
    ensures e.InvalidGroup? ==> IsInfix(Quote(e.group), Message(e))
    ensures e.InvalidKind? ==> IsInfix(Quote(e.kind), Message(e))
    ensures e.ServiceNotFound? ==> IsInfix(e.namespace + "/" + e.name, Message(e))
    ensures e.TcpPortNotFound? ==>
      && IsInfix(IntToString(e.port), Message(e))
      && IsInfix(e.namespace + "/" + e.name, Message(e))
  {
    match e
    case InvalidGroup(g) => GroupMessage(g);
    case InvalidKind(k) => KindMessage(k);
    case ServiceNotFound(ns, n) => ServiceMessage(ns, n);
    case TcpPortNotFound(p, ns, n) => PortMessage(p, ns, n);
    case _ =>
  }

  lemma GroupMessage(g: string)
    ensures IsInfix(Quote(g), Message(InvalidGroup(g)))
  {
    InfixMiddle("invalid extensionRef: only core API group supported, got ", Quote(g), "");
    assert Message(InvalidGroup(g)) + "" == Message(InvalidGroup(g));
  }

  lemma KindMessage(k: string)
    ensures IsInfix(Quote(k), Message(InvalidKind(k)))
  {
    InfixMiddle("invalid extensionRef: Kind ", Quote(k), " is not supported (only Service)");
  }

  lemma ServiceMessage(ns: string, n: string)
    ensures IsInfix(ns + "/" + n, Message(ServiceNotFound(ns, n)))
  {
    NameInside("invalid extensionRef: Service ", ns, n, " not found");
  }

  lemma PortMessage(p: Int32, ns: string, n: string)
    ensures IsInfix(IntToString(p), Message(TcpPortNotFound(p, ns, n)))
    ensures IsInfix(ns + "/" + n, Message(TcpPortNotFound(p, ns, n)))
  {
    PortAndNameInside("TCP port ", IntToString(p), " not found on Service ", ns, n);
  }

  /** `<ns>/<name>` occurs in a message that spells it out between `a` and `b`. */
  lemma NameInside(a: string, ns: string, n: string, b: string)
    ensures IsInfix(ns + "/" + n, a + ns + "/" + n + b)
  {
    assert a + ns + "/" + n + b == a + (ns + "/" + n) + b;
    InfixMiddle(a, ns + "/" + n, b);
  }

  /** Both the port and `<ns>/<name>` occur in a message laid out as
      `a`, port, `c`, `<ns>/<name>`. */
  lemma PortAndNameInside(a: string, port: string, c: string, ns: string, n: string)
    ensures IsInfix(port, a + port + c + ns + "/" + n)
    ensures IsInfix(ns + "/" + n, a + port + c + ns + "/" + n)
  {
    assert a + port + c + ns + "/" + n == a + port + (c + ns + "/" + n);
    InfixMiddle(a, port, c + ns + "/" + n);
    assert a + port + c + ns + "/" + n == (a + port + c) + (ns + "/" + n) + "";
    InfixMiddle(a + port + c, ns + "/" + n, "");
  }

  /** A Service port serves the picker: same number and TCP, where an empty
      protocol means TCP. */
  predicate PortServes(sp: ServicePort, port: Int32) {
    sp.port == port && (sp.protocol == "" || sp.protocol == ProtocolTcp)
  }

  /** The scan over the Service's ports. */
  function HasTcpPort(ports: seq<ServicePort>, port: Int32): (r: bool)
    ensures r <==> exists i :: 0 <= i < |ports| && PortServes(ports[i], port)
    decreases |ports|
  {
    if |ports| == 0 then false
    else
      var proto := if ports[0].protocol == "" then ProtocolTcp else ports[0].protocol;
      if ports[0].port == port && proto == ProtocolTcp then true
      else
        var rest := HasTcpPort(ports[1..], port);
        assert rest ==> exists i :: 0 <= i < |ports| && PortServes(ports[i], port) by {
          if rest {
            var i :| 0 <= i < |ports[1..]| && PortServes(ports[1..][i], port);
            assert ports[i + 1] == ports[1..][i];
          }
        }
        rest
  }

  function ServiceKey(pool: InferencePool): NamespacedName {
    NamespacedName(pool.namespace, pool.picker.name)
  }

  /** When an error is reported, with which payload: the independent
      statement of each check. */
  predicate Fires(pool: InferencePool, services: map<NamespacedName, Service>, e: ValidationError) {
    var p := pool.picker;
    var key := ServiceKey(pool);
    match e
    case InvalidGroup(g) => p.group == Some(g) && g != ""
    case InvalidKind(k) => k == p.kind && k != ServiceKind
    case InvalidOneTargetPort => |pool.targetPorts| != 1
    case PortRequired => p.port.None?
    case ServiceNotFound(ns, n) => p.port.Some? && key !in services && ns == pool.namespace && n == p.name
    case ExternalNameNotAllowed =>
      p.port.Some? && key in services && services[key].serviceType == ExternalNameType
    case TcpPortNotFound(port, ns, n) =>
      && p.port == Some(port) && key in services && ns == pool.namespace && n == p.name
      && !exists i :: 0 <= i < |services[key].ports| && PortServes(services[key].ports[i], port)
  }

  predicate RankSorted(errs: seq<ValidationError>) {
    forall i, j :: 0 <= i < j < |errs| ==> Rank(errs[i]) < Rank(errs[j])
  }

  lemma RankSortedConcat(a: seq<ValidationError>, b: seq<ValidationError>)
    requires RankSorted(a) && RankSorted(b)
    requires forall x, y :: x in a && y in b ==> Rank(x) < Rank(y)
    ensures RankSorted(a + b)
  {
    forall i, j | 0 <= i < j < |a + b| ensures Rank((a + b)[i]) < Rank((a + b)[j]) {
      if i < |a| && j >= |a| {
        assert (a + b)[i] in a && (a + b)[j] in b;
      }
    }
  }

  /** Errors found from the pool alone. */
  function SpecChecks(pool: InferencePool): (r: seq<ValidationError>)
    ensures RankSorted(r)
    ensures forall e :: e in r ==> Rank(e) <= 2
  {
    var p := pool.picker;
    (if p.group.Some? && p.group.value != "" then [InvalidGroup(p.group.value)] else [])
    + (if p.kind != ServiceKind then [InvalidKind(p.kind)] else [])
    + (if |pool.targetPorts| != 1 then [InvalidOneTargetPort] else [])
  }

  lemma SpecChecksIff(pool: InferencePool, services: map<NamespacedName, Service>)
    ensures forall e :: e in SpecChecks(pool) <==> Rank(e) <= 2 && Fires(pool, services, e)
  {
  }

  /** Errors found from the picker's Service. */
  function ServiceChecks(pool: InferencePool, svc: Service, port: Int32): (r: seq<ValidationError>)
    ensures RankSorted(r)
    ensures forall e :: e in r ==> 5 <= Rank(e)
  {
    (if svc.serviceType == ExternalNameType then [ExternalNameNotAllowed] else [])
    + (if !HasTcpPort(svc.ports, port) then [TcpPortNotFound(port, pool.namespace, pool.picker.name)] else [])
  }

  lemma ServiceChecksIff(pool: InferencePool, services: map<NamespacedName, Service>)
    requires pool.picker.port.Some? && ServiceKey(pool) in services
    ensures forall e :: e in ServiceChecks(pool, services[ServiceKey(pool)], pool.picker.port.value) <==>
      5 <= Rank(e) && Fires(pool, services, e)
  {
  }

  /** Which checks can fire in each of the three situations. */
  lemma FiresByRank(pool: InferencePool, services: map<NamespacedName, Service>, e: ValidationError)
    requires Fires(pool, services, e)
    ensures pool.picker.port.None? ==> Rank(e) <= 3
    ensures pool.picker.port.Some? ==> Rank(e) != 3
    ensures pool.picker.port.Some? && ServiceKey(pool) !in services ==> Rank(e) <= 4
    ensures pool.picker.port.Some? && ServiceKey(pool) in services ==> Rank(e) != 4
  {
  }

  /** `validateInferencePool`: an error is reported exactly when its check
      fires, and the errors come in the fixed order of the checks, each at
      most once. */
  function ValidateInferencePool(pool: InferencePool, services: map<NamespacedName, Service>): (errs: seq<ValidationError>)
    ensures RankSorted(errs)
    ensures forall e :: e in errs <==> Fires(pool, services, e)
  {
    var pre := SpecChecks(pool);
    SpecChecksIff(pool, services);
    assert forall e :: Fires(pool, services, e) ==> e in pre || Rank(e) > 2;
    forall e | Fires(pool, services, e) ensures FiresByRankFacts(pool, services, e) {
      FiresByRank(pool, services, e);
    }
    if pool.picker.port.None? then
      RankSortedConcat(pre, [PortRequired]);
      pre + [PortRequired]
    else
      var key := ServiceKey(pool);
      if key !in services then
        RankSortedConcat(pre, [ServiceNotFound(pool.namespace, pool.picker.name)]);
        pre + [ServiceNotFound(pool.namespace, pool.picker.name)]
      else
        var post := ServiceChecks(pool, services[key], pool.picker.port.value);
        ServiceChecksIff(pool, services);
        RankSortedConcat(pre, post);
        pre + post
  }

  predicate FiresByRankFacts(pool: InferencePool, services: map<NamespacedName, Service>, e: ValidationError) {
    && (pool.picker.port.None? ==> Rank(e) <= 3)
    && (pool.picker.port.Some? ==> Rank(e) != 3)
    && (pool.picker.port.Some? && ServiceKey(pool) !in services ==> Rank(e) <= 4)
    && (pool.picker.port.Some? && ServiceKey(pool) in services ==> Rank(e) != 4)
  }

  /** The error of highest rank in a rank-sorted list is its last. */
  lemma LastOfRankSorted(errs: seq<ValidationError>, e: ValidationError)
    requires RankSorted(errs) && e in errs
    requires forall x :: x in errs ==> Rank(x) <= Rank(e)
    ensures errs[|errs| - 1] == e
  {
    var m :| 0 <= m < |errs| && errs[m] == e;
  }

  /** A pool without a picker port ends its errors with `PortRequired`, and
      the Services are never consulted. */
  lemma ValidateStopsWithoutPort(pool: InferencePool, services: map<NamespacedName, Service>, others: map<NamespacedName, Service>)
    requires pool.picker.port.None?
    ensures var errs := ValidateInferencePool(pool, services);
      |errs| > 0 && errs[|errs| - 1] == PortRequired
    ensures ValidateInferencePool(pool, services) == ValidateInferencePool(pool, others)
  {
    var errs := ValidateInferencePool(pool, services);
    assert Fires(pool, services, PortRequired);
    forall x | x in errs ensures Rank(x) <= Rank(PortRequired) {
      FiresByRank(pool, services, x);
    }
    LastOfRankSorted(errs, PortRequired);
  }

  /** A picker Service that does not exist ends the errors with
      `ServiceNotFound`. */
  lemma ValidateStopsWithoutService(pool: InferencePool, services: map<NamespacedName, Service>)
    requires pool.picker.port.Some? && ServiceKey(pool) !in services
    ensures var errs := ValidateInferencePool(pool, services);
      |errs| > 0 && errs[|errs| - 1] == ServiceNotFound(pool.namespace, pool.picker.name)
  {
    var errs := ValidateInferencePool(pool, services);
    var e := ServiceNotFound(pool.namespace, pool.picker.name);
    assert Fires(pool, services, e);
    forall x | x in errs ensures Rank(x) <= Rank(e) {
      FiresByRank(pool, services, x);
    }
    LastOfRankSorted(errs, e);
  }

  /** The order of the early checks: a pool whose picker has a group, the
      wrong kind and several target ports, and no port, reports exactly
      those four errors in that order. */
  lemma ValidateAllSpecErrors(pool: InferencePool, services: map<NamespacedName, Service>, g: string)
    requires pool.picker.group == Some(g) && g != ""
    requires pool.picker.kind != ServiceKind
    requires |pool.targetPorts| == 2
    requires pool.picker.port.None?
    ensures ValidateInferencePool(pool, services) ==
      [InvalidGroup(g), InvalidKind(pool.picker.kind), InvalidOneTargetPort, PortRequired]
  {
  }

  // ---------------------------------------------------------------------
  // Routes

  datatype BackendRef = BackendRef(group: Option<string>, kind: Option<string>, namespace: Option<string>, name: string)

  datatype RouteRule = RouteRule(backendRefs: seq<BackendRef>)

  datatype ParentRef = ParentRef(group: Option<string>, kind: Option<string>, namespace: Option<string>, name: string)

  datatype CondStatus = ConditionTrue | ConditionFalse | ConditionUnknown

  /** `metav1.Condition` without its timestamp. */
  datatype Condition = Condition(condType: string, status: CondStatus, reason: string, message: string, observedGeneration: int)

  datatype RouteParentStatus = RouteParentStatus(parentRef: ParentRef, controllerName: string, conditions: seq<Condition>)

  datatype HttpRoute = HttpRoute(
    namespace: string,
    name: string,
    rules: seq<RouteRule>,
    parentRefs: seq<ParentRef>,
    statusParents: seq<RouteParentStatus>)

  /** A backend reference names the pool: group and kind default to the
      InferencePool ones, and a namespace other than the pool's rules it out. */
  predicate RefNamesPool(be: BackendRef, ns: string, name: string) {
    && (be.namespace.None? || be.namespace.value == ns)
    && be.group.GetOr(InferenceGroup) == InferenceGroup
    && be.kind.GetOr(InferencePoolKind) == InferencePoolKind
    && be.name == name
  }

  predicate UsesPool(rt: HttpRoute, ns: string, name: string) {
    exists i, j :: 0 <= i < |rt.rules| && 0 <= j < |rt.rules[i].backendRefs| && RefNamesPool(rt.rules[i].backendRefs[j], ns, name)
  }

  /** `routeUsesPool`: the scan over rules and their backend references. */
  method RouteUsesPool(rt: HttpRoute, ns: string, name: string) returns (r: bool)
    ensures r <==> UsesPool(rt, ns, name)
  {
    for i := 0 to |rt.rules|
      invariant forall i', j :: 0 <= i' < i && 0 <= j < |rt.rules[i'].backendRefs| ==>
        !RefNamesPool(rt.rules[i'].backendRefs[j], ns, name)
    {
      var refs := rt.rules[i].backendRefs;
      for j := 0 to |refs|
        invariant forall j' :: 0 <= j' < j ==> !RefNamesPool(refs[j'], ns, name)
      {
        var be := refs[j];
        var group := if be.group.Some? then be.group.value else InferenceGroup;
        var kind := if be.kind.Some? then be.kind.value else InferencePoolKind;
        if be.namespace.Some? && be.namespace.value != ns {
          continue;
        }
        if group == InferenceGroup && kind == InferencePoolKind && be.name == name {
          assert RefNamesPool(rt.rules[i].backendRefs[j], ns, name);
          return true;
        }
      }
    }
    return false;
  }

  /** `meta.FindStatusCondition`: the first condition of the given type. */
  function FindCondition(conds: seq<Condition>, t: string): (r: Option<Condition>)
    ensures r.None? <==> forall i :: 0 <= i < |conds| ==> conds[i].condType != t
    ensures r.Some? ==> (exists i :: 0 <= i < |conds| && conds[i] == r.value &&
                          conds[i].condType == t && forall k :: 0 <= k < i ==> conds[k].condType != t)
    decreases |conds|
  {
    if |conds| == 0 then None
    else if conds[0].condType == t then Some(conds[0])
    else
      var r := FindCondition(conds[1..], t);
      assert r.Some? ==> (exists i :: 0 <= i < |conds| && conds[i] == r.value &&
                           conds[i].condType == t && forall k :: 0 <= k < i ==> conds[k].condType != t) by {
        if r.Some? {
          var i :| 0 <= i < |conds[1..]| && conds[1..][i] == r.value && conds[1..][i].condType == t &&
            forall k :: 0 <= k < i ==> conds[1..][k].condType != t;
          assert conds[i + 1] == r.value;
          forall k | 0 <= k < i + 1 ensures conds[k].condType != t {
            if k > 0 {
              assert conds[k] == conds[1..][k - 1];
            }
          }
        }
      }
      assert r.None? ==> forall i :: 0 <= i < |conds| ==> conds[i].condType != t by {
        if r.None? {
          forall i | 0 <= i < |conds| ensures conds[i].condType != t {
            if i > 0 {
              assert conds[i] == conds[1..][i - 1];
            }
          }
        }
      }
      r
  }

  // ---------------------------------------------------------------------
  // Status aggregation

  /** One route parent's vote about one gateway. */
  datatype Vote = Vote(gateway: NamespacedName, accepted: bool)

  /** The parents a route is looked at through: its status parents when it
      has any, otherwise its spec parent refs with no controller and no
      conditions. */
  function ParentsOf(rt: HttpRoute): (ps: seq<RouteParentStatus>)
    ensures |rt.statusParents| != 0 ==> ps == rt.statusParents
    ensures |rt.statusParents| == 0 ==> |ps| == |rt.parentRefs|
    ensures |rt.statusParents| == 0 ==>
      forall i :: 0 <= i < |ps| ==> ps[i] == RouteParentStatus(rt.parentRefs[i], "", [])
  {
    if |rt.statusParents| != 0 then rt.statusParents
    else seq(|rt.parentRefs|, i requires 0 <= i < |rt.parentRefs| => RouteParentStatus(rt.parentRefs[i], "", []))
  }

  /** The vote of one parent, if the parent counts: written by this
      controller or by nobody, and a Gateway (group and kind may be left
      out). The namespace defaults to the route's. Only an explicit
      Accepted=False status is a rejection. */
  function VoteOf(rt: HttpRoute, ps: RouteParentStatus, useStatus: bool, ctrl: string): (v: Option<Vote>)
    ensures v.Some? <==>
      && (ps.controllerName == "" || ps.controllerName == ctrl)
      && ps.parentRef.group.GetOr(GatewayGroup) == GatewayGroup
      && ps.parentRef.kind.GetOr(GatewayKind) == GatewayKind
    ensures v.Some? ==> v.value.gateway == NamespacedName(ps.parentRef.namespace.GetOr(rt.namespace), ps.parentRef.name)
    ensures v.Some? && !useStatus ==> v.value.accepted
    ensures v.Some? && useStatus ==> (!v.value.accepted <==>
      exists i :: 0 <= i < |ps.conditions| && ps.conditions[i].condType == CondAccepted &&
        ps.conditions[i].status == ConditionFalse &&
        forall k :: 0 <= k < i ==> ps.conditions[k].condType != CondAccepted)
  {
    var pr := ps.parentRef;
    if ps.controllerName != "" && ps.controllerName != ctrl then None
    else if pr.group.Some? && pr.group.value != GatewayGroup then None
    else if pr.kind.Some? && pr.kind.value != GatewayKind then None
    else
      var ns := if pr.namespace.Some? then pr.namespace.value else rt.namespace;
      var accepted :=
        if useStatus then
          var cond := FindCondition(ps.conditions, CondAccepted);
          !(cond.Some? && cond.value.status == ConditionFalse)
        else true;
      Some(Vote(NamespacedName(ns, pr.name), accepted))
  }

  function VotesOfParents(rt: HttpRoute, ps: seq<RouteParentStatus>, useStatus: bool, ctrl: string): (vs: seq<Vote>)
    ensures forall v :: v in vs <==> exists i :: 0 <= i < |ps| && VoteOf(rt, ps[i], useStatus, ctrl) == Some(v)
    decreases |ps|
  {
    if |ps| == 0 then []
    else
      var init := VotesOfParents(rt, ps[..|ps| - 1], useStatus, ctrl);
      var last := VoteOf(rt, ps[|ps| - 1], useStatus, ctrl);
      assert forall i :: 0 <= i < |ps| - 1 ==> ps[..|ps| - 1][i] == ps[i];
      init + (if last.Some? then [last.value] else [])
  }

  /** The votes a route casts, in parent order. */
  function RouteVotes(rt: HttpRoute, ctrl: string): seq<Vote> {
    VotesOfParents(rt, ParentsOf(rt), |rt.statusParents| != 0, ctrl)
  }

  /** The routes that count for a pool: in its namespace and using it. */
  predicate RouteCounts(rt: HttpRoute, pool: InferencePool) {
    rt.namespace == pool.namespace && UsesPool(rt, pool.namespace, pool.name)
  }

  /** The lists concatenated in order. */
  function Flatten(xss: seq<seq<Vote>>): seq<Vote>
    decreases |xss|
  {
    if |xss| == 0 then [] else Flatten(xss[..|xss| - 1]) + xss[|xss| - 1]
  }

  lemma {:induction false} FlattenMembers(xss: seq<seq<Vote>>, v: Vote)
    ensures v in Flatten(xss) <==> exists i :: 0 <= i < |xss| && v in xss[i]
    decreases |xss|
  {
    if |xss| > 0 {
      var init := xss[..|xss| - 1];
      FlattenMembers(init, v);
      if exists i :: 0 <= i < |xss| && v in xss[i] {
        var i :| 0 <= i < |xss| && v in xss[i];
        if i < |xss| - 1 {
          assert v in init[i];
        }
      }
      if exists i :: 0 <= i < |init| && v in init[i] {
        var i :| 0 <= i < |init| && v in init[i];
        assert xss[i] == init[i];
      }
    }
  }

  /** The votes one route casts about the pool: none unless it counts. */
  function VotesAboutPool(rt: HttpRoute, pool: InferencePool, ctrl: string): seq<Vote> {
    if RouteCounts(rt, pool) then RouteVotes(rt, ctrl) else []
  }

  /** All votes about a pool, route by route. */
  function PoolVotes(routes: seq<HttpRoute>, pool: InferencePool, ctrl: string): seq<Vote> {
    Flatten(seq(|routes|, i requires 0 <= i < |routes| => VotesAboutPool(routes[i], pool, ctrl)))
  }

  /** The pool's votes are exactly the votes of the routes that count. */
  lemma PoolVotesMembers(routes: seq<HttpRoute>, pool: InferencePool, ctrl: string, v: Vote)
    ensures v in PoolVotes(routes, pool, ctrl) <==>
      exists i :: 0 <= i < |routes| && RouteCounts(routes[i], pool) && v in RouteVotes(routes[i], ctrl)
  {
    var xss := seq(|routes|, i requires 0 <= i < |routes| => VotesAboutPool(routes[i], pool, ctrl));
    FlattenMembers(xss, v);
    if exists i :: 0 <= i < |routes| && RouteCounts(routes[i], pool) && v in RouteVotes(routes[i], ctrl) {
      var i :| 0 <= i < |routes| && RouteCounts(routes[i], pool) && v in RouteVotes(routes[i], ctrl);
      assert v in xss[i];
    }
  }

  datatype Tally = Tally(anyAccepted: bool, anyRejected: bool)

  /** The `acceptedByParent` map built vote by vote. */
  function TallyVotes(vs: seq<Vote>): (m: map<NamespacedName, Tally>)
    decreases |vs|
  {
    if |vs| == 0 then map[]
    else
      var m := TallyVotes(vs[..|vs| - 1]);
      var v := vs[|vs| - 1];
      var st := if v.gateway in m then m[v.gateway] else Tally(false, false);
      m[v.gateway := if v.accepted then st.(anyAccepted := true) else st.(anyRejected := true)]
  }

  /** The tally records, per gateway, exactly whether some vote accepted and
      whether some vote rejected. */
  lemma {:induction false} TallyVotesSpec(vs: seq<Vote>, g: NamespacedName)
    ensures g in TallyVotes(vs) <==> exists i :: 0 <= i < |vs| && vs[i].gateway == g
    ensures g in TallyVotes(vs) ==>
      && (TallyVotes(vs)[g].anyAccepted <==> exists i :: 0 <= i < |vs| && vs[i] == Vote(g, true))
      && (TallyVotes(vs)[g].anyRejected <==> exists i :: 0 <= i < |vs| && vs[i] == Vote(g, false))
    decreases |vs|
  {
    if |vs| > 0 {
      var init := vs[..|vs| - 1];
      TallyVotesSpec(init, g);
      assert forall i :: 0 <= i < |init| ==> init[i] == vs[i];
      if (exists i :: 0 <= i < |vs| && vs[i].gateway == g) && vs[|vs| - 1].gateway != g {
        var i :| 0 <= i < |vs| && vs[i].gateway == g;
        assert init[i].gateway == g;
      }
      if exists i :: 0 <= i < |vs| && vs[i] == Vote(g, true) {
        var i :| 0 <= i < |vs| && vs[i] == Vote(g, true);
        if i < |vs| - 1 {
          assert init[i] == Vote(g, true);
        }
      }
      if exists i :: 0 <= i < |vs| && vs[i] == Vote(g, false) {
        var i :| 0 <= i < |vs| && vs[i] == Vote(g, false);
        if i < |vs| - 1 {
          assert init[i] == Vote(g, false);
        }
      }
    }
  }

  /** The switch over the tally: accepted unless rejections came with no
      acceptance. A gateway without a tally is accepted. */
  predicate TallyAccepts(m: map<NamespacedName, Tally>, g: NamespacedName) {
    if g !in m then true
    else if m[g].anyAccepted then true
    else if m[g].anyRejected then false
    else true
  }

  /** A gateway is reported not accepted exactly when some route parent
      rejected it and none accepted it. */
  lemma AcceptedUnlessOnlyRejected(vs: seq<Vote>, g: NamespacedName)
    ensures !TallyAccepts(TallyVotes(vs), g) <==>
      (exists i :: 0 <= i < |vs| && vs[i] == Vote(g, false)) &&
      !(exists i :: 0 <= i < |vs| && vs[i] == Vote(g, true))
  {
    TallyVotesSpec(vs, g);
    if exists i :: 0 <= i < |vs| && vs[i] == Vote(g, false) {
      var i :| 0 <= i < |vs| && vs[i] == Vote(g, false);
      assert vs[i].gateway == g;
    }
  }

  /** `gatewayControlledByAgw`: the gateway exists, its class exists, and
      the class names this controller. Gateways map to their class name,
      classes to their controller name. */
  predicate ControlledBy(gateways: map<NamespacedName, string>, classes: map<string, string>, ctrl: string, g: NamespacedName) {
    g in gateways && gateways[g] in classes && classes[gateways[g]] == ctrl
  }

  /** The three ways `gatewayControlledByAgw` answers: no such gateway, no
      such class, or the class's controller compared with this one. A
      gateway therefore has at most one owning controller. */
  lemma ControlledByCases(gateways: map<NamespacedName, string>, classes: map<string, string>, ctrl: string, g: NamespacedName)
    ensures g !in gateways ==> !ControlledBy(gateways, classes, ctrl, g)
    ensures g in gateways && gateways[g] !in classes ==> !ControlledBy(gateways, classes, ctrl, g)
    ensures g in gateways && gateways[g] in classes ==>
      (ControlledBy(gateways, classes, ctrl, g) <==> classes[gateways[g]] == ctrl)
    ensures forall other :: other != ctrl && ControlledBy(gateways, classes, ctrl, g) ==>
      !ControlledBy(gateways, classes, other, g)
  {
  }

  datatype PoolParentRef = PoolParentRef(kind: string, namespace: string, name: string)

  datatype PoolParentStatus = PoolParentStatus(parentRef: PoolParentRef, controllerName: string, conditions: seq<Condition>)

  function AcceptedCondition(gen: int, ctrl: string): Condition {
    Condition(CondAccepted, ConditionTrue, ReasonAccepted, "InferencePool has been accepted by controller " + ctrl, gen)
  }

  function NotAcceptedCondition(gen: int): Condition {
    Condition(CondAccepted, ConditionFalse, ReasonRouteNotAccepted, MsgNotAccepted, gen)
  }

  /** `buildAcceptedCondition` and `buildNotAcceptedCondition` fill the same
      condition slot, Accepted, for the pool's generation, with opposite
      statuses and distinct reasons; the accepting one names the controller.
      Neither shares its type with the ResolvedRefs condition, so setting
      both on one parent keeps two conditions. */
  lemma AcceptanceConditions(gen: int, ctrl: string)
    ensures AcceptedCondition(gen, ctrl).condType == NotAcceptedCondition(gen).condType == CondAccepted
    ensures AcceptedCondition(gen, ctrl).observedGeneration == NotAcceptedCondition(gen).observedGeneration == gen
    ensures AcceptedCondition(gen, ctrl).status == ConditionTrue && NotAcceptedCondition(gen).status == ConditionFalse
    ensures AcceptedCondition(gen, ctrl).reason != NotAcceptedCondition(gen).reason
    ensures IsInfix(ctrl, AcceptedCondition(gen, ctrl).message)
    ensures CondAccepted != CondResolvedRefs
  {
    InfixMiddle("InferencePool has been accepted by controller ", ctrl, "");
    assert "InferencePool has been accepted by controller " + ctrl + "" == AcceptedCondition(gen, ctrl).message;
    assert ReasonAccepted[0] != ReasonRouteNotAccepted[0];
    assert CondAccepted[0] != CondResolvedRefs[0];
  }

  /** `buildResolvedRefsCondition`, on the error messages. */
  function ResolvedRefsCondition(gen: int, msgs: seq<string>): (c: Condition)
    ensures c.condType == CondResolvedRefs && c.observedGeneration == gen
    ensures c.status == ConditionTrue <==> |msgs| == 0
    ensures c.status != ConditionUnknown
    ensures |msgs| == 0 ==> c.reason == ReasonResolvedRefs && c.message == MsgResolved
    ensures |msgs| > 0 ==> c.reason == ReasonInvalidExtensionRef
    ensures |msgs| == 1 ==> c.message == "error: " + msgs[0]
    ensures |msgs| >= 2 ==> c.message == "InferencePool has " + IntToString(|msgs|) + " errors: " + Join(msgs, "; ")
  {
    if |msgs| == 0 then
      Condition(CondResolvedRefs, ConditionTrue, ReasonResolvedRefs, MsgResolved, gen)
    else
      var prefix := if |msgs| == 1 then "error:" else "InferencePool has " + IntToString(|msgs|) + " errors:";
      Condition(CondResolvedRefs, ConditionFalse, ReasonInvalidExtensionRef, prefix + " " + Join(msgs, "; "), gen)
  }

  /** Every error message appears in the ResolvedRefs message, and the
      count printed before them reads back as the number of errors. */
  lemma ResolvedRefsMentionsEach(gen: int, msgs: seq<string>, k: int)
    requires 0 <= k < |msgs|
    ensures IsInfix(msgs[k], ResolvedRefsCondition(gen, msgs).message)
    ensures |msgs| >= 2 ==> ParseDigits(IntToString(|msgs|)) == |msgs|
  {
    var c := ResolvedRefsCondition(gen, msgs);
    JoinContains(msgs, "; ", k);
    var prefix := if |msgs| == 1 then "error:" else "InferencePool has " + IntToString(|msgs|) + " errors:";
    assert c.message == (prefix + " ") + Join(msgs, "; ");
    InfixOfConcat(msgs[k], prefix + " ", Join(msgs, "; "));
    ParseNatToString(|msgs|);
  }

  /** The entry for one gateway: its Accepted condition, then ResolvedRefs. */
  function GatewayParent(pool: InferencePool, g: NamespacedName, accepted: bool, ctrl: string, msgs: seq<string>): PoolParentStatus {
    PoolParentStatus(
      PoolParentRef(GatewayKind, g.namespace, g.name),
      ctrl,
      [if accepted then AcceptedCondition(pool.generation, ctrl) else NotAcceptedCondition(pool.generation),
       ResolvedRefsCondition(pool.generation, msgs)])
  }

  /** The keys of gateways this controller owns, in their original order. */
  function ControlledKeys(keys: seq<NamespacedName>, gateways: map<NamespacedName, string>, classes: map<string, string>, ctrl: string): (r: seq<NamespacedName>)
    ensures forall g :: g in r <==> g in keys && ControlledBy(gateways, classes, ctrl, g)
    ensures StrictlySorted(keys) ==> StrictlySorted(r)
    decreases |keys|
  {
    if |keys| == 0 then []
    else
      assert keys == [keys[0]] + keys[1..];
      var rest := ControlledKeys(keys[1..], gateways, classes, ctrl);
      if ControlledBy(gateways, classes, ctrl, keys[0]) then
        assert StrictlySorted(keys) ==> forall j :: 0 <= j < |rest| ==> KeyLess(keys[0], rest[j]) by {
          if StrictlySorted(keys) {
            forall j | 0 <= j < |rest| ensures KeyLess(keys[0], rest[j]) {
              assert rest[j] in keys[1..];
              var m :| 0 <= m < |keys[1..]| && keys[1..][m] == rest[j];
              assert keys[m + 1] == rest[j];
            }
          }
        }
        [keys[0]] + rest
      else rest
  }

  /** The validation errors as they are printed. */
  function Messages(errs: seq<ValidationError>): (msgs: seq<string>)
    ensures |msgs| == |errs|
    ensures forall i :: 0 <= i < |errs| ==> msgs[i] == Message(errs[i])
  {
    seq(|errs|, i requires 0 <= i < |errs| => Message(errs[i]))
  }

  /** The entry that carries validation errors when there are any. */
  function ErrorParent(pool: InferencePool, msgs: seq<string>): PoolParentStatus {
    PoolParentStatus(
      PoolParentRef(StatusParentKind, "", StatusParentName),
      "",
      [ResolvedRefsCondition(pool.generation, msgs)])
  }

  /** Some vote is about the gateway. */
  predicate VotedOn(votes: seq<Vote>, g: NamespacedName) {
    exists k :: 0 <= k < |votes| && votes[k].gateway == g
  }

  /** The gateways the status reports on: every gateway some counted route
      parent voted on and this controller owns, sorted by namespace then
      name, each once. */
  function ShownGateways(
    routes: seq<HttpRoute>, pool: InferencePool,
    gateways: map<NamespacedName, string>, classes: map<string, string>, ctrl: string): (r: seq<NamespacedName>)
    ensures StrictlySorted(r)
    ensures forall g :: g in r <==> ControlledBy(gateways, classes, ctrl, g) && VotedOn(PoolVotes(routes, pool, ctrl), g)
  {
    var votes := PoolVotes(routes, pool, ctrl);
    var gws := seq(|votes|, i requires 0 <= i < |votes| => votes[i].gateway);
    assert forall g :: g in gws <==> VotedOn(votes, g) by {
      forall g ensures g in gws <==> VotedOn(votes, g) {
        if VotedOn(votes, g) {
          var k :| 0 <= k < |votes| && votes[k].gateway == g;
          assert gws[k] == g;
        }
      }
    }
    var sorted := SortDistinct(gws);
    var r := ControlledKeys(sorted, gateways, classes, ctrl);
    forall g ensures g in r <==> ControlledBy(gateways, classes, ctrl, g) && VotedOn(votes, g) {
      assert g in sorted <==> g in gws;
    }
    r
  }

  /** `buildInferencePoolStatus`: one entry per shown gateway, in order,
      followed by the `Status/default` entry exactly when validation found
      errors. */
  function BuildInferencePoolStatus(
    pool: InferencePool, services: map<NamespacedName, Service>, routes: seq<HttpRoute>,
    gateways: map<NamespacedName, string>, classes: map<string, string>, ctrl: string): (r: seq<PoolParentStatus>)
    ensures var errs := ValidateInferencePool(pool, services);
      |errs| > 0 <==> |r| > 0 && r[|r| - 1].parentRef == PoolParentRef(StatusParentKind, "", StatusParentName)
    ensures var errs := ValidateInferencePool(pool, services);
      |errs| > 0 ==> r[|r| - 1] == ErrorParent(pool, Messages(errs))
    ensures |r| == |ShownGateways(routes, pool, gateways, classes, ctrl)| +
      (if |ValidateInferencePool(pool, services)| > 0 then 1 else 0)
  {
    var errs := ValidateInferencePool(pool, services);
    var msgs := Messages(errs);
    var tally := TallyVotes(PoolVotes(routes, pool, ctrl));
    var shown := ShownGateways(routes, pool, gateways, classes, ctrl);
    var parents := seq(|shown|, i requires 0 <= i < |shown| =>
                       GatewayParent(pool, shown[i], TallyAccepts(tally, shown[i]), ctrl, msgs));
    if |errs| != 0 then parents + [ErrorParent(pool, msgs)] else parents
  }

  /** The entry for the i-th shown gateway. */
  lemma StatusEntry(
    pool: InferencePool, services: map<NamespacedName, Service>, routes: seq<HttpRoute>,
    gateways: map<NamespacedName, string>, classes: map<string, string>, ctrl: string, i: int)
    requires 0 <= i < |ShownGateways(routes, pool, gateways, classes, ctrl)|
    ensures var r := BuildInferencePoolStatus(pool, services, routes, gateways, classes, ctrl);
      var g := ShownGateways(routes, pool, gateways, classes, ctrl)[i];
      r[i] == GatewayParent(pool, g, TallyAccepts(TallyVotes(PoolVotes(routes, pool, ctrl)), g),
                            ctrl, Messages(ValidateInferencePool(pool, services)))
  {
  }

  /** The i-th entry names the i-th shown gateway. */
  lemma StatusEntryKeys(
    pool: InferencePool, services: map<NamespacedName, Service>, routes: seq<HttpRoute>,
    gateways: map<NamespacedName, string>, classes: map<string, string>, ctrl: string)
    ensures var r := BuildInferencePoolStatus(pool, services, routes, gateways, classes, ctrl);
      var shown := ShownGateways(routes, pool, gateways, classes, ctrl);
      && |shown| <= |r|
      && forall i :: 0 <= i < |shown| ==>
           r[i].parentRef == PoolParentRef(GatewayKind, shown[i].namespace, shown[i].name) && r[i].controllerName == ctrl
  {
    var shown := ShownGateways(routes, pool, gateways, classes, ctrl);
    forall i | 0 <= i < |shown|
      ensures var r := BuildInferencePoolStatus(pool, services, routes, gateways, classes, ctrl);
        r[i].parentRef == PoolParentRef(GatewayKind, shown[i].namespace, shown[i].name) && r[i].controllerName == ctrl
    {
      StatusEntry(pool, services, routes, gateways, classes, ctrl, i);
    }
  }

  /** Gateway entries are sorted by namespace then name. */
  lemma StatusGatewaysSorted(
    pool: InferencePool, services: map<NamespacedName, Service>, routes: seq<HttpRoute>,
    gateways: map<NamespacedName, string>, classes: map<string, string>, ctrl: string)
    ensures var r := BuildInferencePoolStatus(pool, services, routes, gateways, classes, ctrl);
      var n := |ShownGateways(routes, pool, gateways, classes, ctrl)|;
      && n <= |r|
      && forall i, j :: 0 <= i < j < n ==>
           KeyLess(NamespacedName(r[i].parentRef.namespace, r[i].parentRef.name),
                   NamespacedName(r[j].parentRef.namespace, r[j].parentRef.name))
  {
    StatusEntryKeys(pool, services, routes, gateways, classes, ctrl);
    var r := BuildInferencePoolStatus(pool, services, routes, gateways, classes, ctrl);
    var shown := ShownGateways(routes, pool, gateways, classes, ctrl);
    assert forall i :: 0 <= i < |shown| ==> NamespacedName(r[i].parentRef.namespace, r[i].parentRef.name) == shown[i];
  }

  /** Entries whose parent refs follow a list of keys name a key exactly
      when it is in the list. */
  lemma EntriesNameKeys(shown: seq<NamespacedName>, r: seq<PoolParentStatus>, g: NamespacedName)
    requires |shown| <= |r|
    requires forall i :: 0 <= i < |shown| ==>
      r[i].parentRef == PoolParentRef(GatewayKind, shown[i].namespace, shown[i].name)
    ensures g in shown <==> exists i :: 0 <= i < |shown| && r[i].parentRef == PoolParentRef(GatewayKind, g.namespace, g.name)
  {
    if g in shown {
      var i :| 0 <= i < |shown| && shown[i] == g;
      assert r[i].parentRef == PoolParentRef(GatewayKind, g.namespace, g.name);
    }
    if exists i :: 0 <= i < |shown| && r[i].parentRef == PoolParentRef(GatewayKind, g.namespace, g.name) {
      var i :| 0 <= i < |shown| && r[i].parentRef == PoolParentRef(GatewayKind, g.namespace, g.name);
      assert shown[i] == g;
    }
  }

  /** A gateway has an entry exactly when this controller owns it and some
      counted route parent voted on it. */
  lemma StatusGatewaysComplete(
    pool: InferencePool, services: map<NamespacedName, Service>, routes: seq<HttpRoute>,
    gateways: map<NamespacedName, string>, classes: map<string, string>, ctrl: string, g: NamespacedName)
    ensures var r := BuildInferencePoolStatus(pool, services, routes, gateways, classes, ctrl);
      var n := |ShownGateways(routes, pool, gateways, classes, ctrl)|;
      && n <= |r|
      && (ControlledBy(gateways, classes, ctrl, g) && VotedOn(PoolVotes(routes, pool, ctrl), g) <==>
          exists i :: 0 <= i < n && r[i].parentRef == PoolParentRef(GatewayKind, g.namespace, g.name))
  {
    StatusEntryKeys(pool, services, routes, gateways, classes, ctrl);
    EntriesNameKeys(ShownGateways(routes, pool, gateways, classes, ctrl),
                    BuildInferencePoolStatus(pool, services, routes, gateways, classes, ctrl), g);
  }

  /** Each gateway entry carries Accepted=False exactly when that gateway
      saw a rejection and no acceptance, and always carries the pool's
      ResolvedRefs condition second. */
  lemma StatusGatewayAcceptance(
    pool: InferencePool, services: map<NamespacedName, Service>, routes: seq<HttpRoute>,
    gateways: map<NamespacedName, string>, classes: map<string, string>, ctrl: string, i: int)
    requires 0 <= i < |ShownGateways(routes, pool, gateways, classes, ctrl)|
    ensures var r := BuildInferencePoolStatus(pool, services, routes, gateways, classes, ctrl);
      var g := ShownGateways(routes, pool, gateways, classes, ctrl)[i];
      var votes := PoolVotes(routes, pool, ctrl);
      && |r[i].conditions| == 2
      && r[i].conditions[0].condType == CondAccepted
      && r[i].conditions[1] == ResolvedRefsCondition(pool.generation, Messages(ValidateInferencePool(pool, services)))
      && (r[i].conditions[0].status == ConditionFalse <==>
            (exists k :: 0 <= k < |votes| && votes[k] == Vote(g, false)) &&
            !(exists k :: 0 <= k < |votes| && votes[k] == Vote(g, true)))
  {
    var g := ShownGateways(routes, pool, gateways, classes, ctrl)[i];
    StatusEntry(pool, services, routes, gateways, classes, ctrl, i);
    AcceptedUnlessOnlyRejected(PoolVotes(routes, pool, ctrl), g);
  }
}
