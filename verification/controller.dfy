/** Well-known names of the kgateway controllers
    (pkg/kgateway/wellknown/controller.go) and the check that tells an
    agentgateway controller name from any other. */
module Wellknown {

  const DefaultGatewayClassName: string := "kgateway"
  const DefaultWaypointClassName: string := "kgateway-waypoint"
  const DefaultAgwClassName: string := "agentgateway"

  /** The Envoy-based controller. */
  const DefaultGatewayControllerName: string := "kgateway.dev/kgateway"
  const DefaultAgwControllerName: string := "agentgateway.dev/agentgateway"
  /** Still accepted for backwards compatibility. */
  const LegacyAgwControllerName: string := "kgateway.dev/agentgateway"

  /** The names accepted as agentgateway controllers. */
  const AgwControllerNames: set<string> := {DefaultAgwControllerName, LegacyAgwControllerName}

  /** `IsAgwControllerName`: exact comparison against the two names. */
  function IsAgwControllerName(controllerName: string): (r: bool)
    ensures r <==> controllerName in AgwControllerNames
  {
    controllerName == DefaultAgwControllerName || controllerName == LegacyAgwControllerName
  }

  /** The table of controller_test.go: both agentgateway names are
      accepted; the Envoy controller, the empty name, an unrelated name and
      near misses that mix the two domains or cut a name short are not. */
  lemma IsAgwControllerNameCases()
    ensures IsAgwControllerName(DefaultAgwControllerName)
    ensures IsAgwControllerName(LegacyAgwControllerName)
    ensures IsAgwControllerName("agentgateway.dev/agentgateway")
    ensures IsAgwControllerName("kgateway.dev/agentgateway")
    ensures !IsAgwControllerName(DefaultGatewayControllerName)
    ensures !IsAgwControllerName("kgateway.dev/kgateway")
    ensures !IsAgwControllerName("")
    ensures !IsAgwControllerName("example.com/my-controller")
    ensures !IsAgwControllerName("agentgateway.dev/kgateway")
    ensures !IsAgwControllerName("kgateway.dev/agent")
  {
    assert "agentgateway.dev/kgateway" != DefaultAgwControllerName by {
      assert "agentgateway.dev/kgateway"[17] != DefaultAgwControllerName[17];
    }
    assert "kgateway.dev/kgateway" != LegacyAgwControllerName by {
      assert "kgateway.dev/kgateway"[13] != LegacyAgwControllerName[13];
    }
  }

  /** Exactly two names are accepted, so which of them is called the
      default and which the legacy one makes no difference to the check. */
  lemma ExactlyTwoAgwControllerNames()
    ensures |AgwControllerNames| == 2
    ensures forall n :: IsAgwControllerName(n) <==> n == LegacyAgwControllerName || n == DefaultAgwControllerName
    ensures DefaultAgwControllerName != DefaultGatewayControllerName && LegacyAgwControllerName != DefaultGatewayControllerName
  {
    assert DefaultAgwControllerName[0] != LegacyAgwControllerName[0];
  }
}
