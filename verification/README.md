# kgateway agentgateway deployer, fake client and InferencePool plugin — a Dafny model

This project models five pieces of kgateway's agentgateway support as pure
Dafny functions and proves their contracts:

- **Parameter resolution and Helm-value layering**, in both generations of
  the deployer:
  - `pkg/kgateway/deployer/agentgateway_parameters.go` → module `AgwParameters`;
  - `internal/kgateway/deployer/agentgateway_parameters.go` → module
    `AgwParametersInternal`.

  Given a Gateway, the model works out which AgentgatewayParameters apply:
  the Gateway's `infrastructure.parametersRef`, the GatewayClass's
  `parametersRef`, or both. It then layers their configs onto the default
  Helm values, GatewayClass first and Gateway on top. It applies their
  overlays in the same order.
- **The fake API client's null stripping and object seeding**
  (`pkg/apiclient/fake/fake.go` → module `FakeClient`). The client imitates
  the API server, which strips nulls from unvalidated JSON fields. A map
  that strips to nothing disappears. A list that strips to nothing survives
  as a Go nil slice and is re-encoded as `null`. Seed objects are split
  between two clientsets, and the group `"core"` is renamed to `""`.
- **The InferencePool plugin** (`pkg/agentgateway/plugins/inference_plugin.go`
  → module `InferencePlugin`), which covers four things:
  - the two backend policies generated per pool;
  - validation of the pool's endpoint-picker reference;
  - the backend-reference matcher over HTTPRoutes;
  - the status written back to the pool: one entry per gateway, sorted,
    with per-gateway acceptance aggregated over route parents, plus an
    error entry when validation fails.
- **The controller-name classifier** (`pkg/kgateway/wellknown/controller.go`
  → module `Wellknown`).

Shared modules:

| module | contents |
|---|---|
| `Common` | `Option`, `Result` and `NamespacedName` |
| `GoJson` | the JSON document type, the Go `any` value that `encoding/json` produces, and the codec interface |
| `AgwTypes` | the AgentgatewayParameters, Gateway API and Helm-values records |
| `Text` | the pieces of Go string handling the status messages rely on: `strings.Join`, decimal printing, `%q` and string `<` |
| `GatewayOrder` | the sort used for the status entries |

Everything the code gets from informers or the Kubernetes client is passed
in as a finite map or a sequence. This covers GatewayClasses,
AgentgatewayParameters, GatewayParameters, Services, HTTPRoutes, and
Gateway→class→controller lookups.

Three things are passed in as parameters because their code is not part of
this model:
- the strategic-merge-patch overlay engine;
- the JSON parser and printer;
- the Kubernetes plural guesser.

Where the code and its surrounding documentation disagree, the model follows
the code:
- The doc comment on `IsAgwControllerName`
  (`pkg/kgateway/wellknown/controller.go:40-42`) calls the legacy name the
  default and the other way round. The check is symmetric, so nothing
  depends on it; `Wellknown.ExactlyTwoAgwControllerNames` states this.
- The AgentgatewayParameters types file in the repository has no `RawConfig`
  and no PodDisruptionBudget or HorizontalPodAutoscaler overlays. The
  deployer and the fake client use all three, so `AgwTypes` includes them.

## Model

| member | source | states |
|---|---|---|
| `Common.SetIfNonNil` | pkg/kgateway/deployer/agentgateway_parameters.go:35-39 | A set source replaces the destination; a nil source leaves it as it was. |
| `AgwTypes.ApplyImage` | pkg/kgateway/deployer/agentgateway_parameters.go:61-70 | No image config leaves the image untouched, even a nil one. With an image config there is always an image record afterwards. Each of its five parts is the config's part when that is set, and the prior part (nil if there was no record) otherwise. |
| `AgwTypes.ApplyImageIdempotent` | pkg/kgateway/deployer/agentgateway_parameters.go:61-70 | Applying the same image config twice gives the same image as applying it once. |
| `AgwTypes.CopyInto` | internal/kgateway/deployer/agentgateway_parameters.go:198-209 | An empty source leaves the map unchanged, nil or not. Otherwise the map exists and its keys are the union of both sides. Source keys carry the source's values; every other existing key keeps its value. |
| `AgwTypes.CopyIntoIdempotent` | internal/kgateway/deployer/agentgateway_parameters.go:198-209 | Copying the same labels or annotations in twice is the same as once. |
| `AgwParameters.MergeEnvVars` | pkg/kgateway/deployer/agentgateway_parameters.go:96-121 | The result is the base variables whose name is not overridden, in base order, followed by all override variables in order. The two early returns, base when the override is empty and override when the base is empty, agree with that formula. |
| `AgwParameters.MergeEnvVarsOverrides` | pkg/kgateway/deployer/agentgateway_parameters.go:105-120 | No base variable whose name is overridden survives unless the override carries the very same variable. Every override variable is present. Nothing comes from anywhere else. |
| `AgwParameters.MergeEnvVarsIdempotent` | pkg/kgateway/deployer/agentgateway_parameters.go:105-120 | Merging the same override twice equals merging it once. |
| `AgwParameters.GoMap` | pkg/kgateway/deployer/agentgateway_parameters.go:75-77 | The Go map decoded from a JSON object has the object's keys, and each value re-encodes to the object's field. |
| `AgwParameters.ApplyLogFormat` | pkg/kgateway/deployer/agentgateway_parameters.go:82-87 | The log format is set only by a non-empty Format; otherwise the prior one stays. |
| `AgwParameters.ApplyConfigs` | pkg/kgateway/deployer/agentgateway_parameters.go:56-90 | Only these fields can change: image, resources, raw config, log format and env. The image follows `ApplyImage`. Resources are replaced only when set. The raw config is replaced only by non-empty bytes that decode to an object. It then has exactly that object's keys, and each value re-encodes to the object's field. Env vars are merged by name. |
| `AgwParameters.ApplyToHelmValues` | pkg/kgateway/deployer/agentgateway_parameters.go:51-91 | Nil parameters, nil values or a nil gateway section leave the values unchanged. Otherwise only the gateway section changes, as `ApplyConfigs` says. |
| `AgwParameters.ApplyToHelmValuesIdempotent` | pkg/kgateway/deployer/agentgateway_parameters.go:51-121 | Applying the same parameters twice gives the same values as applying them once. |
| `AgwParameters.ResolveParameters` | pkg/kgateway/deployer/agentgateway_parameters.go:198-243 | Resolution fails exactly when the class reference or the Gateway reference is unusable. A reference is unusable when it names a kind other than AgentgatewayParameters or when the object it names is missing. A missing GatewayClass is not an error. On success the class-level parameters are found under the reference's namespace, or "" when it has none. The Gateway-level ones are always found in the Gateway's own namespace. |
| `AgwParameters.ResolveClassLevel` | pkg/kgateway/deployer/agentgateway_parameters.go:201-222 | The GatewayClass half alone: fails exactly when the class reference is unusable, and otherwise returns the referenced parameters, or nothing when there is no reference. |
| `AgwParameters.DefaultHelmValues` | pkg/kgateway/deployer/agentgateway_parameters.go:289-374 | An empty port list is the only error. Otherwise the values carry the Gateway's name, namespace and class, the ports, the agentgateway xDS endpoint, the default image with an empty pull policy, and both security contexts. Env, resources, raw config and log format are not yet set. |
| `AgwParameters.GetValues` | pkg/kgateway/deployer/agentgateway_parameters.go:148-173 | Fails exactly for a non-Gateway object, a resolution error, or an empty port list. |
| `AgwParameters.GetValuesLayering` | pkg/kgateway/deployer/agentgateway_parameters.go:164-173 | A resource or image-tag setting comes from the Gateway level when that level sets it, otherwise from the class level when that sets it, otherwise from the defaults: the default tag and no resources. Every Gateway-level env var is present, and a variable whose name the Gateway sets comes from the Gateway. With neither level there is no env and no resources. |
| `AgwParameters.ApplyOverlaysToObjects` | pkg/kgateway/deployer/agentgateway_parameters.go:125-131 | Nil parameters leave the objects alone with no error; otherwise the overlay engine's outcome is returned. |
| `AgwParameters.PostProcessObjects` | pkg/kgateway/deployer/agentgateway_parameters.go:253-280 | A non-Gateway object and a resolution failure both yield the rendered objects and no error, with no overlay applied. Otherwise the class overlays run first. An error from them stops processing. If they succeed, the Gateway overlays run on their output. |
| `AgwParameters.PostProcessOrder` | pkg/kgateway/deployer/agentgateway_parameters.go:264-277 | With both levels present and the class overlays succeeding, the result is the Gateway overlays applied to the class overlays' output. |
| `AgwParametersInternal.GetGatewayClassFromGateway` | internal/kgateway/deployer/agentgateway_parameters.go:123-138 | Succeeds exactly for a non-nil Gateway with a non-empty class name whose class exists, and returns that class. |
| `AgwParametersInternal.GetAgentgatewayParametersFromGatewayClass` | internal/kgateway/deployer/agentgateway_parameters.go:79-121 | A class lookup error is passed on. A class with no reference, or with a reference to another kind, yields no parameters and no error. A reference to a missing AgentgatewayParameters is an error. Otherwise the parameters are found under the reference's namespace, or "" when it has none. |
| `AgwParametersInternal.GetAgentgatewayParametersForGateway` | internal/kgateway/deployer/agentgateway_parameters.go:52-77 | A Gateway reference to AgentgatewayParameters takes precedence and is looked up in the Gateway's namespace; a missing object is an error. Without such a reference the GatewayClass decides. |
| `AgwParametersInternal.ForeignInfraRefIgnored` | internal/kgateway/deployer/agentgateway_parameters.go:53-76 | A Gateway reference of any other kind gives the same outcome as no reference at all. |
| `AgwParametersInternal.GenerationsCompared` | internal/kgateway/deployer/agentgateway_parameters.go:52-101 | Whenever the current generation resolves, both generations pick the same Gateway-referenced AgentgatewayParameters. A class reference to another kind is an error in the current generation, but this generation passes over it. |
| `AgwParametersInternal.GetGatewayParametersForGateway` | internal/kgateway/deployer/agentgateway_parameters.go:284-307 | A Gateway reference to GatewayParameters is looked up in the Gateway's namespace, and nil when missing. Otherwise a class reference to GatewayParameters is looked up under its namespace, or "". With neither reference the result is nil. It is never an error. |
| `AgwParametersInternal.GatewayParametersRefShadowsClass` | internal/kgateway/deployer/agentgateway_parameters.go:286-291 | Once the Gateway names a GatewayParameters, the GatewayClasses never influence the result, even when the named object is missing. |
| `AgwParametersInternal.ShouldOmitDefaultSecurityContext` | internal/kgateway/deployer/agentgateway_parameters.go:311-316 | True exactly when a GatewayParameters with a kube section explicitly sets the flag to true; the default is false. |
| `AgwParametersInternal.ApplyToHelmValues` | internal/kgateway/deployer/agentgateway_parameters.go:153-210 | Nil parameters, nil values or a nil gateway section leave the values unchanged. Otherwise the gateway section is updated as `ApplyConfigs` of this generation says. |
| `AgwParametersInternal.ApplyToHelmValuesRepeatsEnv` | internal/kgateway/deployer/agentgateway_parameters.go:188-190 | Applying the same parameters twice appends their env vars twice, so this generation, unlike the current one, is not idempotent. |
| `AgwParametersInternal.ApplyLogLevel` | internal/kgateway/deployer/agentgateway_parameters.go:192-196 | The log level is set only by a non-empty Level; otherwise the prior one stays. |
| `AgwParametersInternal.AppendEnv` | internal/kgateway/deployer/agentgateway_parameters.go:185-190 | The existing variables come first, unchanged and in order, followed by every config variable in order. Nothing is de-duplicated. |
| `AgwParametersInternal.ApplyConfigs` | internal/kgateway/deployer/agentgateway_parameters.go:158-209 | Only these fields can change: image, resources, env, log level, pod labels and pod annotations. Image parts and resources are overwritten only when set. Env vars are appended. Labels and annotations are unioned, with the config winning. |
| `AgwParametersInternal.AppendEnvExample` | internal/kgateway/deployer/agentgateway_parameters_test.go:91-118 | EXISTING_VAR followed by CUSTOM_VAR and ANOTHER_VAR gives all three, in that order. |
| `AgwParametersInternal.CopyIntoExample` | internal/kgateway/deployer/agentgateway_parameters_test.go:142-173 | An existing label survives next to a new one. A nil annotation map is created to hold the new annotation. |
| `AgwParametersInternal.ApplyGatewayParametersToHelmValues` | internal/kgateway/deployer/agentgateway_parameters.go:322-340 | No GatewayParameters, no kube section or no gateway section leaves the values unchanged. Otherwise the pod template's extra labels and annotations are unioned in, and nothing else changes. |
| `AgwParametersInternal.DefaultHelmValues` | internal/kgateway/deployer/agentgateway_parameters.go:358-455 | An empty port list is the only error. Otherwise both xDS endpoints and the agentgateway data-plane marker are set. Each security context is set exactly when the defaults are not omitted. Env, log level, labels and annotations are not yet set. |
| `AgwParametersInternal.GetValues` | internal/kgateway/deployer/agentgateway_parameters.go:237-267 | A non-Gateway object and a resolution error are errors. Once parameters resolve, an empty port list is the only error. The container security context is present exactly when the GatewayParameters found for the Gateway does not ask to omit it. |
| `AgwParametersInternal.ApplyOverlaysToObjects` | internal/kgateway/deployer/agentgateway_parameters.go:214-220 | Nil parameters leave the objects alone with no error; otherwise the overlay engine's outcome is returned. |
| `GoJson.FromJson` | pkg/apiclient/fake/fake.go:206-209 | Decoding into `any` gives nil exactly for `null`, a slice exactly for an array (same length) and a map exactly for an object (same keys), and never a nil slice. |
| `GoJson.Marshal` | pkg/apiclient/fake/fake.go:214 | Nil and a nil slice both encode as `null`; only a non-nil slice encodes as an array and only a map as an object. |
| `GoJson.MarshalFromJson` | pkg/apiclient/fake/fake.go:206-214 | Re-encoding a decoded document gives the document back. |
| `GoJson.FromJsonExact` | pkg/apiclient/fake/fake.go:206-209 | Decoding into `any` keeps every number within float64's exact range exactly when the document's numbers are within it. |
| `GoJson.MarshalExact` | pkg/apiclient/fake/fake.go:214 | Encoding keeps every number within float64's exact range exactly when the value's numbers are within it. |
| `FakeClient.StripNulls` | pkg/apiclient/fake/fake.go:221-253 | The result is in normal form: no nil inside, no empty map and no empty non-nil list. Scalars (including `false`, `0` and `""`), nil and a nil slice pass through. A map strips to a map or to nothing. A list strips to a list or to a nil slice. |
| `FakeClient.StripNullsMap` | pkg/apiclient/fake/fake.go:223-237 | A map collapses to nothing exactly when every value strips to nothing. A key survives exactly when its value does not strip to nothing, and carries the stripped value. A key whose value was null never survives. |
| `FakeClient.StripNullsSlice` | pkg/apiclient/fake/fake.go:238-249 | A list strips to its surviving stripped elements, or to a nil slice when none survive. |
| `FakeClient.StrippedElemsOrder` | pkg/apiclient/fake/fake.go:238-249 | Stripping a list works part by part: the survivors of a concatenation are the survivors of each part, in order. |
| `FakeClient.StrippedElemsSingle` | pkg/apiclient/fake/fake.go:240-247 | One element contributes its stripped value, or nothing when it strips to nothing. |
| `FakeClient.StripNullsNormal` | pkg/apiclient/fake/fake.go:221-253 | A value already in normal form is left exactly as it is. |
| `FakeClient.StripNullsFixpoint` | pkg/apiclient/fake/fake.go:221-253 | Stripping leaves a value unchanged exactly when it is in normal form, so stripping twice equals stripping once. |
| `FakeClient.StripNullsExact` | pkg/apiclient/fake/fake.go:221-253 | Stripping only drops values, so it never introduces a number outside float64's exact range. |
| `FakeClient.StrippedExact` | pkg/apiclient/fake/fake.go:206-214 | A decoded document with exact numbers still has exact numbers after stripping and re-encoding, so a faithful codec round-trips it. |
| `FakeClient.StripNullsEmptyMaps` | pkg/apiclient/fake/fake.go:234-236 | `{}` and `{"k": null}` both strip to nothing. |
| `FakeClient.StripNullsEmptyLists` | pkg/apiclient/fake/fake.go:239-249 | `[]` and `[null]` both strip to a nil slice rather than to nothing. |
| `FakeClient.StripNullsEmptyListInObject` | pkg/apiclient/fake/fake.go:210-218 | `{"k": []}` strips and re-encodes to `{"k": null}`. |
| `FakeClient.StripNullsFromJson` | pkg/apiclient/fake/fake.go:202-219 | Empty input and input that does not parse come back unchanged. A document that strips to nothing gives empty output. For a document whose numbers float64 holds exactly, and a faithful codec, the output is empty only in that case, and otherwise decodes to the stripped document. |
| `FakeClient.StripNullsFromApiExtJson` | pkg/apiclient/fake/fake.go:191-200 | A nil or empty field, or one that does not parse, is returned as is. A field whose document strips to nothing becomes nil. For a document whose numbers float64 holds exactly, and a faithful codec, that is the only way to become nil, and otherwise the field holds the stripped document. |
| `FakeClient.StripOverlay` | pkg/apiclient/fake/fake.go:172-186 | A missing overlay stays missing. A present one keeps its metadata and has its spec stripped. |
| `FakeClient.StripNullsFromAgwp` | pkg/apiclient/fake/fake.go:167-189 | Nil stays nil. Otherwise only the five overlay specs and the raw config change. Namespace, name, overlay metadata and every other config stay as they were. |
| `FakeClient.StripApiExtTwice` | pkg/apiclient/fake/fake.go:191-200 | With a faithful codec, stripping a field a second time changes nothing further. This holds provided the field's numbers are ones float64 holds exactly, and the first pass left no nil slice behind. |
| `FakeClient.StripApiExtEmptyList` | pkg/apiclient/fake/fake.go:191-219 | The field `{"k": []}` becomes `{"k": null}`. |
| `FakeClient.StripApiExtNullField` | pkg/apiclient/fake/fake.go:196-198 | The field `{"k": null}` becomes nil. |
| `FakeClient.StripApiExtEmptyListTwice` | pkg/apiclient/fake/fake.go:191-219 | Without that proviso stripping is not idempotent: `{"k": []}` survives one pass, and the `{"k": null}` left behind becomes nil on the next. |
| `FakeClient.FromJsonMarshalNormal` | pkg/apiclient/fake/fake.go:206-214 | A stripped value with no nil slice inside survives encoding and decoding exactly. |
| `FakeClient.Side` | pkg/apiclient/fake/fake.go:105-125 | One side of the split holds exactly the input objects of that kind class. |
| `FakeClient.SidesPartition` | pkg/apiclient/fake/fake.go:105-125 | The two sides together are a permutation of the input: every object lands in exactly one list. |
| `FakeClient.FilterObjects` | pkg/apiclient/fake/fake.go:105-125 | Both lists keep the input's relative order. Together they hold every object exactly once. The second holds exactly the eleven kgateway and agentgateway CRD types. |
| `FakeClient.GetGvr` | pkg/apiclient/fake/fake.go:135-153 | A group-less object takes its kind from the scheme. The well-known table wins when it knows the kind. Otherwise the plural guess is used, and an empty guess is the only error. The group is never left as `"core"`. |
| `FakeClient.NormalizeGroup` | pkg/apiclient/fake/fake.go:149-151 | `"core"` becomes `""`, every other group is kept, and version and resource never change. |
| `Text.Join` | pkg/agentgateway/plugins/inference_plugin.go:414 | Joining nothing gives "", and joining one element gives that element. |
| `Text.JoinContains` | pkg/agentgateway/plugins/inference_plugin.go:408-414 | Every joined element occurs in the joined string. |
| `Text.IntToString` | pkg/agentgateway/plugins/inference_plugin.go:406 | `%d` and `strconv.Itoa` print a minus sign before the magnitude's digits. |
| `Text.ParseNatToString` | pkg/agentgateway/plugins/inference_plugin.go:126 | Reading back the printed digits of a number gives the number. |
| `Text.IntToStringInjective` | pkg/agentgateway/plugins/inference_plugin.go:406 | Different numbers print differently. |
| `Text.Quote` | pkg/agentgateway/plugins/inference_plugin.go:31-32 | `%q` puts the text between double quotes. |
| `Text.StrLessIrreflexive` | pkg/agentgateway/plugins/inference_plugin.go:229-234 | No string sorts before itself. |
| `Text.StrLessTransitive` | pkg/agentgateway/plugins/inference_plugin.go:229-234 | Go's string order is transitive. |
| `Text.StrLessTotal` | pkg/agentgateway/plugins/inference_plugin.go:229-234 | Of two different strings, one sorts before the other. |
| `Text.StrLessAsymmetric` | pkg/agentgateway/plugins/inference_plugin.go:229-234 | Two strings never sort before each other. |
| `GatewayOrder.KeyLessIrreflexive` | pkg/agentgateway/plugins/inference_plugin.go:229-234 | No gateway key sorts before itself. |
| `GatewayOrder.KeyLessTransitive` | pkg/agentgateway/plugins/inference_plugin.go:229-234 | The namespace-then-name comparison is transitive. |
| `GatewayOrder.KeyLessTotal` | pkg/agentgateway/plugins/inference_plugin.go:229-234 | Two different keys are ordered one way or the other, so the sort is deterministic. |
| `GatewayOrder.KeyLessAsymmetric` | pkg/agentgateway/plugins/inference_plugin.go:229-234 | Two keys never sort before each other. |
| `GatewayOrder.Insert` | pkg/agentgateway/plugins/inference_plugin.go:225-234 | Inserting into a strictly sorted list keeps it strictly sorted and adds exactly the new key. |
| `GatewayOrder.SortDistinct` | pkg/agentgateway/plugins/inference_plugin.go:225-234 | The result is strictly sorted and holds exactly the keys of the input. |
| `GatewayOrder.SortedUnique` | pkg/agentgateway/plugins/inference_plugin.go:224-234 | Two strictly sorted lists with the same keys are equal. The output therefore does not depend on the order in which the map of active gateways is iterated. |
| `InferencePlugin.ToUint32` | pkg/agentgateway/plugins/inference_plugin.go:111 | `uint32` of an `int32` keeps a non-negative value and adds 2^32 to a negative one. |
| `InferencePlugin.TranslatePolicies` | pkg/agentgateway/plugins/inference_plugin.go:64-147 | No policies when the picker has a non-empty group, a kind other than Service, or no port. Otherwise exactly two policies, keyed `<ns>/<name>:inference` then `<ns>/<name>:inferencetls`, both named after the pool. The first routes the pool's service through the picker's service at the `uint32` port, failing open exactly when the reference says FailOpen. The second turns off TLS verification for the picker's service at the port, printed in decimal. |
| `InferencePlugin.TranslatedKeysDistinct` | pkg/agentgateway/plugins/inference_plugin.go:97-124 | The two policies of a pool never share a key. |
| `InferencePlugin.MessageNamesCulprit` | pkg/agentgateway/plugins/inference_plugin.go:31-37 | Each validation message names what is wrong. The group and kind appear quoted. A missing Service appears as `<ns>/<name>`. The TCP-port message gives both the port in decimal and the Service. |
| `InferencePlugin.HasTcpPort` | pkg/agentgateway/plugins/inference_plugin.go:349-360 | True exactly when some Service port has the picker's number and is TCP, an empty protocol counting as TCP. |
| `InferencePlugin.SpecChecks` | pkg/agentgateway/plugins/inference_plugin.go:323-331 | The checks on the pool alone yield group, kind and target-port errors only, in that order. |
| `InferencePlugin.SpecChecksIff` | pkg/agentgateway/plugins/inference_plugin.go:323-331 | Each of those three errors is reported exactly when its condition holds. |
| `InferencePlugin.ServiceChecks` | pkg/agentgateway/plugins/inference_plugin.go:345-363 | The checks on the picker's Service yield the ExternalName error and the missing-TCP-port error only, in that order. |
| `InferencePlugin.ServiceChecksIff` | pkg/agentgateway/plugins/inference_plugin.go:345-363 | Each of those two errors is reported exactly when its condition holds. |
| `InferencePlugin.FiresByRank` | pkg/agentgateway/plugins/inference_plugin.go:333-343 | Without a port only the first four checks can fire. Without the Service the Service checks cannot fire. |
| `InferencePlugin.ValidateInferencePool` | pkg/agentgateway/plugins/inference_plugin.go:319-366 | An error is reported exactly when its check fires. The errors come in the fixed order of the checks, each at most once. |
| `InferencePlugin.ValidateStopsWithoutPort` | pkg/agentgateway/plugins/inference_plugin.go:333-336 | Without a picker port the last error is PortRequired, and the Services are never consulted. |
| `InferencePlugin.ValidateStopsWithoutService` | pkg/agentgateway/plugins/inference_plugin.go:338-343 | When the picker's Service does not exist, the last error is ServiceNotFound. |
| `InferencePlugin.ValidateAllSpecErrors` | pkg/agentgateway/plugins/inference_plugin.go:323-336 | A picker with a group, the wrong kind, two target ports and no port reports exactly those four errors, in that order. |
| `InferencePlugin.RouteUsesPool` | pkg/agentgateway/plugins/inference_plugin.go:295-317 | True exactly when some backend reference in some rule names the pool. A nil group or kind defaults to the inference group and InferencePool kind. An explicit namespace other than the pool's rules the reference out. |
| `InferencePlugin.FindCondition` | pkg/agentgateway/plugins/inference_plugin.go:209 | Finds nothing exactly when no condition has the type; otherwise finds the first condition with that type. |
| `InferencePlugin.ParentsOf` | pkg/agentgateway/plugins/inference_plugin.go:181-188 | A route with status parents is read through them. Otherwise it is read through its spec parent refs, one per ref, with no controller and no conditions. |
| `InferencePlugin.VoteOf` | pkg/agentgateway/plugins/inference_plugin.go:190-219 | A parent counts exactly when its controller is this one or empty and it is a Gateway, with group and kind allowed to be absent. Its namespace defaults to the route's. Spec parents always accept. A status parent rejects exactly when its first Accepted condition is False. |
| `InferencePlugin.VotesOfParents` | pkg/agentgateway/plugins/inference_plugin.go:190-221 | The votes of a route are exactly the votes of its counting parents. |
| `InferencePlugin.PoolVotesMembers` | pkg/agentgateway/plugins/inference_plugin.go:175-222 | The pool's votes are exactly those cast by routes that are in the pool's namespace and use the pool. |
| `InferencePlugin.TallyVotesSpec` | pkg/agentgateway/plugins/inference_plugin.go:207-220 | A gateway has a tally exactly when some vote is about it. The tally records exactly whether some vote accepted it and whether some vote rejected it. |
| `InferencePlugin.AcceptedUnlessOnlyRejected` | pkg/agentgateway/plugins/inference_plugin.go:247-255 | A gateway is reported not accepted exactly when some parent rejected it and none accepted it. |
| `InferencePlugin.ResolvedRefsCondition` | pkg/agentgateway/plugins/inference_plugin.go:390-416 | No errors: True / ResolvedRefs with the fixed message. One error: False / InvalidExtensionRef with `error: e`. More: False / InvalidExtensionRef with `InferencePool has n errors: e1; e2…`. The observed generation is the pool's. |
| `InferencePlugin.ResolvedRefsMentionsEach` | pkg/agentgateway/plugins/inference_plugin.go:402-414 | Every error message appears in the condition's message, and the printed count reads back as the number of errors. |
| `InferencePlugin.ControlledByCases` | pkg/agentgateway/plugins/inference_plugin.go:279-293 | `ControlledBy` is false for an unknown gateway and for a gateway whose class is unknown. Otherwise it holds exactly when the class names this controller, so a gateway has at most one owning controller. |
| `InferencePlugin.ControlledKeys` | pkg/agentgateway/plugins/inference_plugin.go:235-238 | Only the gateways this controller owns are kept, and sorted input stays sorted. |
| `InferencePlugin.Messages` | pkg/agentgateway/plugins/inference_plugin.go:408-411 | One message per error, in the errors' order. |
| `InferencePlugin.ShownGateways` | pkg/agentgateway/plugins/inference_plugin.go:224-238 | The gateways reported on are strictly sorted, and are exactly those that some counted route parent voted on and that this controller owns. |
| `InferencePlugin.BuildInferencePoolStatus` | pkg/agentgateway/plugins/inference_plugin.go:162-277 | A `Status/default` entry is last exactly when validation found errors, and it carries only the ResolvedRefs condition. Otherwise there is one entry per shown gateway and nothing else. |
| `InferencePlugin.StatusEntry` | pkg/agentgateway/plugins/inference_plugin.go:239-262 | The i-th entry is the i-th shown gateway's. It carries that gateway's acceptance by the tally and the pool's ResolvedRefs condition. |
| `InferencePlugin.StatusEntryKeys` | pkg/agentgateway/plugins/inference_plugin.go:239-246 | Each gateway entry names its gateway as kind Gateway and carries this controller's name. |
| `InferencePlugin.StatusGatewaysSorted` | pkg/agentgateway/plugins/inference_plugin.go:229-235 | The gateway entries are strictly sorted by namespace, then name. |
| `InferencePlugin.StatusGatewaysComplete` | pkg/agentgateway/plugins/inference_plugin.go:224-238 | A gateway has an entry exactly when this controller owns it and some counted route parent voted on it. |
| `InferencePlugin.StatusGatewayAcceptance` | pkg/agentgateway/plugins/inference_plugin.go:247-262 | Each gateway entry has two conditions, Accepted then the pool's ResolvedRefs. Accepted is False exactly when some parent rejected the gateway and none accepted it. |
| `InferencePlugin.AcceptanceConditions` | pkg/agentgateway/plugins/inference_plugin.go:368-388 | `AcceptedCondition` and `NotAcceptedCondition` fill the same Accepted slot for the pool's generation. They have opposite statuses and distinct reasons, and the accepting one names the controller. Their type differs from ResolvedRefs, so a parent keeps both conditions. |
| `Wellknown.IsAgwControllerName` | pkg/kgateway/wellknown/controller.go:40-45 | True exactly for the two agentgateway controller names. |
| `Wellknown.IsAgwControllerNameCases` | pkg/kgateway/wellknown/controller_test.go:5-69 | The table test: both agentgateway names are accepted. The Envoy controller, the empty name, an unrelated name, and the near misses `agentgateway.dev/kgateway` and `kgateway.dev/agent` are rejected. |
| `Wellknown.ExactlyTwoAgwControllerNames` | pkg/kgateway/wellknown/controller.go:19-23 | Exactly two names are accepted, and neither is the Envoy controller's, so swapping "default" and "legacy" changes nothing. |

## Left out

- The strategic-merge-patch overlay engine is not part of this model; both `ApplyOverlaysToObjects` functions take it as a parameter. Its errors may come after some objects have already changed, so it returns the objects together with its error.
- encoding/json's byte-level parser and printer are not part of this model. They are a `Codec` parameter, and a faithful codec is assumed where stated: on documents whose numbers float64 holds exactly, what it prints it parses back, and never as empty bytes.
- JSON numbers are unbounded integers here. Go decodes them into an `any` as `float64` and re-encodes that, so an integer beyond 2^53 comes back rounded, and fractions cannot be written in this model at all. The contracts below promise the round trip only for documents whose numbers are integers of magnitude at most 2^53 (`GoJson.ExactNumbers`).
- FakeClient.StripNullsFromJson: for a document with an integer beyond 2^53 or a fraction, the model says only which cases return the input unchanged and which give empty output. It says nothing about how the numbers are re-printed.
- FakeClient.StripNullsFromApiExtJson: likewise, for such a document it says only when the field is kept as is and when it becomes nil.
- FakeClient.StripApiExtTwice: idempotence is proved only for fields whose numbers float64 holds exactly. Go's first pass rounds other numbers to a float64, which then re-prints unchanged, but the model has no float64 values to state that with.
- FakeClient.StripNullsFromJson: `json.Marshal` errors are not modelled. A value decoded from JSON always marshals, so that branch is unreachable in the source too.
- `stripNullsFromRawExtensionFields` is not modelled separately. It only dispatches AgentgatewayParameters objects to `stripNullsFromAGWP`, and the rest of the fake client constructor is not modelled either.
- FakeClient.GetGvr: requires that the scheme knows a kind for an object without a group. The source indexes `gvks[0]` and panics otherwise; `mustGetGVR` also turns errors into panics.
- The fake client's tracker, the informer and `krt` collections, and the Kubernetes client are not part of this model. Their lookups are finite maps or sequences.
- AgwParameters.GetValues and AgwParametersInternal.GetValues stop before the xDS CA certificate injection and the final JSON conversion. The first is file I/O; the second is a generic struct-to-map conversion.
- `GetPortsValues` and `GetGatewayIR` are not part of this model. The ports are an input, and only whether the list is empty matters.
- `translateInfraMeta` is taken as the identity on the Gateway's infrastructure labels and annotations.
- The default image coordinates (`AgentgatewayRegistry`, `AgentgatewayImage`, `AgentgatewayDefaultTag`) are an input; their values are not part of this model.
- AgwParametersInternal.ApplyGatewayParametersToHelmValues: the Service and ServiceAccount values come from `GetServiceValues` and `GetServiceAccountValues`, which are not part of this model, so only the pod labels and annotations are modelled.
- The earlier generation reads the Gateway's fields before the nil check in `getGatewayClassFromGateway`, so a nil Gateway would crash there. The model's Gateways are never nil, except in the modelled nil check itself.
- Condition timestamps (`metav1.Now()`) are left out. `meta.SetStatusCondition` on a fresh list with distinct condition types is modelled as appending.
- InferencePlugin.TranslatePolicies: the hostnames from `GetInferenceServiceHostname` and `GetServiceHostname`, and the `TypedResourceName` name, are kept symbolic. Their spelling is not part of this model.
- `%q` is modelled without escape sequences (`Text.Quote`), which is exact for names that need no escaping.
- Go's string `<` compares UTF-8 bytes; the model compares code points, which orders strings the same way.
- Constants whose definitions are in packages that are not part of this model take the values those packages publish:
  - the AgentgatewayParameters group `agentgateway.dev`;
  - the GatewayParameters group `gateway.kgateway.dev`;
  - the data-plane type `agentgateway` that the earlier generation writes into the Helm values;
  - the inference group `inference.networking.k8s.io`;
  - the condition reasons `Accepted`, `HTTPRouteNotAccepted`, `ResolvedRefs` and `InvalidExtensionRef`.
- Plugin registration, the status collection wiring and `GetCacheSyncHandlers` are left out; they are `krt` plumbing.
