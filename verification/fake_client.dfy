/** The pure logic of the fake API client used by the tests
    (pkg/apiclient/fake/fake.go): stripping nulls from the opaque JSON
    fields of AgentgatewayParameters the way the API server strips them from
    `x-kubernetes-preserve-unknown-fields` data, splitting seed objects
    between the two fake clientsets, and normalising the core API group. */
module FakeClient {
  import opened Common
  import opened GoJson
  import opened AgwTypes

  // ---------------------------------------------------------------------
  // Null stripping on Go values

  /** The shape every stripped value has: no nil inside a map or a slice, no
      empty map, no empty non-nil slice. A nil slice is allowed; it is how
      a list whose elements all stripped away survives. */
  predicate Normal(v: Any)
    decreases v
  {
    match v
    case Slice(elems) =>
      |elems| > 0 && forall i :: 0 <= i < |elems| ==> elems[i] != Nil && Normal(elems[i])
    case Map(entries) =>
      |entries| > 0 && forall k :: k in entries ==> entries[k] != Nil && Normal(entries[k])
    case _ => true
  }

  /** The non-nil values of a list, in order. */
  function KeepNonNil(xs: seq<Any>): (r: seq<Any>)
    ensures forall x :: x in r <==> x in xs && x != Nil
    ensures |r| <= |xs|
  {
    if |xs| == 0 then []
    else (if xs[0] == Nil then [] else [xs[0]]) + KeepNonNil(xs[1..])
  }

  /** `stripNullsRecursive`. In a map, a null value and a value that strips
      to nothing are dropped, and a map left empty becomes nothing (nil). In
      a list, such elements are dropped too, but a list left empty becomes a
      nil slice, which is kept by its parent. Everything else is returned
      as is. */
  function StripNulls(v: Any): (r: Any)
    ensures Normal(r)
    ensures IsScalar(v) || v == Nil || v == NilSlice ==> r == v
    ensures v.Map? ==> r == Nil || r.Map?
    ensures v.Slice? ==> r.Slice? || r == NilSlice
    decreases v
  {
    match v
    case Map(entries) =>
      var kept := map k | k in entries && entries[k] != Nil && StripNulls(entries[k]) != Nil
                        :: StripNulls(entries[k]);
      if |kept| == 0 then Nil else Map(kept)
    case Slice(elems) =>
      var stripped := seq(|elems|, i requires 0 <= i < |elems| =>
                          if elems[i] == Nil then Nil else StripNulls(elems[i]));
      var kept := KeepNonNil(stripped);
      if |kept| == 0 then NilSlice
      else
        assert forall i :: 0 <= i < |kept| ==> kept[i] != Nil && Normal(kept[i]) by {
          forall i | 0 <= i < |kept| ensures kept[i] != Nil && Normal(kept[i]) {
            assert kept[i] in stripped;
            var j :| 0 <= j < |stripped| && stripped[j] == kept[i];
          }
        }
        Slice(kept)
    case _ => v
  }

  /** The list a slice strips to, before the empty case turns it nil. */
  function StrippedElems(elems: seq<Any>): seq<Any> {
    KeepNonNil(seq(|elems|, i requires 0 <= i < |elems| => StripNulls(elems[i])))
  }

  /** In a map, a key survives exactly when its value does not strip to
      nothing (a null value never survives), a surviving key carries its
      stripped value, and the map itself collapses to nothing exactly when
      no key survives. */
  lemma StripNullsMap(entries: map<string, Any>)
    ensures var r := StripNulls(Map(entries));
      && (r == Nil <==> forall k :: k in entries ==> StripNulls(entries[k]) == Nil)
      && (r.Map? ==> forall k :: k in r.entries <==> k in entries && StripNulls(entries[k]) != Nil)
      && (r.Map? ==> forall k :: k in r.entries ==> r.entries[k] == StripNulls(entries[k]))
      && (forall k :: k in entries && entries[k] == Nil ==> r == Nil || k !in r.entries)
  {
    var kept := map k | k in entries && entries[k] != Nil && StripNulls(entries[k]) != Nil
                      :: StripNulls(entries[k]);
    assert StripNulls(Map(entries)) == if |kept| == 0 then Nil else Map(kept);
    if |kept| == 0 {
      assert kept.Keys == {};
      forall k | k in entries ensures StripNulls(entries[k]) == Nil {
        assert k !in kept.Keys;
      }
    } else {
      var k :| k in kept;
    }
  }

  lemma StripNullsSlice(elems: seq<Any>)
    ensures StripNulls(Slice(elems)) ==
      if |StrippedElems(elems)| == 0 then NilSlice else Slice(StrippedElems(elems))
  {
    var a := seq(|elems|, i requires 0 <= i < |elems| => if elems[i] == Nil then Nil else StripNulls(elems[i]));
    var b := seq(|elems|, i requires 0 <= i < |elems| => StripNulls(elems[i]));
    assert a == b;
  }

  lemma {:induction false} KeepNonNilConcat(a: seq<Any>, b: seq<Any>)
    ensures KeepNonNil(a + b) == KeepNonNil(a) + KeepNonNil(b)
    decreases |a|
  {
    if |a| == 0 {
      assert a + b == b;
    } else {
      var head := if a[0] == Nil then [] else [a[0]];
      assert (a + b)[0] == a[0];
      assert (a + b)[1..] == a[1..] + b;
      assert KeepNonNil(a + b) == head + KeepNonNil(a[1..] + b);
      KeepNonNilConcat(a[1..], b);
      assert KeepNonNil(a) == head + KeepNonNil(a[1..]);
    }
  }

  /** Stripping a list works element by element and keeps the survivors in
      their original order: the stripped concatenation is the concatenation
      of the stripped parts, and one element strips to itself-stripped or to
      nothing. */
  lemma StrippedElemsOrder(a: seq<Any>, b: seq<Any>)
    ensures StrippedElems(a + b) == StrippedElems(a) + StrippedElems(b)
  {
    var sa := seq(|a|, i requires 0 <= i < |a| => StripNulls(a[i]));
    var sb := seq(|b|, i requires 0 <= i < |b| => StripNulls(b[i]));
    var sab := seq(|a + b|, i requires 0 <= i < |a + b| => StripNulls((a + b)[i]));
    assert sab == sa + sb;
    KeepNonNilConcat(sa, sb);
  }

  lemma StrippedElemsSingle(x: Any)
    ensures StrippedElems([x]) == if StripNulls(x) == Nil then [] else [StripNulls(x)]
  {
    var s := seq(1, i requires 0 <= i < 1 => StripNulls([x][i]));
    assert s == [StripNulls(x)];
    assert s[1..] == [];
  }

  /** A value already in normal form is left exactly as it is. */
  lemma {:induction false} StripNullsNormal(v: Any)
    requires Normal(v)
    ensures StripNulls(v) == v
    decreases v
  {
    match v
    case Map(entries) =>
      forall k | k in entries ensures StripNulls(entries[k]) == entries[k] {
        StripNullsNormal(entries[k]);
      }
      var kept := map k | k in entries && entries[k] != Nil && StripNulls(entries[k]) != Nil
                        :: StripNulls(entries[k]);
      assert kept == entries;
    case Slice(elems) =>
      forall i | 0 <= i < |elems| ensures StripNulls(elems[i]) == elems[i] {
        StripNullsNormal(elems[i]);
      }
      var stripped := seq(|elems|, i requires 0 <= i < |elems| =>
                          if elems[i] == Nil then Nil else StripNulls(elems[i]));
      assert stripped == elems;
      KeepNonNilAllSome(elems);
    case _ =>
  }

  lemma {:induction false} KeepNonNilAllSome(xs: seq<Any>)
    requires forall i :: 0 <= i < |xs| ==> xs[i] != Nil
    ensures KeepNonNil(xs) == xs
    decreases |xs|
  {
    if |xs| > 0 {
      KeepNonNilAllSome(xs[1..]);
    }
  }

  /** Stripping changes a value exactly when it is not in normal form, so
      stripping twice is the same as stripping once. */
  lemma StripNullsFixpoint(v: Any)
    ensures StripNulls(v) == v <==> Normal(v)
    ensures StripNulls(StripNulls(v)) == StripNulls(v)
  {
    if Normal(v) {
      StripNullsNormal(v);
    }
    StripNullsNormal(StripNulls(v));
  }

  /** Stripping only drops values, so it never brings in a number that
      float64 would not hold. */
  lemma {:induction false} StripNullsExact(v: Any)
    requires ExactAny(v)
    ensures ExactAny(StripNulls(v))
    decreases v
  {
    match v
    case Map(entries) =>
      forall k | k in entries ensures ExactAny(StripNulls(entries[k])) {
        StripNullsExact(entries[k]);
      }
      StripNullsMap(entries);
    case Slice(elems) =>
      var stripped := seq(|elems|, i requires 0 <= i < |elems| => StripNulls(elems[i]));
      forall i | 0 <= i < |elems| ensures ExactAny(stripped[i]) {
        StripNullsExact(elems[i]);
      }
      StripNullsSlice(elems);
      var kept := StrippedElems(elems);
      forall i | 0 <= i < |kept| ensures ExactAny(kept[i]) {
        assert kept[i] in stripped;
      }
    case _ =>
  }

  /** A decoded document with exact numbers strips and re-encodes to one. */
  lemma StrippedExact(doc: Json)
    ensures ExactNumbers(doc) ==> ExactNumbers(Marshal(StripNulls(FromJson(doc))))
  {
    FromJsonExact(doc);
    if ExactNumbers(doc) {
      StripNullsExact(FromJson(doc));
    }
    MarshalExact(StripNulls(FromJson(doc)));
  }

  /** `{}` and `{"a": null}` collapse to nothing. */
  lemma StripNullsEmptyMaps(k: string)
    ensures StripNulls(Map(map[])) == Nil
    ensures StripNulls(Map(map[k := Nil])) == Nil
  {
    StripNullsMap(map[k := Nil]);
  }

  /** `[]` and `[null]` become a nil slice rather than disappearing. */
  lemma StripNullsEmptyLists()
    ensures StripNulls(Slice([])) == NilSlice
    ensures StripNulls(Slice([Nil])) == NilSlice
  {
    StripNullsSlice([Nil]);
    StrippedElemsSingle(Nil);
  }

  /** An empty list inside an object survives as a nil slice, so
      `{"a": []}` re-encodes as `{"a": null}`. */
  lemma {:induction false} StripNullsEmptyListInObject(k: string)
    ensures Marshal(StripNulls(FromJson(Object(map[k := Array([])])))) == Object(map[k := Null])
  {
    var v := FromJson(Object(map[k := Array([])]));
    assert v.entries == map[k := Slice([])];
    StripNullsEmptyLists();
    StripNullsMap(v.entries);
    var r := StripNulls(v);
    assert r == Map(map[k := NilSlice]);
  }

  // ---------------------------------------------------------------------
  // Null stripping on raw JSON

  /** `stripNullsFromJSON`: empty input and input that does not parse are
      returned unchanged; a document that strips to nothing gives empty
      bytes; otherwise the stripped document is re-encoded. */
  function StripNullsFromJson(codec: Codec, raw: Bytes): (r: Bytes)
    ensures |raw| == 0 || codec.decode(raw).None? ==> r == raw
    ensures |raw| > 0 && codec.decode(raw).Some? && StripNulls(FromJson(codec.decode(raw).value)) == Nil ==> r == []
    ensures Faithful(codec) && |raw| > 0 && codec.decode(raw).Some? && ExactNumbers(codec.decode(raw).value) ==>
      var s := StripNulls(FromJson(codec.decode(raw).value));
      && (|r| == 0 <==> s == Nil)
      && (|r| > 0 ==> codec.decode(r) == Some(Marshal(s)))
  {
    if |raw| == 0 then raw
    else
      match codec.decode(raw)
      case None => raw
      case Some(doc) =>
        var stripped := StripNulls(FromJson(doc));
        StrippedExact(doc);
        if stripped == Nil then [] else codec.encode(Marshal(stripped))
  }

  /** `stripNullsFromAPIExtJSON`: a nil or empty field is returned as is, and
      a field that strips to nothing becomes nil. */
  function StripNullsFromApiExtJson(codec: Codec, j: Option<RawJson>): (r: Option<RawJson>)
    ensures j.None? || |j.value.raw| == 0 ==> r == j
    ensures j.Some? && codec.decode(j.value.raw).None? ==> r == j
    ensures (&& j.Some? && |j.value.raw| > 0 && codec.decode(j.value.raw).Some?
             && StripNulls(FromJson(codec.decode(j.value.raw).value)) == Nil) ==> r == None
    ensures (&& Faithful(codec) && j.Some? && |j.value.raw| > 0 && codec.decode(j.value.raw).Some?
             && ExactNumbers(codec.decode(j.value.raw).value)) ==>
      var s := StripNulls(FromJson(codec.decode(j.value.raw).value));
      && (r.None? <==> s == Nil)
      && (r.Some? ==> codec.decode(r.value.raw) == Some(Marshal(s)))
  {
    if j.None? || |j.value.raw| == 0 then j
    else
      var stripped := StripNullsFromJson(codec, j.value.raw);
      if |stripped| == 0 then None else Some(RawJson(stripped))
  }

  /** One overlay with its spec stripped; a missing overlay stays missing. */
  function StripOverlay(codec: Codec, o: Option<Overlay>): (r: Option<Overlay>)
    ensures r.Some? <==> o.Some?
    ensures o.Some? ==> r.value.metadata == o.value.metadata
    ensures o.Some? ==> r.value.spec == StripNullsFromApiExtJson(codec, o.value.spec)
  {
    if o.Some? then Some(o.value.(spec := StripNullsFromApiExtJson(codec, o.value.spec))) else None
  }

  /** `stripNullsFromAGWP`: only the five overlay specs and the raw config
      are touched; names, metadata and every other config stay as they were. */
  function StripNullsFromAgwp(codec: Codec, p: Option<Params>): (r: Option<Params>)
    ensures r.Some? <==> p.Some?
    ensures p.Some? ==> r.value.namespace == p.value.namespace && r.value.name == p.value.name
    ensures p.Some? ==>
      r.value.spec.configs == p.value.spec.configs.(rawConfig := StripNullsFromApiExtJson(codec, p.value.spec.configs.rawConfig))
    ensures p.Some? ==> var o := p.value.spec.overlays; var o' := r.value.spec.overlays;
      && o'.deployment == StripOverlay(codec, o.deployment)
      && o'.service == StripOverlay(codec, o.service)
      && o'.serviceAccount == StripOverlay(codec, o.serviceAccount)
      && o'.podDisruptionBudget == StripOverlay(codec, o.podDisruptionBudget)
      && o'.horizontalPodAutoscaler == StripOverlay(codec, o.horizontalPodAutoscaler)
  {
    if p.None? then None
    else
      var a := p.value;
      var o := a.spec.overlays;
      var overlays := Overlays(
        StripOverlay(codec, o.deployment),
        StripOverlay(codec, o.service),
        StripOverlay(codec, o.serviceAccount),
        StripOverlay(codec, o.podDisruptionBudget),
        StripOverlay(codec, o.horizontalPodAutoscaler));
      var configs := a.spec.configs.(rawConfig := StripNullsFromApiExtJson(codec, a.spec.configs.rawConfig));
      Some(a.(spec := ParamsSpec(configs, overlays)))
  }

  /** The stripped document of a present, parseable field. */
  function StrippedDoc(codec: Codec, j: Option<RawJson>): Any
    requires j.Some? && codec.decode(j.value.raw).Some?
  {
    StripNulls(FromJson(codec.decode(j.value.raw).value))
  }

  /** Stripping a field a second time changes nothing further, for a
      well-behaved codec, unless the first pass left an empty list behind as
      `null`. */
  lemma StripApiExtTwice(codec: Codec, j: Option<RawJson>)
    requires Faithful(codec)
    requires j.Some? && codec.decode(j.value.raw).Some? ==> ExactNumbers(codec.decode(j.value.raw).value)
    requires j.Some? && codec.decode(j.value.raw).Some? ==> NoNilSlice(StrippedDoc(codec, j))
    ensures StripNullsFromApiExtJson(codec, StripNullsFromApiExtJson(codec, j)) == StripNullsFromApiExtJson(codec, j)
  {
    var once := StripNullsFromApiExtJson(codec, j);
    if j.Some? && |j.value.raw| > 0 && codec.decode(j.value.raw).Some? && once.Some? {
      var s := StrippedDoc(codec, j);
      StrippedExact(codec.decode(j.value.raw).value);
      assert codec.decode(once.value.raw) == Some(Marshal(s));
      StripNullsFixpoint(s);
      FromJsonMarshalNormal(s);
    }
  }

  /** `{"a": []}` strips to `{"a": null}`. */
  lemma StripApiExtEmptyList(codec: Codec, k: string)
    requires Faithful(codec)
    ensures StripNullsFromApiExtJson(codec, Some(RawJson(codec.encode(Object(map[k := Array([])]))))) ==
      Some(RawJson(codec.encode(Object(map[k := Null]))))
  {
    var doc := Object(map[k := Array([])]);
    assert ExactNumbers(doc) by {
      assert forall f :: f in doc.fields ==> doc.fields[f] == Array([]);
    }
    assert codec.decode(codec.encode(doc)) == Some(doc);
    StripNullsEmptyListInObject(k);
  }

  /** `{"a": null}` strips to nothing. */
  lemma StripApiExtNullField(codec: Codec, k: string)
    requires Faithful(codec)
    ensures StripNullsFromApiExtJson(codec, Some(RawJson(codec.encode(Object(map[k := Null]))))) == None
  {
    var nulled := Object(map[k := Null]);
    assert ExactNumbers(nulled) by {
      assert forall f :: f in nulled.fields ==> nulled.fields[f] == Null;
    }
    assert codec.decode(codec.encode(nulled)) == Some(nulled);
    assert FromJson(nulled).entries == map[k := Nil];
    StripNullsEmptyMaps(k);
  }

  /** Without that restriction stripping is not idempotent: `{"a": []}`
      strips to `{"a": null}`, which strips to nothing. */
  lemma StripApiExtEmptyListTwice(codec: Codec, k: string)
    requires Faithful(codec)
    ensures var j := Some(RawJson(codec.encode(Object(map[k := Array([])]))));
      && StripNullsFromApiExtJson(codec, j) != None
      && StripNullsFromApiExtJson(codec, StripNullsFromApiExtJson(codec, j)) == None
  {
    StripApiExtEmptyList(codec, k);
    StripApiExtNullField(codec, k);
  }

  /** Decoding what was encoded from a stripped value gives the value back,
      except that a nil slice comes back as `null`, i.e. as nil. Normal
      values without nil slices round-trip exactly. */
  lemma {:induction false} FromJsonMarshalNormal(v: Any)
    requires Normal(v)
    requires NoNilSlice(v)
    ensures FromJson(Marshal(v)) == v
    decreases v
  {
    match v
    case Slice(elems) =>
      forall i | 0 <= i < |elems| ensures FromJson(Marshal(elems[i])) == elems[i] {
        FromJsonMarshalNormal(elems[i]);
      }
    case Map(entries) =>
      forall k | k in entries ensures FromJson(Marshal(entries[k])) == entries[k] {
        FromJsonMarshalNormal(entries[k]);
      }
    case _ =>
  }

  /** No nil slice anywhere inside a value. */
  predicate NoNilSlice(v: Any)
    decreases v
  {
    match v
    case NilSlice => false
    case Slice(elems) => forall i :: 0 <= i < |elems| ==> NoNilSlice(elems[i])
    case Map(entries) => forall k :: k in entries ==> NoNilSlice(entries[k])
    case _ => true
  }

  // ---------------------------------------------------------------------
  // Seeding the fake clients

  /** The Go type of a seed object, by package and type name. */
  datatype GoType = GoType(pkg: string, name: string)

  datatype SeedObject = SeedObject(goType: GoType, namespace: string, name: string)

  /** The kgateway and agentgateway CRD types served by the generated
      kgateway clientset rather than the Istio fake client. */
  const KgwTypes: set<GoType> := {
    GoType("kgateway", "Backend"),
    GoType("kgateway", "BackendConfigPolicy"),
    GoType("kgateway", "DirectResponse"),
    GoType("kgateway", "GatewayExtension"),
    GoType("kgateway", "GatewayParameters"),
    GoType("kgateway", "HTTPListenerPolicy"),
    GoType("kgateway", "ListenerPolicy"),
    GoType("kgateway", "TrafficPolicy"),
    GoType("agentgateway", "AgentgatewayPolicy"),
    GoType("agentgateway", "AgentgatewayBackend"),
    GoType("agentgateway", "AgentgatewayParameters")
  }

  predicate IsKgwObject(o: SeedObject) {
    o.goType in KgwTypes
  }

  /** The objects on one side of the split, in input order. */
  function Side(objs: seq<SeedObject>, kgw: bool): (r: seq<SeedObject>)
    ensures forall o :: o in r <==> o in objs && IsKgwObject(o) == kgw
  {
    if |objs| == 0 then []
    else
      var last := objs[|objs| - 1];
      Side(objs[..|objs| - 1], kgw) + (if IsKgwObject(last) == kgw then [last] else [])
  }

  lemma {:induction false} SidesPartition(objs: seq<SeedObject>)
    ensures multiset(Side(objs, false)) + multiset(Side(objs, true)) == multiset(objs)
    decreases |objs|
  {
    if |objs| > 0 {
      var init := objs[..|objs| - 1];
      SidesPartition(init);
      assert objs == init + [objs[|objs| - 1]];
    }
  }

  /** `filterObjects`: every object lands in exactly one list, relative
      order is kept, and exactly the listed CRD types go to the second. */
  method FilterObjects(objects: seq<SeedObject>) returns (istio: seq<SeedObject>, kgw: seq<SeedObject>)
    ensures istio == Side(objects, false) && kgw == Side(objects, true)
    ensures multiset(istio) + multiset(kgw) == multiset(objects)
    ensures forall o :: o in kgw ==> IsKgwObject(o)
    ensures forall o :: o in istio ==> !IsKgwObject(o)
  {
    istio := [];
    kgw := [];
    for i := 0 to |objects|
      invariant istio == Side(objects[..i], false)
      invariant kgw == Side(objects[..i], true)
    {
      assert objects[..i + 1][..i] == objects[..i];
      if objects[i].goType in KgwTypes {
        kgw := kgw + [objects[i]];
      } else {
        istio := istio + [objects[i]];
      }
    }
    assert objects[..|objects|] == objects;
    SidesPartition(objects);
  }

  // ---------------------------------------------------------------------
  // Group/version/resource lookup

  datatype Gvk = Gvk(group: string, version: string, kind: string)
  datatype Gvr = Gvr(group: string, version: string, resource: string)

  /** `getGVR`. An object without a group takes its kind from the scheme
      (the first registered kind; the source panics when there is none).
      The well-known table is consulted first, then the unsafe plural guess,
      whose empty answer is an error. The pseudo-group "core" becomes "". */
  function GetGvr(objGvk: Gvk, schemeKinds: seq<Gvk>, wellKnown: map<Gvk, Gvr>, guess: Gvk -> Gvr): (r: Result<Gvr>)
    requires objGvk.group == "" ==> |schemeKinds| > 0
    ensures r.Ok? ==> r.value.group != "core"
    ensures var gvk := if objGvk.group == "" then schemeKinds[0] else objGvk;
      && (gvk in wellKnown ==> r.Ok? && r.value == NormalizeGroup(wellKnown[gvk]))
      && (gvk !in wellKnown ==> (r.Err? <==> guess(gvk) == Gvr("", "", "")))
      && (gvk !in wellKnown && r.Ok? ==> r.value == NormalizeGroup(guess(gvk)))
  {
    var gvk := if objGvk.group == "" then schemeKinds[0] else objGvk;
    var gvr := if gvk in wellKnown then wellKnown[gvk] else guess(gvk);
    if gvk !in wellKnown && gvr == Gvr("", "", "") then
      Err("failed to get GVR for object")
    else Ok(if gvr.group == "core" then gvr.(group := "") else gvr)
  }

  /** The pseudo-group "core" is the empty group; every other group is kept. */
  function NormalizeGroup(gvr: Gvr): (r: Gvr)
    ensures r.group != "core"
    ensures gvr.group != "core" ==> r == gvr
    ensures r.version == gvr.version && r.resource == gvr.resource
  {
    if gvr.group == "core" then gvr.(group := "") else gvr
  }
}
