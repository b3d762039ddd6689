/** JSON as the Go standard library sees it. `Json` is a decoded document;
    `Any` is the dynamically typed Go value (`any`) that `json.Unmarshal`
    produces into an `any` target and that `json.Marshal` consumes.  The two
    differ in one place that matters to the model: Go has nil slices, which
    marshal to `null`, next to non-nil slices, which marshal to an array. */
module GoJson {
  import opened Common

  /** A JSON document. Numbers are kept as integers; `ExactNumbers` says
      which of them Go's float64 decoding keeps exact. */
  datatype Json =
    | Null
    | Bool(b: bool)
    | Number(n: int)
    | String(s: string)
    | Array(items: seq<Json>)
    | Object(fields: map<string, Json>)

  /** A Go `any` holding one of the types encoding/json uses. */
  datatype Any =
    | Nil                              // the nil interface
    | GoBool(b: bool)
    | GoNumber(n: int)                 // float64 in Go
    | GoString(s: string)
    | Slice(elems: seq<Any>)           // a non-nil []any
    | NilSlice                         // a []any that is nil
    | Map(entries: map<string, Any>)   // map[string]any

  /** A scalar Go value: neither nil, a slice nor a map. */
  predicate IsScalar(v: Any) {
    v.GoBool? || v.GoNumber? || v.GoString?
  }

  /** The value `json.Unmarshal` stores into an `any` target. It never
      produces a nil slice: `[]` decodes to an empty, non-nil slice. */
  function FromJson(j: Json): (v: Any)
    ensures v != NilSlice
    ensures v == Nil <==> j == Null
    ensures j.Array? <==> v.Slice?
    ensures j.Array? ==> |v.elems| == |j.items|
    ensures j.Object? <==> v.Map?
    ensures j.Object? ==> v.entries.Keys == j.fields.Keys
    decreases j
  {
    match j
    case Null => Nil
    case Bool(b) => GoBool(b)
    case Number(n) => GoNumber(n)
    case String(s) => GoString(s)
    case Array(items) => Slice(seq(|items|, i requires 0 <= i < |items| => FromJson(items[i])))
    case Object(fields) => Map(map k | k in fields :: FromJson(fields[k]))
  }

  /** The document `json.Marshal` writes for a Go value: nil and a nil slice
      both become `null`. */
  function Marshal(v: Any): (j: Json)
    ensures j == Null <==> v == Nil || v == NilSlice
    ensures v.Slice? <==> j.Array?
    ensures v.Map? <==> j.Object?
    decreases v
  {
    match v
    case Nil => Null
    case GoBool(b) => Bool(b)
    case GoNumber(n) => Number(n)
    case GoString(s) => String(s)
    case Slice(elems) => Array(seq(|elems|, i requires 0 <= i < |elems| => Marshal(elems[i])))
    case NilSlice => Null
    case Map(entries) => Object(map k | k in entries :: Marshal(entries[k]))
  }

  /** Marshalling what Unmarshal produced gives the document back. */
  lemma {:induction false} MarshalFromJson(j: Json)
    ensures Marshal(FromJson(j)) == j
    decreases j
  {
    match j
    case Array(items) =>
      var v := FromJson(j);
      forall i | 0 <= i < |items|
        ensures Marshal(v.elems[i]) == items[i]
      {
        MarshalFromJson(items[i]);
      }
    case Object(fields) =>
      var v := FromJson(j);
      forall k | k in fields
        ensures Marshal(v.entries[k]) == fields[k]
      {
        MarshalFromJson(fields[k]);
      }
    case _ =>
  }

  /** The largest magnitude up to which every integer is a float64. */
  const MaxExactFloat: int := 0x20_0000_0000_0000

  /** Every number in the document is an integer that a float64 holds
      exactly. encoding/json decodes numbers into an `any` as float64, so
      only such documents come back from a decode and re-encode unchanged. */
  predicate ExactNumbers(j: Json)
    decreases j
  {
    match j
    case Number(n) => -MaxExactFloat <= n <= MaxExactFloat
    case Array(items) => forall i :: 0 <= i < |items| ==> ExactNumbers(items[i])
    case Object(fields) => forall k :: k in fields ==> ExactNumbers(fields[k])
    case _ => true
  }

  /** The same restriction on a Go value. */
  predicate ExactAny(v: Any)
    decreases v
  {
    match v
    case GoNumber(n) => -MaxExactFloat <= n <= MaxExactFloat
    case Slice(elems) => forall i :: 0 <= i < |elems| ==> ExactAny(elems[i])
    case Map(entries) => forall k :: k in entries ==> ExactAny(entries[k])
    case _ => true
  }

  /** Decoding neither adds nor loses an out-of-range number. */
  lemma {:induction false} FromJsonExact(j: Json)
    ensures ExactAny(FromJson(j)) <==> ExactNumbers(j)
    decreases j
  {
    match j
    case Array(items) =>
      forall i | 0 <= i < |items| ensures ExactAny(FromJson(j).elems[i]) <==> ExactNumbers(items[i]) {
        FromJsonExact(items[i]);
      }
    case Object(fields) =>
      forall k | k in fields ensures ExactAny(FromJson(j).entries[k]) <==> ExactNumbers(fields[k]) {
        FromJsonExact(fields[k]);
      }
    case _ =>
  }

  /** Nor does encoding. */
  lemma {:induction false} MarshalExact(v: Any)
    ensures ExactNumbers(Marshal(v)) <==> ExactAny(v)
    decreases v
  {
    match v
    case Slice(elems) =>
      forall i | 0 <= i < |elems| ensures ExactNumbers(Marshal(v).items[i]) <==> ExactAny(elems[i]) {
        MarshalExact(elems[i]);
      }
    case Map(entries) =>
      forall k | k in entries ensures ExactNumbers(Marshal(v).fields[k]) <==> ExactAny(entries[k]) {
        MarshalExact(entries[k]);
      }
    case _ =>
  }

  /** encoding/json on bytes. Its parser and printer are not part of this
      model; they are supplied as a pair of functions. */
  datatype Codec = Codec(decode: Bytes -> Option<Json>, encode: Json -> Bytes)

  /** What the model relies on from a real codec: on documents whose
      numbers survive float64, what it prints it parses back, and it never
      prints nothing. Go's own codec, decoding numbers as float64, meets
      this; it does not round-trip larger integers or fractions. */
  ghost predicate Faithful(c: Codec) {
    forall j :: ExactNumbers(j) ==> c.decode(c.encode(j)) == Some(j) && |c.encode(j)| > 0
  }
}
