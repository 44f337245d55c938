/** Go types and values as reflection and the JSON encoder see them. */
module GoTypes {
  import opened Text
  import opened Json

  /** A type. `GByte` is uint8, whose slices the encoder writes as base64 text; `GRaw` is
      json.RawMessage, a byte slice that encodes itself; `GOther` is a channel, function or
      interface, which has no schema. */
  datatype GoType =
    | GString | GBool | GInt | GByte | GFloat | GTime | GRaw | GOther
    | GSlice(elem: GoType)
    | GArray(elem: GoType)
    | GMap(elem: GoType)
    | GPtr(elem: GoType)
    | GStruct(name: string)

  /** A struct field. Its `json` tag is cut at the first comma: `tagName` is the part before it and
      `tagOpts` the part after, if there is a comma at all. */
  datatype Field = Field(
    goName: string, exported: bool, tagName: string, tagOpts: Option<string>, typ: GoType)

  type Env = map<string, seq<Field>>

  function JsonName(f: Field): string {
    if f.tagName == "" then f.goName else f.tagName
  }

  function Options(f: Field): string {
    if f.tagOpts.Some? then f.tagOpts.value else ""
  }

  /** `option` is one of the comma-separated options. */
  predicate HasOption(opts: string, option: string) {
    exists i :: 0 <= i <= |opts| && OccursAt(opts, option, i) &&
                (i == 0 || opts[i - 1] == ',') &&
                (i + |option| == |opts| || opts[i + |option|] == ',')
  }

  /** The struct a type is built around, if any. */
  function StructOf(t: GoType): Option<string> {
    match t
    case GSlice(e) => StructOf(e)
    case GArray(e) => StructOf(e)
    case GMap(e) => StructOf(e)
    case GPtr(e) => StructOf(e)
    case GStruct(n) => Some(n)
    case _ => None
  }

  /** No part of the type is a channel, function or interface. */
  predicate Supported(t: GoType) {
    match t
    case GSlice(e) => Supported(e)
    case GArray(e) => Supported(e)
    case GMap(e) => Supported(e)
    case GPtr(e) => Supported(e)
    case GOther => false
    case _ => true
  }

  predicate Declared(env: Env, t: GoType) {
    StructOf(t).Some? ==> StructOf(t).value in env
  }

  /** Every struct a field mentions is declared. */
  ghost predicate Closed(env: Env) {
    forall n <- env, f <- env[n] :: Declared(env, f.typ)
  }

  // ---------------------------------------------------------------- values and their encoding

  /** A value. `VNil` is a nil pointer, slice or map; `VBytes` is a byte slice, given by its base64
      text; a struct lists its field values in declaration order. */
  datatype GoValue =
    | VString(s: string) | VBool(b: bool) | VInt(i: int) | VFloat(r: real) | VTime(text: string)
    | VNil
    | VRaw(json: JSON)
    | VBytes(base64: string)
    | VList(elems: seq<GoValue>)
    | VMap(entries: map<string, GoValue>)
    | VPtr(to: GoValue)
    | VStruct(fields: seq<GoValue>)

  ghost predicate HasType(env: Env, t: GoType, v: GoValue)
    decreases v
  {
    match t
    case GString => v.VString?
    case GBool => v.VBool?
    case GInt => v.VInt?
    case GByte => v.VInt? && 0 <= v.i < 256
    case GFloat => v.VFloat?
    case GTime => v.VTime?
    case GRaw => v.VNil? || v.VRaw?
    case GOther => false
    case GSlice(GByte) => v.VNil? || v.VBytes?
    case GSlice(e) => v.VNil? || (v.VList? && forall w <- v.elems :: HasType(env, e, w))
    case GArray(e) => v.VList? && forall w <- v.elems :: HasType(env, e, w)
    case GMap(e) => v.VNil? || (v.VMap? && forall k <- v.entries :: HasType(env, e, v.entries[k]))
    case GPtr(e) => v.VNil? || (v.VPtr? && HasType(env, e, v.to))
    case GStruct(n) => v.VStruct? && n in env && FieldsHaveType(env, env[n], v.fields)
  }

  ghost predicate FieldsHaveType(env: Env, fields: seq<Field>, vals: seq<GoValue>)
    decreases vals, 0
  {
    |fields| == |vals| && forall i :: 0 <= i < |vals| ==> HasType(env, fields[i].typ, vals[i])
  }

  /** What `omitempty` omits. */
  predicate IsEmpty(v: GoValue) {
    match v
    case VString(s) => s == ""
    case VBool(b) => !b
    case VInt(i) => i == 0
    case VFloat(r) => r == 0.0
    case VNil => true
    case VBytes(text) => text == ""
    case VList(elems) => elems == []
    case VMap(entries) => entries == map[]
    case _ => false
  }

  /** The fields the encoder knows: exported, and not tagged with a bare dash. */
  predicate Encoded(f: Field) {
    f.exported && !(f.tagName == "-" && f.tagOpts.None?)
  }

  predicate Emitted(f: Field, v: GoValue) {
    Encoded(f) && !(HasOption(Options(f), "omitempty") && IsEmpty(v))
  }

  /** The JSON tree the encoder writes. */
  ghost function Encode(env: Env, t: GoType, v: GoValue): JSON
    requires HasType(env, t, v)
    decreases v
  {
    match v
    case VString(s) => JString(s)
    case VBool(b) => JBool(b)
    case VInt(i) => JNumber(i as real)
    case VFloat(r) => JNumber(r)
    case VTime(text) => JString(text)
    case VNil => JNull
    case VRaw(j) => j
    case VBytes(text) => JString(text)
    case VList(elems) => JArray(seq(|elems|, i requires 0 <= i < |elems| => Encode(env, t.elem, elems[i])))
    case VMap(entries) => JObject(map k | k in entries :: Encode(env, t.elem, entries[k]))
    case VPtr(w) => Encode(env, t.elem, w)
    case VStruct(vals) => JObject(EncodeFields(env, env[t.name], vals))
  }

  ghost function EncodeFields(env: Env, fields: seq<Field>, vals: seq<GoValue>): map<string, JSON>
    requires FieldsHaveType(env, fields, vals)
    decreases vals, 1
  {
    if vals == [] then map[]
    else
      var n := |vals| - 1;
      var rest := EncodeFields(env, fields[..n], vals[..n]);
      if Emitted(fields[n], vals[n]) then rest[JsonName(fields[n]) := Encode(env, fields[n].typ, vals[n])]
      else rest
  }

  /** No two fields the encoder knows share a name. */
  ghost predicate UniqueNames(fields: seq<Field>) {
    forall i, j :: 0 <= i < j < |fields| && Encoded(fields[i]) && Encoded(fields[j])
      ==> JsonName(fields[i]) != JsonName(fields[j])
  }

  /** `k` is the name of emitted field `i`. */
  ghost predicate EmittedAs(fields: seq<Field>, vals: seq<GoValue>, i: int, k: string) {
    0 <= i < |fields| == |vals| && Emitted(fields[i], vals[i]) && JsonName(fields[i]) == k
  }

  /** The encoded object has exactly the emitted fields, each with its own encoding. */
  lemma {:induction false} EncodeFieldsExact(env: Env, fields: seq<Field>, vals: seq<GoValue>)
    requires FieldsHaveType(env, fields, vals) && UniqueNames(fields)
    ensures forall k :: k in EncodeFields(env, fields, vals) <==> exists i :: EmittedAs(fields, vals, i, k)
    ensures forall i, k :: EmittedAs(fields, vals, i, k) ==>
              EncodeFields(env, fields, vals)[k] == Encode(env, fields[i].typ, vals[i])
  {
    if vals == [] {
    } else {
      var n := |vals| - 1;
      EncodeFieldsExact(env, fields[..n], vals[..n]);
      forall k
        ensures k in EncodeFields(env, fields, vals) <==> exists i :: EmittedAs(fields, vals, i, k)
      {
        if i :| EmittedAs(fields[..n], vals[..n], i, k) {
          assert EmittedAs(fields, vals, i, k);
        }
        if i :| EmittedAs(fields, vals, i, k) {
          assert i < n ==> EmittedAs(fields[..n], vals[..n], i, k);
        }
        assert EmittedAs(fields, vals, n, k) <==> Emitted(fields[n], vals[n]) && JsonName(fields[n]) == k;
      }
      forall i, k | EmittedAs(fields, vals, i, k)
        ensures EncodeFields(env, fields, vals)[k] == Encode(env, fields[i].typ, vals[i])
      {
        if i < n {
          assert EmittedAs(fields[..n], vals[..n], i, k);
        }
      }
    }
  }
}
