/** JSON values, and the JSON Schema 2020-12 keywords that the generated schema uses. */
module Json {
  import opened Text

  datatype JSON =
    | JNull
    | JBool(b: bool)
    | JNumber(n: real)
    | JString(s: string)
    | JArray(elems: seq<JSON>)
    | JObject(members: map<string, JSON>)

  datatype TypeName = TString | TBoolean | TInteger | TNumber | TArray | TObject

  /** A schema is a set of independent keywords, each absent by default. `format` is an annotation
      and constrains nothing. `ref` is the name N of a reference "#/$defs/N". */
  datatype Schema = Schema(
    typ: Option<TypeName> := None,
    format: Option<string> := None,
    properties: map<string, Schema> := map[],
    required: seq<string> := [],
    items: Option<Schema> := None,
    additionalProperties: Option<Schema> := None,
    ref: Option<string> := None,
    constant: Option<string> := None,
    enumeration: Option<seq<string>> := None)

  type Defs = map<string, Schema>

  /** Section 6.1.1 of JSON Schema Validation: an integer is a number with no fractional part. */
  predicate HasTypeName(t: TypeName, j: JSON) {
    match t
    case TString => j.JString?
    case TBoolean => j.JBool?
    case TInteger => j.JNumber? && j.n.Floor as real == j.n
    case TNumber => j.JNumber?
    case TArray => j.JArray?
    case TObject => j.JObject?
  }

  /** The keywords that look at the instance alone: `type`, `const`, `enum` and `required`
      (sections 6.1.1, 6.1.3, 6.1.2 and 6.5.3 of JSON Schema Validation). */
  predicate MeetsAssertions(s: Schema, j: JSON) {
    && (s.typ.Some? ==> HasTypeName(s.typ.value, j))
    && (s.constant.Some? ==> j == JString(s.constant.value))
    && (s.enumeration.Some? ==> j.JString? && j.s in s.enumeration.value)
    && (j.JObject? ==> forall k <- s.required :: k in j.members)
  }

  /** Validity of an instance against a schema, references resolved in `defs`. The keywords that
      apply subschemas are `items`, `properties` and `additionalProperties` (sections 10.3.1.2,
      10.3.2.1 and 10.3.2.3 of JSON Schema Core) and `$ref` (section 8.2.3.1). `seen` holds the
      references already followed at this instance: a chain that returns to one of them never
      reaches a schema, and a reference to nothing resolves to none, so both are refused. */
  ghost predicate Conforms(defs: Defs, s: Schema, j: JSON, seen: set<string> := {})
    decreases j, defs.Keys - seen
  {
    && MeetsAssertions(s, j)
    && (j.JArray? && s.items.Some? ==> forall e <- j.elems :: Conforms(defs, s.items.value, e))
    && (j.JObject? ==>
          forall k <- j.members ::
            && (k in s.properties ==> Conforms(defs, s.properties[k], j.members[k]))
            && (k !in s.properties && s.additionalProperties.Some? ==>
                  Conforms(defs, s.additionalProperties.value, j.members[k])))
    && (s.ref.Some? ==>
          && s.ref.value in defs && s.ref.value !in seen
          && Conforms(defs, defs[s.ref.value], j, seen + {s.ref.value}))
  }
}
