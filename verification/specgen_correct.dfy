/** What the generated schema means: exactly which values encode to JSON it accepts. */
module CompilerCorrectness {
  import opened Text
  import opened Json
  import opened GoTypes
  import opened Specgen

  // ---------------------------------------------------------------- the schemas that occur

  lemma ConformsScalar(defs: Defs, s: Schema, j: JSON)
    requires s.items.None? && s.properties == map[] && s.additionalProperties.None? && s.ref.None?
    ensures Conforms(defs, s, j) <==> MeetsAssertions(s, j)
  {
  }

  lemma ConformsArray(defs: Defs, item: Schema, j: JSON)
    ensures Conforms(defs, Schema(typ := Some(TArray), items := Some(item)), j) <==>
            j.JArray? && forall i :: 0 <= i < |j.elems| ==> Conforms(defs, item, j.elems[i])
  {
    assert j.JArray? ==>
      ((forall e <- j.elems :: Conforms(defs, item, e)) <==>
       (forall i :: 0 <= i < |j.elems| ==> Conforms(defs, item, j.elems[i])));
  }

  lemma ConformsMap(defs: Defs, item: Schema, j: JSON)
    ensures Conforms(defs, Schema(typ := Some(TObject), additionalProperties := Some(item)), j) <==>
            j.JObject? && forall k <- j.members :: Conforms(defs, item, j.members[k])
  {
  }

  /** A reference to a present struct definition: the object has every required member, and every
      member with a property conforms to it. Other members are unconstrained. */
  lemma ConformsDefinition(defs: Defs, name: string, properties: map<string, Schema>, required: seq<string>, j: JSON)
    requires name in defs
    requires defs[name] == Schema(typ := Some(TObject), properties := properties, required := required)
    ensures Conforms(defs, RefTo(name), j) <==>
      && j.JObject?
      && (forall k <- required :: k in j.members)
      && (forall k <- j.members :: k in properties ==> Conforms(defs, properties[k], j.members[k]))
  {
    var def := defs[name];
    assert Conforms(defs, RefTo(name), j) <==> Conforms(defs, def, j, {} + {name});
    assert j.JObject? ==> (Conforms(defs, def, j, {} + {name}) <==>
      MeetsAssertions(def, j) &&
      forall k <- j.members :: k in properties ==> Conforms(defs, properties[k], j.members[k]));
  }

  // ---------------------------------------------------------------- the condition

  /** An override: one constant, or a closed set of strings. */
  predicate IsFixed(s: Schema) {
    (s.constant.Some? && s == Schema(constant := s.constant)) ||
    (s.enumeration.Some? && s == Schema(typ := Some(TString), enumeration := s.enumeration))
  }

  predicate Allows(s: Schema, text: string) {
    (s.constant.Some? ==> text == s.constant.value) &&
    (s.enumeration.Some? ==> text in s.enumeration.value)
  }

  /** The text a value is written as, when it is written as a JSON string. */
  function TextOf(v: GoValue): Option<string> {
    match v
    case VString(s) => Some(s)
    case VTime(text) => Some(text)
    case VBytes(text) => Some(text)
    case VRaw(JString(s)) => Some(s)
    case VPtr(w) => TextOf(w)
    case _ => None
  }

  predicate IsIntegerArray(j: JSON) {
    j.JArray? && forall i :: 0 <= i < |j.elems| ==> HasTypeName(TInteger, j.elems[i])
  }

  /** A value the schema of its type accepts: no nil where it would be written, no byte slice, raw
      JSON only as an array of integers, and overridden fields within their override. */
  ghost predicate Clean(u: Unit, t: GoType, v: GoValue)
    requires HasType(u.env, t, v)
    decreases v, 0
  {
    match v
    case VNil => false
    case VRaw(j) => IsIntegerArray(j)
    case VBytes(_) => false
    case VList(elems) => forall i :: 0 <= i < |elems| ==> Clean(u, t.elem, elems[i])
    case VMap(entries) => forall k <- entries :: Clean(u, t.elem, entries[k])
    case VPtr(w) => Clean(u, t.elem, w)
    case VStruct(vals) => CleanFields(u, t.name, vals)
    case _ => true
  }

  ghost predicate CleanFields(u: Unit, name: string, vals: seq<GoValue>)
    requires name in u.env && FieldsHaveType(u.env, u.env[name], vals)
    decreases vals, 2
  {
    forall i :: 0 <= i < |vals| ==> CleanField(u, name, u.env[name][i], vals[i])
  }

  ghost predicate CleanField(u: Unit, name: string, f: Field, v: GoValue)
    requires HasType(u.env, f.typ, v)
    decreases v, 1
  {
    Compiled(f) && Emitted(f, v) ==>
      if Overridden(u, name, f)
      then TextOf(v).Some? && Allows(u.fixed[name][JsonName(f)], TextOf(v).value)
      else Clean(u, f.typ, v)
  }

  /** What the compiler assumes of a unit: declared structs, distinct member names, and overrides
      of the two kinds. */
  ghost predicate WellFormed(u: Unit) {
    && Closed(u.env)
    && (forall n <- u.env :: UniqueNames(u.env[n]))
    && (forall n <- u.fixed, k <- u.fixed[n] :: IsFixed(u.fixed[n][k]))
  }

  /** Definitions as the compiler leaves them. */
  ghost predicate Compiles(u: Unit, defs: Defs) {
    && RefsResolve(u, defs)
    && forall n <- defs :: Definable(u, n) && defs[n] == DefinitionOf(u, n)
  }

  // ---------------------------------------------------------------- properties and required

  ghost predicate CompiledAs(fields: seq<Field>, i: int, k: string) {
    0 <= i < |fields| && Compiled(fields[i]) && JsonName(fields[i]) == k
  }

  lemma {:induction false} PropertiesExact(u: Unit, name: string, fields: seq<Field>)
    requires UniqueNames(fields)
    ensures forall k :: k in PropertiesOf(u, name, fields) <==> exists i :: CompiledAs(fields, i, k)
    ensures forall i, k :: CompiledAs(fields, i, k) ==>
              PropertiesOf(u, name, fields)[k] == PropertyOf(u, name, fields[i])
  {
    hide PropertyOf, JsonName;
    if fields == [] {
    } else {
      var n := |fields| - 1;
      PropertiesExact(u, name, fields[..n]);
      forall k ensures k in PropertiesOf(u, name, fields) <==> exists i :: CompiledAs(fields, i, k) {
        if i :| CompiledAs(fields[..n], i, k) {
          assert CompiledAs(fields, i, k);
        }
        if i :| CompiledAs(fields, i, k) {
          assert i < n ==> CompiledAs(fields[..n], i, k);
        }
        assert CompiledAs(fields, n, k) <==> Compiled(fields[n]) && JsonName(fields[n]) == k;
      }
      forall i, k | CompiledAs(fields, i, k)
        ensures PropertiesOf(u, name, fields)[k] == PropertyOf(u, name, fields[i])
      {
        if i < n {
          assert CompiledAs(fields[..n], i, k);
        }
      }
    }
  }

  /** The options of the field's tag mention `omitempty`. */
  ghost predicate MayOmit(f: Field) {
    f.tagOpts.Some? && exists i :: OccursAt(f.tagOpts.value, "omitempty", i)
  }

  lemma RequiredExact(fields: seq<Field>)
    ensures forall k :: k in RequiredOf(fields) <==> exists i :: CompiledAs(fields, i, k) && !MayOmit(fields[i])
  {
    RequiredAs(fields);
    forall i | 0 <= i < |fields| && Compiled(fields[i]) ensures Required(fields[i]) <==> !MayOmit(fields[i]) {
      RequiredUnlessOmitted(fields[i]);
    }
  }

  lemma RequiredUnlessOmitted(f: Field)
    requires Compiled(f)
    ensures Required(f) <==> !MayOmit(f)
  {
    if Contains(Options(f), "omitempty") {
      var i :| 0 <= i <= |Options(f)| && OccursAt(Options(f), "omitempty", i);
      assert f.tagOpts.Some?;
    }
  }

  lemma {:induction false} RequiredAs(fields: seq<Field>)
    ensures forall k :: k in RequiredOf(fields) <==> exists i :: CompiledAs(fields, i, k) && Required(fields[i])
  {
    hide Contains, Options, JsonName;
    if fields == [] {
    } else {
      var n := |fields| - 1;
      RequiredAs(fields[..n]);
      forall k
        ensures k in RequiredOf(fields) <==> exists i :: CompiledAs(fields, i, k) && Required(fields[i])
      {
        if i :| CompiledAs(fields[..n], i, k) && Required(fields[..n][i]) {
          assert CompiledAs(fields, i, k) && Required(fields[i]);
        }
        if i :| CompiledAs(fields, i, k) && Required(fields[i]) {
          assert i < n ==> CompiledAs(fields[..n], i, k);
        }
        assert CompiledAs(fields, n, k) <==> Compiled(fields[n]) && JsonName(fields[n]) == k;
      }
    }
  }

  lemma OptionIsContained(opts: string, option: string)
    requires HasOption(opts, option)
    ensures Contains(opts, option)
  {
    var i :| 0 <= i <= |opts| && OccursAt(opts, option, i) && (i == 0 || opts[i - 1] == ',') &&
             (i + |option| == |opts| || opts[i + |option|] == ',');
  }

  /** The two readers of a tag disagree only one way: whatever the encoder may omit, the compiler
      does not require. */
  lemma RequiredIsEmitted(f: Field, v: GoValue)
    requires Required(f)
    ensures Emitted(f, v)
  {
    if !Emitted(f, v) {
      OptionIsContained(Options(f), "omitempty");
    }
  }

  // ---------------------------------------------------------------- correctness

  lemma {:induction false} TextIsString(u: Unit, t: GoType, v: GoValue)
    requires HasType(u.env, t, v)
    ensures Encode(u.env, t, v) ==
              if TextOf(v).Some? then JString(TextOf(v).value) else Encode(u.env, t, v)
    ensures Encode(u.env, t, v).JString? <==> TextOf(v).Some?
    decreases v
  {
    if v.VPtr? {
      TextIsString(u, t.elem, v.to);
    }
  }

  lemma FixedCorrect(u: Unit, defs: Defs, s: Schema, t: GoType, v: GoValue)
    requires IsFixed(s) && HasType(u.env, t, v)
    ensures Conforms(defs, s, Encode(u.env, t, v)) <==> TextOf(v).Some? && Allows(s, TextOf(v).value)
  {
    TextIsString(u, t, v);
    ConformsScalar(defs, s, Encode(u.env, t, v));
  }

  ghost predicate InDefs(defs: Defs, t: GoType) {
    Supported(t) && (StructOf(t).Some? ==> StructOf(t).value in defs)
  }

  lemma {:induction false} NullNeverConforms(u: Unit, defs: Defs, t: GoType)
    requires Compiles(u, defs) && InDefs(defs, t)
    ensures !Conforms(defs, SchemaOf(t), JNull)
  {
    match t
    case GPtr(e) => NullNeverConforms(u, defs, e);
    case GStruct(n) => ConformsDefinition(defs, n, PropertiesOf(u, n, u.env[n]), RequiredOf(u.env[n]), JNull);
    case _ =>
  }

  lemma RawCorrect(defs: Defs, j: JSON)
    ensures Conforms(defs, SchemaOf(GRaw), j) <==> IsIntegerArray(j)
  {
    var item := Schema(typ := Some(TInteger));
    ConformsArray(defs, item, j);
    if j.JArray? {
      forall i | 0 <= i < |j.elems|
        ensures Conforms(defs, item, j.elems[i]) <==> HasTypeName(TInteger, j.elems[i])
      {
        ConformsScalar(defs, item, j.elems[i]);
      }
    }
  }

  predicate IsLeaf(v: GoValue) {
    v.VString? || v.VBool? || v.VInt? || v.VFloat? || v.VTime? || v.VBytes?
  }

  lemma LeafCorrect(u: Unit, defs: Defs, t: GoType, v: GoValue)
    requires IsLeaf(v) && HasType(u.env, t, v)
    ensures Conforms(defs, SchemaOf(t), Encode(u.env, t, v)) <==> Clean(u, t, v)
  {
  }

  /** Compiler correctness. A value's encoding conforms to the schema of its type, references
      resolved in the finished definitions, exactly when the value is clean. */
  lemma {:induction false} CompilerCorrect(u: Unit, defs: Defs, t: GoType, v: GoValue)
    requires WellFormed(u) && Compiles(u, defs)
    requires HasType(u.env, t, v) && InDefs(defs, t)
    ensures Conforms(defs, SchemaOf(t), Encode(u.env, t, v)) <==> Clean(u, t, v)
    decreases v, 1
  {
    hide Conforms;
    match v {
      case VPtr(w) => CompilerCorrect(u, defs, t.elem, w);
      case VList(elems) => ListCorrect(u, defs, t, v);
      case VMap(entries) => MapCorrect(u, defs, t, v);
      case VStruct(vals) => StructCorrect(u, defs, t.name, vals);
      case VNil => NullNeverConforms(u, defs, t);
      case VRaw(raw) => RawCorrect(defs, raw);
      case _ => LeafCorrect(u, defs, t, v);
    }
  }

  lemma {:induction false} ListCorrect(u: Unit, defs: Defs, t: GoType, v: GoValue)
    requires WellFormed(u) && Compiles(u, defs)
    requires v.VList? && HasType(u.env, t, v) && InDefs(defs, t)
    ensures Conforms(defs, SchemaOf(t), Encode(u.env, t, v)) <==> Clean(u, t, v)
    decreases v, 0
  {
    var elems := Encode(u.env, t, v).elems;
    ConformsArray(defs, SchemaOf(t.elem), Encode(u.env, t, v));
    forall i | 0 <= i < |v.elems|
      ensures Conforms(defs, SchemaOf(t.elem), elems[i]) <==> Clean(u, t.elem, v.elems[i])
    {
      CompilerCorrect(u, defs, t.elem, v.elems[i]);
    }
  }

  lemma {:induction false} MapCorrect(u: Unit, defs: Defs, t: GoType, v: GoValue)
    requires WellFormed(u) && Compiles(u, defs)
    requires v.VMap? && HasType(u.env, t, v) && InDefs(defs, t)
    ensures Conforms(defs, SchemaOf(t), Encode(u.env, t, v)) <==> Clean(u, t, v)
    decreases v, 0
  {
    var members := Encode(u.env, t, v).members;
    ConformsMap(defs, SchemaOf(t.elem), Encode(u.env, t, v));
    forall k <- v.entries
      ensures Conforms(defs, SchemaOf(t.elem), members[k]) <==> Clean(u, t.elem, v.entries[k])
    {
      CompilerCorrect(u, defs, t.elem, v.entries[k]);
    }
  }

  lemma RequiredPresent(env: Env, fields: seq<Field>, vals: seq<GoValue>)
    requires UniqueNames(fields) && FieldsHaveType(env, fields, vals)
    ensures forall k <- RequiredOf(fields) :: k in EncodeFields(env, fields, vals)
  {
    EncodeFieldsExact(env, fields, vals);
    RequiredAs(fields);
    forall k <- RequiredOf(fields) ensures k in EncodeFields(env, fields, vals) {
      var i :| CompiledAs(fields, i, k) && Required(fields[i]);
      RequiredIsEmitted(fields[i], vals[i]);
      assert EmittedAs(fields, vals, i, k);
    }
  }

  /** Every member with a property conforms to it. */
  ghost predicate MembersConform(u: Unit, defs: Defs, name: string, vals: seq<GoValue>)
    requires name in u.env && FieldsHaveType(u.env, u.env[name], vals)
  {
    var members := EncodeFields(u.env, u.env[name], vals);
    var properties := PropertiesOf(u, name, u.env[name]);
    forall k <- members :: k in properties ==> Conforms(defs, properties[k], members[k])
  }

  lemma {:induction false} CleanMembersConform(u: Unit, defs: Defs, name: string, vals: seq<GoValue>)
    requires WellFormed(u) && Compiles(u, defs) && name in defs
    requires FieldsHaveType(u.env, u.env[name], vals) && CleanFields(u, name, vals)
    ensures MembersConform(u, defs, name, vals)
    decreases vals, 4
  {
    hide Conforms, PropertyOf;
    var fields := u.env[name];
    var members := EncodeFields(u.env, fields, vals);
    var properties := PropertiesOf(u, name, fields);
    EncodeFieldsExact(u.env, fields, vals);
    PropertiesExact(u, name, fields);
    forall k <- members | k in properties ensures Conforms(defs, properties[k], members[k]) {
      var i :| EmittedAs(fields, vals, i, k);
      var m :| CompiledAs(fields, m, k);
      assert i == m;
      FieldCorrect(u, defs, name, i, vals);
    }
  }

  lemma {:induction false} ConformingMembersClean(u: Unit, defs: Defs, name: string, vals: seq<GoValue>)
    requires WellFormed(u) && Compiles(u, defs) && name in defs
    requires FieldsHaveType(u.env, u.env[name], vals) && MembersConform(u, defs, name, vals)
    ensures CleanFields(u, name, vals)
    decreases vals, 4
  {
    var fields := u.env[name];
    EncodeFieldsExact(u.env, fields, vals);
    PropertiesExact(u, name, fields);
    forall i | 0 <= i < |vals| ensures CleanField(u, name, fields[i], vals[i]) {
      if Compiled(fields[i]) && Emitted(fields[i], vals[i]) {
        var k := JsonName(fields[i]);
        assert EmittedAs(fields, vals, i, k) && CompiledAs(fields, i, k);
        FieldCorrect(u, defs, name, i, vals);
      }
    }
  }

  lemma {:induction false} StructCorrect(u: Unit, defs: Defs, name: string, vals: seq<GoValue>)
    requires WellFormed(u) && Compiles(u, defs) && name in defs
    requires FieldsHaveType(u.env, u.env[name], vals)
    ensures Conforms(defs, RefTo(name), JObject(EncodeFields(u.env, u.env[name], vals))) <==>
            CleanFields(u, name, vals)
    decreases vals, 5
  {
    var fields := u.env[name];
    ConformsDefinition(defs, name, PropertiesOf(u, name, fields), RequiredOf(fields),
                       JObject(EncodeFields(u.env, fields, vals)));
    RequiredPresent(u.env, fields, vals);
    if CleanFields(u, name, vals) {
      CleanMembersConform(u, defs, name, vals);
    }
    if MembersConform(u, defs, name, vals) {
      ConformingMembersClean(u, defs, name, vals);
    }
  }

  lemma {:induction false} FieldCorrect(u: Unit, defs: Defs, name: string, i: nat, vals: seq<GoValue>)
    requires WellFormed(u) && Compiles(u, defs) && name in defs
    requires FieldsHaveType(u.env, u.env[name], vals) && i < |vals|
    requires Compiled(u.env[name][i]) && Emitted(u.env[name][i], vals[i])
    ensures Conforms(defs, PropertyOf(u, name, u.env[name][i]), Encode(u.env, u.env[name][i].typ, vals[i])) <==>
            CleanField(u, name, u.env[name][i], vals[i])
    decreases vals, 3
  {
    var f := u.env[name][i];
    if Overridden(u, name, f) {
      FixedCorrect(u, defs, u.fixed[name][JsonName(f)], f.typ, vals[i]);
    } else {
      if StructOf(f.typ).Some? {
        assert StructOf(f.typ).value in Mentions(u, name);
      }
      CompilerCorrect(u, defs, f.typ, vals[i]);
    }
  }

  // ---------------------------------------------------------------- what a schema asks of any JSON

  predicate Integral(j: JSON) {
    j.JNumber? && j.n.Floor as real == j.n
  }

  /** The JSON has the shape of the type, whoever wrote it: numbers where numbers go, integral where
      the type is, every element and member of a container shaped, and an object for a struct. */
  ghost predicate Shaped(u: Unit, t: GoType, j: JSON)
    decreases j, t, 1
  {
    match t
    case GPtr(e) => Shaped(u, e, j)
    case GString => j.JString?
    case GTime => j.JString?
    case GBool => j.JBool?
    case GInt => Integral(j)
    case GByte => Integral(j)
    case GFloat => j.JNumber?
    case GRaw => j.JArray? && forall i :: 0 <= i < |j.elems| ==> Integral(j.elems[i])
    case GSlice(e) => j.JArray? && forall i :: 0 <= i < |j.elems| ==> Shaped(u, e, j.elems[i])
    case GArray(e) => j.JArray? && forall i :: 0 <= i < |j.elems| ==> Shaped(u, e, j.elems[i])
    case GMap(e) => j.JObject? && forall k <- j.members :: Shaped(u, e, j.members[k])
    case GStruct(n) => n in u.env && ShapedStruct(u, n, j)
    case GOther => false
  }

  /** For every exported field whose tag is not a dash, the member of its name is there unless the tag
      lets it be omitted, and is as its override or else its type asks. */
  ghost predicate ShapedStruct(u: Unit, name: string, j: JSON)
    requires name in u.env
    decreases j, GStruct(name), 0
  {
    && j.JObject?
    && forall f <- u.env[name] | f.exported && f.tagName != "-" ::
         var k := if f.tagName == "" then f.goName else f.tagName;
         && (MayOmit(f) || k in j.members)
         && (k in j.members ==>
               if name in u.fixed && k in u.fixed[name] then FixedAllows(u.fixed[name][k], j.members[k])
               else Shaped(u, f.typ, j.members[k]))
  }

  predicate FixedAllows(s: Schema, j: JSON) {
    j.JString? && Allows(s, j.s)
  }

  lemma FixedMeans(defs: Defs, s: Schema, j: JSON)
    requires IsFixed(s)
    ensures Conforms(defs, s, j) <==> FixedAllows(s, j)
  {
    ConformsScalar(defs, s, j);
  }

  /** What an emitted schema accepts, of all JSON there is: exactly what has the shape of the type. */
  lemma {:induction false} SchemaMeans(u: Unit, defs: Defs, t: GoType, j: JSON)
    requires WellFormed(u) && Compiles(u, defs) && InDefs(defs, t)
    ensures Conforms(defs, SchemaOf(t), j) <==> Shaped(u, t, j)
    decreases j, t, 1
  {
    match t
    case GPtr(e) => SchemaMeans(u, defs, e, j);
    case GSlice(e) => ArrayMeans(u, defs, e, j);
    case GArray(e) => ArrayMeans(u, defs, e, j);
    case GMap(e) => MapMeans(u, defs, e, j);
    case GStruct(n) => StructMeans(u, defs, n, j);
    case GRaw => RawCorrect(defs, j);
    case _ => ConformsScalar(defs, SchemaOf(t), j);
  }

  lemma {:induction false} ArrayMeans(u: Unit, defs: Defs, e: GoType, j: JSON)
    requires WellFormed(u) && Compiles(u, defs) && InDefs(defs, e)
    ensures Conforms(defs, Schema(typ := Some(TArray), items := Some(SchemaOf(e))), j) <==>
            j.JArray? && forall i :: 0 <= i < |j.elems| ==> Shaped(u, e, j.elems[i])
    decreases j, e, 2
  {
    ConformsArray(defs, SchemaOf(e), j);
    if j.JArray? {
      forall i | 0 <= i < |j.elems|
        ensures Conforms(defs, SchemaOf(e), j.elems[i]) <==> Shaped(u, e, j.elems[i])
      {
        SchemaMeans(u, defs, e, j.elems[i]);
      }
    }
  }

  lemma {:induction false} MapMeans(u: Unit, defs: Defs, e: GoType, j: JSON)
    requires WellFormed(u) && Compiles(u, defs) && InDefs(defs, e)
    ensures Conforms(defs, Schema(typ := Some(TObject), additionalProperties := Some(SchemaOf(e))), j) <==>
            j.JObject? && forall k <- j.members :: Shaped(u, e, j.members[k])
    decreases j, e, 2
  {
    ConformsMap(defs, SchemaOf(e), j);
    if j.JObject? {
      forall k <- j.members ensures Conforms(defs, SchemaOf(e), j.members[k]) <==> Shaped(u, e, j.members[k]) {
        SchemaMeans(u, defs, e, j.members[k]);
      }
    }
  }

  /** Field `f`'s member is as it should be in an object. */
  ghost predicate MemberMeans(u: Unit, defs: Defs, name: string, f: Field, j: JSON)
    requires j.JObject?
  {
    var k := JsonName(f);
    (MayOmit(f) || k in j.members) && (k in j.members ==> Conforms(defs, PropertyOf(u, name, f), j.members[k]))
  }

  lemma MembersMean(u: Unit, defs: Defs, name: string, j: JSON)
    requires WellFormed(u) && Compiles(u, defs) && name in defs && j.JObject?
    ensures Conforms(defs, RefTo(name), j) <==>
            forall i :: 0 <= i < |u.env[name]| && Compiled(u.env[name][i]) ==>
              MemberMeans(u, defs, name, u.env[name][i], j)
  {
    var fields := u.env[name];
    var properties, required := PropertiesOf(u, name, fields), RequiredOf(fields);
    ConformsDefinition(defs, name, properties, required, j);
    PropertiesExact(u, name, fields);
    RequiredExact(fields);
    if forall i :: 0 <= i < |fields| && Compiled(fields[i]) ==> MemberMeans(u, defs, name, fields[i], j) {
      forall k <- required ensures k in j.members {
        var i :| CompiledAs(fields, i, k) && !MayOmit(fields[i]);
        assert MemberMeans(u, defs, name, fields[i], j);
      }
      forall k <- j.members | k in properties ensures Conforms(defs, properties[k], j.members[k]) {
        var i :| CompiledAs(fields, i, k);
        assert MemberMeans(u, defs, name, fields[i], j);
      }
    }
    if Conforms(defs, RefTo(name), j) {
      forall i | 0 <= i < |fields| && Compiled(fields[i]) ensures MemberMeans(u, defs, name, fields[i], j) {
        assert CompiledAs(fields, i, JsonName(fields[i]));
      }
    }
  }

  lemma {:induction false} StructMeans(u: Unit, defs: Defs, name: string, j: JSON)
    requires WellFormed(u) && Compiles(u, defs) && name in defs
    ensures Conforms(defs, RefTo(name), j) <==> ShapedStruct(u, name, j)
    decreases j, GStruct(name), 0
  {
    var fields := u.env[name];
    if j.JObject? {
      MembersMean(u, defs, name, j);
      forall i | 0 <= i < |fields| && Compiled(fields[i]) && JsonName(fields[i]) in j.members
        ensures Conforms(defs, PropertyOf(u, name, fields[i]), j.members[JsonName(fields[i])]) <==>
                MemberShaped(u, name, fields[i], j.members[JsonName(fields[i])])
      {
        MemberCorrect(u, defs, name, fields[i], j.members[JsonName(fields[i])]);
      }
    } else {
      ConformsDefinition(defs, name, PropertiesOf(u, name, fields), RequiredOf(fields), j);
    }
  }

  ghost predicate MemberShaped(u: Unit, name: string, f: Field, j: JSON) {
    if Overridden(u, name, f) then FixedAllows(u.fixed[name][JsonName(f)], j) else Shaped(u, f.typ, j)
  }

  lemma {:induction false} MemberCorrect(u: Unit, defs: Defs, name: string, f: Field, j: JSON)
    requires WellFormed(u) && Compiles(u, defs) && name in defs && f in u.env[name] && Compiled(f)
    ensures Conforms(defs, PropertyOf(u, name, f), j) <==> MemberShaped(u, name, f, j)
    decreases j, f.typ, 2
  {
    if Overridden(u, name, f) {
      FixedMeans(defs, u.fixed[name][JsonName(f)], j);
    } else {
      if StructOf(f.typ).Some? {
        assert StructOf(f.typ).value in Mentions(u, name);
      }
      SchemaMeans(u, defs, f.typ, j);
    }
  }

  /** The generated document accepts exactly the JSON that has the shape of its root. */
  lemma DocumentMeans(u: Unit, d: Document, j: JSON)
    requires WellFormed(u) && d.root in u.env && IsClosure(u, d.root, d.defs)
    ensures Conforms(d.defs, RefTo(d.root), j) <==> Shaped(u, GStruct(d.root), j)
  {
    ClosureResolves(u, d.root, d.defs);
    SchemaMeans(u, d.defs, GStruct(d.root), j);
  }

  /** The same about the generated document: a value of the root type is accepted by the whole
      published schema exactly when it is clean. */
  lemma DocumentCorrect(u: Unit, d: Document, v: GoValue)
    requires WellFormed(u) && d.root in u.env && IsClosure(u, d.root, d.defs)
    requires HasType(u.env, GStruct(d.root), v)
    ensures Conforms(d.defs, RefTo(d.root), Encode(u.env, GStruct(d.root), v)) <==> Clean(u, GStruct(d.root), v)
  {
    ClosureResolves(u, d.root, d.defs);
    CompilerCorrect(u, d.defs, GStruct(d.root), v);
  }
}
