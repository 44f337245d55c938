/** The schema compiler: from a graph of Go types, cyclic or not, to JSON Schema definitions. */
module Specgen {
  import opened Text
  import opened Json
  import opened GoTypes

  /** Fields whose schema is fixed by hand, by struct and JSON name. */
  type Overrides = map<string, map<string, Schema>>

  /** A compilation unit: the declared structs and the overrides. */
  datatype Unit = Unit(env: Env, fixed: Overrides)

  // ---------------------------------------------------------------- what is generated

  function RefTo(name: string): Schema {
    Schema(ref := Some(name))
  }

  /** The schema of a type, a function of the type alone: structs are left to their definitions. */
  function SchemaOf(t: GoType): Schema {
    match t
    case GPtr(e) => SchemaOf(e)
    case GTime => Schema(typ := Some(TString), format := Some("date-time"))
    case GString => Schema(typ := Some(TString))
    case GBool => Schema(typ := Some(TBoolean))
    case GInt => Schema(typ := Some(TInteger))
    case GByte => Schema(typ := Some(TInteger))
    case GFloat => Schema(typ := Some(TNumber))
    case GRaw => Schema(typ := Some(TArray), items := Some(Schema(typ := Some(TInteger))))
    case GSlice(e) => Schema(typ := Some(TArray), items := Some(SchemaOf(e)))
    case GArray(e) => Schema(typ := Some(TArray), items := Some(SchemaOf(e)))
    case GMap(e) => Schema(typ := Some(TObject), additionalProperties := Some(SchemaOf(e)))
    case GStruct(n) => RefTo(n)
    case GOther => Schema()
  }

  /** The fields that get a property: exported, and not named by a dash. */
  predicate Compiled(f: Field) {
    f.exported && f.tagName != "-"
  }

  predicate Overridden(u: Unit, name: string, f: Field) {
    name in u.fixed && JsonName(f) in u.fixed[name]
  }

  /** The fields whose type is compiled in turn. */
  predicate Followed(u: Unit, name: string, f: Field) {
    Compiled(f) && !Overridden(u, name, f)
  }

  function PropertyOf(u: Unit, name: string, f: Field): Schema {
    if Overridden(u, name, f) then u.fixed[name][JsonName(f)] else SchemaOf(f.typ)
  }

  predicate Required(f: Field) {
    Compiled(f) && !Contains(Options(f), "omitempty")
  }

  function PropertiesOf(u: Unit, name: string, fields: seq<Field>): map<string, Schema> {
    if fields == [] then map[]
    else
      var n := |fields| - 1;
      var rest := PropertiesOf(u, name, fields[..n]);
      if Compiled(fields[n]) then rest[JsonName(fields[n]) := PropertyOf(u, name, fields[n])] else rest
  }

  function RequiredOf(fields: seq<Field>): seq<string> {
    if fields == [] then []
    else
      var n := |fields| - 1;
      RequiredOf(fields[..n]) + if Required(fields[n]) then [JsonName(fields[n])] else []
  }

  /** The definition of a struct, a function of its own declaration. */
  function DefinitionOf(u: Unit, name: string): Schema
    requires name in u.env
  {
    Schema(typ := Some(TObject), properties := PropertiesOf(u, name, u.env[name]),
           required := RequiredOf(u.env[name]))
  }

  // ---------------------------------------------------------------- which structs are defined

  /** The structs a struct's definition refers to. */
  ghost function Mentions(u: Unit, name: string): set<string>
    requires name in u.env
  {
    MentionsIn(u, name, u.env[name])
  }

  ghost function MentionsIn(u: Unit, name: string, fields: seq<Field>): set<string> {
    set f <- fields | Followed(u, name, f) && StructOf(f.typ).Some? :: StructOf(f.typ).value
  }

  /** Every followed field has a type with a schema. */
  ghost predicate Definable(u: Unit, name: string) {
    name in u.env && AllSupported(u, name, u.env[name])
  }

  ghost predicate AllSupported(u: Unit, name: string, fields: seq<Field>) {
    forall f <- fields :: Followed(u, name, f) ==> Supported(f.typ)
  }

  /** A chain of structs, each mentioned by the one before. */
  ghost predicate IsChain(u: Unit, chain: seq<string>) {
    && chain != []
    && (forall n <- chain :: n in u.env)
    && forall i :: 0 <= i < |chain| - 1 ==> chain[i + 1] in Mentions(u, chain[i])
  }

  ghost predicate ChainTo(u: Unit, chain: seq<string>, from: string, to: string) {
    IsChain(u, chain) && chain[0] == from && chain[|chain| - 1] == to
  }

  ghost predicate Reaches(u: Unit, from: string, to: string) {
    exists chain :: ChainTo(u, chain, from, to)
  }

  ghost predicate ReachedFrom(u: Unit, t: GoType, name: string) {
    StructOf(t).Some? && Reaches(u, StructOf(t).value, name)
  }

  lemma ReachesSelf(u: Unit, name: string)
    requires name in u.env
    ensures Reaches(u, name, name)
  {
    assert ChainTo(u, [name], name, name);
  }

  lemma ReachesThrough(u: Unit, name: string, next: string, to: string)
    requires name in u.env && next in Mentions(u, name) && Reaches(u, next, to)
    ensures Reaches(u, name, to)
  {
    var chain :| ChainTo(u, chain, next, to);
    var longer := [name] + chain;
    forall i | 0 <= i < |longer| - 1 ensures longer[i + 1] in Mentions(u, longer[i]) {
      if i > 0 {
        assert chain[i] in Mentions(u, chain[i - 1]);
      }
    }
    assert ChainTo(u, longer, name, to);
  }

  lemma ReachesNext(u: Unit, from: string, name: string, next: string)
    requires Reaches(u, from, name) && name in u.env && next in u.env && next in Mentions(u, name)
    ensures Reaches(u, from, next)
  {
    var chain :| ChainTo(u, chain, from, name);
    var longer := chain + [next];
    forall i | 0 <= i < |longer| - 1 ensures longer[i + 1] in Mentions(u, longer[i]) {
      if i < |chain| - 1 {
        assert chain[i + 1] in Mentions(u, chain[i]);
      }
    }
    assert ChainTo(u, longer, from, next);
  }

  /** A set closed under mention contains everything reached from it. */
  lemma {:induction false} ClosedUnderReach(u: Unit, names: set<string>, chain: seq<string>)
    requires IsChain(u, chain) && chain[0] in names
    requires forall n <- names :: n in u.env && Mentions(u, n) <= names
    ensures chain[|chain| - 1] in names
  {
    if |chain| <= 1 {
    } else {
      assert chain[1] in Mentions(u, chain[0]);
      assert forall i :: 0 <= i < |chain[1..]| - 1 ==> chain[1..][i + 1] in Mentions(u, chain[1..][i]) by {
        forall i | 0 <= i < |chain[1..]| - 1 ensures chain[1..][i + 1] in Mentions(u, chain[1..][i]) {
          assert chain[i + 2] in Mentions(u, chain[i + 1]);
        }
      }
      ClosedUnderReach(u, names, chain[1..]);
    }
  }

  // ---------------------------------------------------------------- the traversal

  /** Definitions under construction; `None` is a name reserved while its struct is being compiled. */
  type Table = map<string, Option<Schema>>

  /** `after` has everything `before` had, and each new name is a struct of the unit, completely and
      correctly defined, with everything it mentions present as well. */
  ghost predicate Grows(u: Unit, before: Table, after: Table) {
    && (forall n <- before :: n in after && after[n] == before[n])
    && (forall n <- after | n !in before ::
          Definable(u, n) && after[n] == Some(DefinitionOf(u, n)) && Mentions(u, n) <= after.Keys)
  }

  ghost predicate NewReachedFrom(u: Unit, t: GoType, before: Table, after: Table) {
    forall n <- after | n !in before :: ReachedFrom(u, t, n)
  }

  /** Somewhere below `t` there is a type without a schema. */
  ghost predicate Unsupported(u: Unit, t: GoType) {
    !Supported(t) || exists n :: ReachedFrom(u, t, n) && !Definable(u, n)
  }

  class Compiler {
    const u: Unit
    var defs: Table

    constructor (u: Unit)
      ensures this.u == u && defs == map[]
    {
      this.u := u;
      defs := map[];
    }

    /** Compiles a type, defining every struct it needs that is not yet defined or reserved. The
        result is `None` when the program gives up on a type without a schema. */
    method TypeSchema(t: GoType) returns (r: Option<Schema>)
      requires Closed(u.env) && Declared(u.env, t)
      modifies this`defs
      ensures r.Some? ==>
        && r.value == SchemaOf(t) && Supported(t)
        && Grows(u, old(defs), defs) && NewReachedFrom(u, t, old(defs), defs)
        && (StructOf(t).Some? ==> StructOf(t).value in defs)
      ensures r.None? ==> Unsupported(u, t)
      decreases u.env.Keys - defs.Keys, t
    {
      var t := t;
      ghost var given := t;
      while t.GPtr?
        invariant SchemaOf(t) == SchemaOf(given) && Supported(t) == Supported(given)
        invariant StructOf(t) == StructOf(given)
        invariant t == given || t < given
        decreases t
      {
        t := t.elem;
      }
      match t {
        case GTime => return Some(Schema(typ := Some(TString), format := Some("date-time")));
        case GString => return Some(Schema(typ := Some(TString)));
        case GBool => return Some(Schema(typ := Some(TBoolean)));
        case GInt => return Some(Schema(typ := Some(TInteger)));
        case GByte => return Some(Schema(typ := Some(TInteger)));
        case GFloat => return Some(Schema(typ := Some(TNumber)));
        case GRaw =>
          return Some(Schema(typ := Some(TArray), items := Some(Schema(typ := Some(TInteger)))));
        case GSlice(e) =>
          r := TypeSchema(e);
          if r.Some? {
            r := Some(Schema(typ := Some(TArray), items := r));
          }
        case GArray(e) =>
          r := TypeSchema(e);
          if r.Some? {
            r := Some(Schema(typ := Some(TArray), items := r));
          }
        case GMap(e) =>
          r := TypeSchema(e);
          if r.Some? {
            r := Some(Schema(typ := Some(TObject), additionalProperties := r));
          }
        case GStruct(name) =>
          var ok := true;
          if name !in defs {
            ok := DefineStruct(name);
          }
          r := if ok then Some(RefTo(name)) else None;
        case GOther => return None;
      }
    }

    /** Compiles the definition of a struct that is not in the table. Its name is reserved first,
        so a struct that contains itself terminates. */
    method DefineStruct(name: string) returns (ok: bool)
      requires Closed(u.env) && name in u.env && name !in defs
      modifies this`defs
      ensures ok ==>
        && Grows(u, old(defs), defs) && NewReachedFrom(u, GStruct(name), old(defs), defs)
        && name in defs
      ensures !ok ==> exists n :: Reaches(u, name, n) && !Definable(u, n)
      decreases u.env.Keys - defs.Keys, GStruct(name), 0
    {
      var fields := u.env[name];
      defs := defs[name := None];
      ghost var reserved := defs;
      var properties: map<string, Schema> := map[];
      var required: seq<string> := [];
      NoFieldsYet(u, name, reserved);
      for i := 0 to |fields|
        invariant CompiledUpTo(u, name, reserved, defs, i, properties, required)
      {
        hide CompiledUpTo, Grows, PropertiesOf, RequiredOf;
        var f := fields[i];
        ghost var before := defs;
        FieldStep(u, name, reserved, before, i, properties, required);
        if !f.exported {
          continue;
        }
        if f.tagName == "-" {
          continue;
        }
        var jname := JsonName(f);
        if name in u.fixed && jname in u.fixed[name] {
          properties := properties[jname := u.fixed[name][jname]];
        } else {
          FewerLeft(u, name, old(defs), reserved, defs, i, properties, required);
          var s := TypeSchema(f.typ);
          if s.None? {
            UnsupportedField(u, name, f);
            return false;
          }
          FollowedStep(u, name, reserved, before, defs, i, properties, required);
          properties := properties[jname := s.value];
        }
        if !Contains(Options(f), "omitempty") {
          required := required + [jname];
        }
      }
      assert fields[..|fields|] == fields;
      ghost var grown := defs;
      defs := defs[name := Some(Schema(typ := Some(TObject), properties := properties, required := required))];
      ReachesSelf(u, name);
      StructDefined(u, name, old(defs), reserved, grown, defs);
      return true;
    }
  }

  // ---------------------------------------------------------------- one field at a time

  /** The first `i` fields of the struct are compiled, starting from the table with its name reserved. */
  ghost predicate CompiledUpTo(u: Unit, name: string, reserved: Table, defs: Table, i: nat,
                               properties: map<string, Schema>, required: seq<string>)
  {
    && name in u.env && i <= |u.env[name]|
    && Grows(u, reserved, defs) && NewReachedFrom(u, GStruct(name), reserved, defs)
    && MentionsIn(u, name, u.env[name][..i]) <= defs.Keys && AllSupported(u, name, u.env[name][..i])
    && properties == PropertiesOf(u, name, u.env[name][..i]) && required == RequiredOf(u.env[name][..i])
  }

  lemma NoFieldsYet(u: Unit, name: string, reserved: Table)
    requires name in u.env
    ensures CompiledUpTo(u, name, reserved, reserved, 0, map[], [])
  {
  }

  function WithProperty(u: Unit, name: string, f: Field, properties: map<string, Schema>): map<string, Schema> {
    if Compiled(f) then properties[JsonName(f) := PropertyOf(u, name, f)] else properties
  }

  function WithRequired(f: Field, required: seq<string>): seq<string> {
    required + if Required(f) then [JsonName(f)] else []
  }

  /** A field that is not followed leaves the table alone. */
  lemma FieldStep(u: Unit, name: string, reserved: Table, defs: Table, i: nat,
                  properties: map<string, Schema>, required: seq<string>)
    requires CompiledUpTo(u, name, reserved, defs, i, properties, required) && i < |u.env[name]|
    ensures !Followed(u, name, u.env[name][i]) ==>
      CompiledUpTo(u, name, reserved, defs, i + 1,
                   WithProperty(u, name, u.env[name][i], properties), WithRequired(u.env[name][i], required))
  {
    hide Grows, NewReachedFrom;
    var fields := u.env[name];
    assert fields[..i + 1] == fields[..i] + [fields[i]];
    assert fields[..i + 1][..i] == fields[..i];
  }

  /** A field that is followed has its type compiled, from `before` to `after`. */
  lemma FollowedStep(u: Unit, name: string, reserved: Table, before: Table, after: Table, i: nat,
                     properties: map<string, Schema>, required: seq<string>)
    requires CompiledUpTo(u, name, reserved, before, i, properties, required) && i < |u.env[name]|
    requires var f := u.env[name][i];
      && Followed(u, name, f) && Supported(f.typ) && (StructOf(f.typ).Some? ==> StructOf(f.typ).value in after)
      && Grows(u, before, after) && NewReachedFrom(u, f.typ, before, after)
    ensures CompiledUpTo(u, name, reserved, after, i + 1,
                         WithProperty(u, name, u.env[name][i], properties), WithRequired(u.env[name][i], required))
  {
    var fields := u.env[name];
    assert fields[..i + 1] == fields[..i] + [fields[i]];
    assert fields[..i + 1][..i] == fields[..i];
    assert before.Keys <= after.Keys;
    FieldGrows(u, name, fields[i], reserved, before, after);
  }

  /** With the name reserved and nothing ever removed, fewer structs are left to define. */
  lemma FewerLeft(u: Unit, name: string, start: Table, reserved: Table, defs: Table, i: nat,
                  properties: map<string, Schema>, required: seq<string>)
    requires name !in start && reserved == start[name := None]
    requires CompiledUpTo(u, name, reserved, defs, i, properties, required)
    ensures u.env.Keys - defs.Keys < u.env.Keys - start.Keys
  {
    assert start.Keys + {name} <= defs.Keys;
    assert name in u.env.Keys - start.Keys && name !in u.env.Keys - defs.Keys;
  }

  lemma UnsupportedField(u: Unit, name: string, f: Field)
    requires name in u.env && f in u.env[name] && Followed(u, name, f) && Unsupported(u, f.typ)
    ensures exists n :: Reaches(u, name, n) && !Definable(u, n)
  {
    if !Supported(f.typ) {
      ReachesSelf(u, name);
      assert Reaches(u, name, name) && !Definable(u, name);
    } else {
      var n :| ReachedFrom(u, f.typ, n) && !Definable(u, n);
      ReachesThrough(u, name, StructOf(f.typ).value, n);
    }
  }

  lemma FieldGrows(u: Unit, name: string, f: Field, reserved: Table, before: Table, after: Table)
    requires name in u.env && f in u.env[name] && Followed(u, name, f)
    requires Grows(u, reserved, before) && NewReachedFrom(u, GStruct(name), reserved, before)
    requires Grows(u, before, after) && NewReachedFrom(u, f.typ, before, after)
    ensures Grows(u, reserved, after) && NewReachedFrom(u, GStruct(name), reserved, after)
  {
    forall n <- after | n !in reserved ensures ReachedFrom(u, GStruct(name), n) {
      if n !in before {
        ReachesThrough(u, name, StructOf(f.typ).value, n);
      }
    }
  }

  lemma StructDefined(u: Unit, name: string, before: Table, reserved: Table, grown: Table, after: Table)
    requires name !in before && reserved == before[name := None]
    requires Grows(u, reserved, grown) && NewReachedFrom(u, GStruct(name), reserved, grown)
    requires Definable(u, name) && Mentions(u, name) <= grown.Keys
    requires after == grown[name := Some(DefinitionOf(u, name))]
    requires Reaches(u, name, name)
    ensures Grows(u, before, after) && NewReachedFrom(u, GStruct(name), before, after)
  {
    assert name in grown;
    assert after.Keys == grown.Keys;
  }

  // ---------------------------------------------------------------- the document

  /** The published schema: a reference to the root and the definitions. */
  datatype Document = Document(root: string, defs: Defs)

  /** The definitions a root needs: itself and everything reached from it. */
  ghost predicate IsClosure(u: Unit, root: string, defs: Defs) {
    && (forall n :: n in defs <==> Reaches(u, root, n))
    && (forall n <- defs :: Definable(u, n) && defs[n] == DefinitionOf(u, n))
  }

  /** Every reference names a definition that is present. */
  ghost predicate RefsResolve(u: Unit, defs: Defs) {
    forall n <- defs :: n in u.env && Mentions(u, n) <= defs.Keys
  }

  lemma ClosureResolves(u: Unit, root: string, defs: Defs)
    requires Closed(u.env) && root in u.env && IsClosure(u, root, defs)
    ensures root in defs && RefsResolve(u, defs)
  {
    ReachesSelf(u, root);
    forall n <- defs, m <- Mentions(u, n) ensures m in defs {
      ReachesNext(u, root, n, m);
    }
  }

  /** Generates the document for a root struct. It fails exactly when some reachable struct has a
      followed field without a schema; otherwise no reserved name is left, the definitions are
      those of the structs reachable from the root, and each is that struct's own. */
  method Generate(u: Unit, root: string) returns (r: Option<Document>)
    requires Closed(u.env) && root in u.env
    ensures r.Some? <==> forall n :: Reaches(u, root, n) ==> Definable(u, n)
    ensures r.Some? ==> r.value.root == root && IsClosure(u, root, r.value.defs)
  {
    var c := new Compiler(u);
    var s := c.TypeSchema(GStruct(root));
    if s.None? {
      return None;
    }
    var defs := map n | n in c.defs :: c.defs[n].value;
    forall n ensures n in defs <==> Reaches(u, root, n) {
      if n in defs {
        assert ReachedFrom(u, GStruct(root), n);
      }
      if Reaches(u, root, n) {
        var chain :| ChainTo(u, chain, root, n);
        ClosedUnderReach(u, c.defs.Keys, chain);
      }
    }
    r := Some(Document(s.value.ref.value, defs));
  }
}
