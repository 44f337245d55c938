/** The schema file as it is published, and that it is what the compiler generates. */
module PublishedSchema {
  import opened Text
  import opened Json
  import opened GoTypes
  import opened Specgen
  import opened Statements
  import opened StatementSchema

  // ---------------------------------------------------------------- the file

  /** One property of a definition: its name, its schema, and whether it is required. */
  datatype Row = Row(name: string, schema: Schema, required: bool)

  function RowProperties(rows: seq<Row>): map<string, Schema> {
    if rows == [] then map[]
    else
      var n := |rows| - 1;
      RowProperties(rows[..n])[rows[n].name := rows[n].schema]
  }

  function RowRequired(rows: seq<Row>): seq<string> {
    if rows == [] then []
    else
      var n := |rows| - 1;
      RowRequired(rows[..n]) + if rows[n].required then [rows[n].name] else []
  }

  /** A definition with these properties. */
  function Definition(rows: seq<Row>): Schema {
    Schema(typ := Some(TObject), properties := RowProperties(rows), required := RowRequired(rows))
  }

  const STRING := Schema(typ := Some(TString))
  const INTEGER := Schema(typ := Some(TInteger))
  const NUMBER := Schema(typ := Some(TNumber))
  const TIME := Schema(typ := Some(TString), format := Some("date-time"))

  function Fixed(text: string): Schema {
    Schema(constant := Some(text))
  }

  function OneOf(texts: seq<string>): Schema {
    Schema(typ := Some(TString), enumeration := Some(texts))
  }

  function Ref(name: string): Schema {
    Schema(ref := Some(name))
  }

  function ListOf(item: Schema): Schema {
    Schema(typ := Some(TArray), items := Some(item))
  }

  function MapOf(item: Schema): Schema {
    Schema(typ := Some(TObject), additionalProperties := Some(item))
  }

  const STATEMENT_ROWS := [
    Row("_type", Fixed("https://in-toto.io/Statement/v1"), true), Row("subject", ListOf(Ref("Subject")), true),
    Row("predicateType", Fixed("https://scoutmcp.io/attestation/mcp-evaluation/v1"), true),
    Row("predicate", Ref("Evaluation"), true)]

  const SUBJECT_ROWS := [Row("name", STRING, true), Row("digest", MapOf(STRING), true)]

  const JUDGED_ROWS := [
    Row("subjectKind", Fixed("mcp-target-descriptor"), true), Row("target", Ref("Target"), true),
    Row("judgedAgainst", Ref("Basis"), true), Row("instrument", Ref("Instrument"), true)]

  const RUN_ROWS := [
    Row("ranAt", TIME, true), Row("took", STRING, true), Row("verdicts", ListOf(Ref("Verdict")), true),
    Row("counts", Ref("Counts"), true)]

  const SUMMARY_ROWS := [
    Row("score", Ref("Score"), false), Row("blocked", STRING, false), Row("traceId", STRING, false),
    Row("plan", Ref("Plan"), false)]

  const PLAN_ROWS := [
    Row("spec", ListOf(INTEGER), true), Row("credentials", STRING, true),
    Row("credentialsByValue", ListOf(STRING), false), Row("os", STRING, true), Row("arch", STRING, true),
    Row("kernel", STRING, false)]

  const TARGET_ROWS := [
    Row("transport", OneOf(["http", "stdio"]), true), Row("endpoint", STRING, true),
    Row("server", Ref("ServerIdentity"), false)]

  const SERVER_IDENTITY_ROWS := [
    Row("name", STRING, false), Row("version", STRING, false), Row("protocolVersion", STRING, false)]

  const BASIS_ROWS := [
    Row("specRevision", STRING, false), Row("rubric", STRING, false), Row("checkInventory", STRING, false)]

  const INSTRUMENT_ROWS := [
    Row("name", STRING, true), Row("version", STRING, true), Row("reportSchemaVersion", INTEGER, true)]

  const VERDICT_ROWS := [
    Row("id", STRING, true), Row("phase", STRING, true),
    Row("status", OneOf(["pass", "warn", "fail", "skip", "info"]), true), Row("severity", STRING, false),
    Row("evidence", ListOf(STRING), false), Row("doc", STRING, false)]

  const COUNTS_ROWS := [
    Row("pass", INTEGER, true), Row("warn", INTEGER, true), Row("fail", INTEGER, true),
    Row("skip", INTEGER, true), Row("info", INTEGER, true)]

  const SCORE_ROWS := [
    Row("total", NUMBER, true), Row("grade", STRING, true), Row("categoriesAssessed", INTEGER, true),
    Row("categoriesTotal", INTEGER, true), Row("byCategory", MapOf(NUMBER), false)]

  /** The definitions in the file. */
  ghost predicate IsFile(defs: Defs) {
    && defs.Keys == {"Statement", "Subject", "Evaluation", "Plan", "Target", "ServerIdentity",
                     "Basis", "Instrument", "Verdict", "Counts", "Score"}
    && defs["Statement"] == Definition(STATEMENT_ROWS) && defs["Subject"] == Definition(SUBJECT_ROWS)
    && defs["Evaluation"] == Definition(JUDGED_ROWS + RUN_ROWS + SUMMARY_ROWS)
    && defs["Plan"] == Definition(PLAN_ROWS) && defs["Target"] == Definition(TARGET_ROWS)
    && defs["ServerIdentity"] == Definition(SERVER_IDENTITY_ROWS) && defs["Basis"] == Definition(BASIS_ROWS)
    && defs["Instrument"] == Definition(INSTRUMENT_ROWS) && defs["Verdict"] == Definition(VERDICT_ROWS)
    && defs["Counts"] == Definition(COUNTS_ROWS) && defs["Score"] == Definition(SCORE_ROWS)
  }

  // ---------------------------------------------------------------- field by field

  /** The field compiles to the row. */
  predicate Yields(u: Unit, name: string, f: Field, row: Row) {
    Compiled(f) && JsonName(f) == row.name && PropertyOf(u, name, f) == row.schema && (Required(f) <==> row.required)
  }

  ghost predicate AllYield(u: Unit, name: string, fields: seq<Field>, rows: seq<Row>) {
    |fields| == |rows| && forall i :: 0 <= i < |fields| ==> Yields(u, name, fields[i], rows[i])
  }

  lemma {:induction false} RowsCompiled(u: Unit, name: string, fields: seq<Field>, rows: seq<Row>)
    requires AllYield(u, name, fields, rows)
    ensures PropertiesOf(u, name, fields) == RowProperties(rows) && RequiredOf(fields) == RowRequired(rows)
  {
    hide PropertyOf, Required, Compiled;
    if fields == [] {
    } else {
      var n := |fields| - 1;
      RowsCompiled(u, name, fields[..n], rows[..n]);
      assert Yields(u, name, fields[n], rows[n]);
    }
  }

  lemma StructCompiled(u: Unit, name: string, fields: seq<Field>, fixed: map<string, Schema>, rows: seq<Row>)
    requires Declares(u, name, fields, fixed) && AllYield(u, name, fields, rows)
    ensures DefinitionOf(u, name) == Definition(rows)
  {
    RowsCompiled(u, name, fields, rows);
  }

  lemma AlwaysYields(u: Unit, name: string, f: Field, schema: Schema)
    requires f.exported && |f.tagName| > 1 && f.tagOpts.None? && PropertyOf(u, name, f) == schema
    ensures Yields(u, name, f, Row(f.tagName, schema, true))
  {
    assert |Options(f)| == 0;
  }

  lemma WhenSetYields(u: Unit, name: string, f: Field, schema: Schema)
    requires f.exported && |f.tagName| > 1 && f.tagOpts == Some("omitempty") && PropertyOf(u, name, f) == schema
    ensures Yields(u, name, f, Row(f.tagName, schema, false))
  {
    assert OccursAt("omitempty", "omitempty", 0);
  }

  /** A field yields the row, by the options of its tag. */
  lemma FieldYields(u: Unit, name: string, f: Field, row: Row)
    requires f.exported && |f.tagName| > 1 && f.tagName == row.name && PropertyOf(u, name, f) == row.schema
    requires f.tagOpts == if row.required then None else Some("omitempty")
    ensures Yields(u, name, f, row)
  {
    if row.required {
      AlwaysYields(u, name, f, row.schema);
    } else {
      WhenSetYields(u, name, f, row.schema);
    }
  }

  // ---------------------------------------------------------------- struct by struct

  /** The schema of a field's type, unless its name is overridden. */
  function Given(fixed: map<string, Schema>, f: Field): Schema {
    if f.tagName in fixed then fixed[f.tagName] else SchemaOf(f.typ)
  }

  /** The tag, type and overrides of the field are those the row is made from. */
  predicate Matches(fixed: map<string, Schema>, f: Field, row: Row) {
    && f.exported && |f.tagName| > 1 && f.tagName == row.name && Given(fixed, f) == row.schema
    && f.tagOpts == if row.required then None else Some("omitempty")
  }

  ghost predicate AllMatch(fixed: map<string, Schema>, fields: seq<Field>, rows: seq<Row>) {
    |fields| == |rows| && forall i :: 0 <= i < |fields| ==> Matches(fixed, fields[i], rows[i])
  }

  lemma MatchYields(u: Unit, name: string, fixed: map<string, Schema>, f: Field, row: Row)
    requires HasOverrides(u, name, fixed) && Matches(fixed, f, row)
    ensures Yields(u, name, f, row)
  {
    hide Yields;
    assert PropertyOf(u, name, f) == Given(fixed, f);
    FieldYields(u, name, f, row);
  }

  lemma StructYields(u: Unit, name: string, fields: seq<Field>, fixed: map<string, Schema>, rows: seq<Row>)
    requires Declares(u, name, fields, fixed) && AllMatch(fixed, fields, rows)
    ensures DefinitionOf(u, name) == Definition(rows)
  {
    hide Yields, Matches;
    forall i | 0 <= i < |fields| ensures Yields(u, name, fields[i], rows[i]) {
      MatchYields(u, name, fixed, fields[i], rows[i]);
    }
    StructCompiled(u, name, fields, fixed, rows);
  }

  lemma StatementCompiled(u: Unit, typ: Schema, predicateType: Schema)
    requires Declares(u, "Statement", STATEMENT, map["_type" := typ, "predicateType" := predicateType])
    requires typ == STATEMENT_ROWS[0].schema && predicateType == STATEMENT_ROWS[2].schema
    ensures DefinitionOf(u, "Statement") == Definition(STATEMENT_ROWS)
  {
    hide Declares, DefinitionOf, Definition;
    StructYields(u, "Statement", STATEMENT, map["_type" := typ, "predicateType" := predicateType], STATEMENT_ROWS);
  }

  lemma TargetCompiled(u: Unit, transport: Schema)
    requires Declares(u, "Target", TARGET, map["transport" := transport]) && transport == TARGET_ROWS[0].schema
    ensures DefinitionOf(u, "Target") == Definition(TARGET_ROWS)
  {
    hide Declares, DefinitionOf, Definition;
    StructYields(u, "Target", TARGET, map["transport" := transport], TARGET_ROWS);
  }

  lemma VerdictCompiled(u: Unit, status: Schema)
    requires Declares(u, "Verdict", VERDICT, map["status" := status]) && status == VERDICT_ROWS[2].schema
    ensures DefinitionOf(u, "Verdict") == Definition(VERDICT_ROWS)
  {
    hide Declares, DefinitionOf, Definition;
    StructYields(u, "Verdict", VERDICT, map["status" := status], VERDICT_ROWS);
  }

  lemma MatchJoin(fixed: map<string, Schema>, f: seq<Field>, r: seq<Row>, g: seq<Field>, s: seq<Row>)
    requires AllMatch(fixed, f, r) && AllMatch(fixed, g, s)
    ensures AllMatch(fixed, f + g, r + s)
  {
    hide Matches;
  }

  lemma EvaluationCompiled(u: Unit, kind: Schema)
    requires Declares(u, "Evaluation", EVALUATION, map["subjectKind" := kind]) && kind == JUDGED_ROWS[0].schema
    ensures DefinitionOf(u, "Evaluation") == Definition(JUDGED_ROWS + RUN_ROWS + SUMMARY_ROWS)
  {
    EvaluationMatches(kind);
    hide *;
    StructYields(u, "Evaluation", EVALUATION, map["subjectKind" := kind], JUDGED_ROWS + RUN_ROWS + SUMMARY_ROWS);
  }

  lemma EvaluationMatches(kind: Schema)
    requires kind == JUDGED_ROWS[0].schema
    ensures AllMatch(map["subjectKind" := kind], EVALUATION, JUDGED_ROWS + RUN_ROWS + SUMMARY_ROWS)
  {
    hide AllMatch;
    var fixed := map["subjectKind" := kind];
    JudgedMatches(kind);
    RunMatches(kind);
    SummaryMatches(kind);
    MatchJoin(fixed, JUDGED, JUDGED_ROWS, RUN, RUN_ROWS);
    MatchJoin(fixed, JUDGED + RUN, JUDGED_ROWS + RUN_ROWS, SUMMARY, SUMMARY_ROWS);
  }

  lemma JudgedMatches(kind: Schema)
    requires kind == JUDGED_ROWS[0].schema
    ensures AllMatch(map["subjectKind" := kind], JUDGED, JUDGED_ROWS)
  {
  }

  lemma RunMatches(kind: Schema)
    ensures AllMatch(map["subjectKind" := kind], RUN, RUN_ROWS)
  {
  }

  lemma SummaryMatches(kind: Schema)
    ensures AllMatch(map["subjectKind" := kind], SUMMARY, SUMMARY_ROWS)
  {
  }

  lemma SmallCompiled(u: Unit)
    requires Declares(u, "Subject", SUBJECT, map[]) && Declares(u, "ServerIdentity", SERVER_IDENTITY, map[])
    requires Declares(u, "Basis", BASIS, map[]) && Declares(u, "Instrument", INSTRUMENT, map[])
    ensures DefinitionOf(u, "Subject") == Definition(SUBJECT_ROWS)
    ensures DefinitionOf(u, "ServerIdentity") == Definition(SERVER_IDENTITY_ROWS)
    ensures DefinitionOf(u, "Basis") == Definition(BASIS_ROWS)
    ensures DefinitionOf(u, "Instrument") == Definition(INSTRUMENT_ROWS)
  {
    hide Declares, DefinitionOf, Definition;
    StructYields(u, "Subject", SUBJECT, map[], SUBJECT_ROWS);
    StructYields(u, "ServerIdentity", SERVER_IDENTITY, map[], SERVER_IDENTITY_ROWS);
    StructYields(u, "Basis", BASIS, map[], BASIS_ROWS);
    StructYields(u, "Instrument", INSTRUMENT, map[], INSTRUMENT_ROWS);
  }

  lemma PlanCompiled(u: Unit)
    requires Declares(u, "Plan", PLAN, map[])
    ensures DefinitionOf(u, "Plan") == Definition(PLAN_ROWS)
  {
    hide Declares, DefinitionOf, Definition;
    StructYields(u, "Plan", PLAN, map[], PLAN_ROWS);
  }

  lemma CountsCompiled(u: Unit)
    requires Declares(u, "Counts", COUNTS, map[])
    ensures DefinitionOf(u, "Counts") == Definition(COUNTS_ROWS)
  {
    hide Declares, DefinitionOf, Definition;
    StructYields(u, "Counts", COUNTS, map[], COUNTS_ROWS);
  }

  lemma ScoreCompiled(u: Unit)
    requires Declares(u, "Score", SCORE, map[])
    ensures DefinitionOf(u, "Score") == Definition(SCORE_ROWS)
  {
    hide Declares, DefinitionOf, Definition;
    StructYields(u, "Score", SCORE, map[], SCORE_ROWS);
  }

  // ---------------------------------------------------------------- the whole file

  lemma FileRestrictions()
    ensures PUBLISHED.typ == STATEMENT_ROWS[0].schema && PUBLISHED.predicateType == STATEMENT_ROWS[2].schema
    ensures PUBLISHED.subjectKind == JUDGED_ROWS[0].schema
    ensures PUBLISHED.transport == TARGET_ROWS[0].schema && PUBLISHED.status == VERDICT_ROWS[2].schema
  {
  }

  lemma AttestationCompiled(u: Unit, r: Restrictions, defs: Defs)
    requires DeclaresAttestation(u, r)
    requires r.typ == STATEMENT_ROWS[0].schema && r.predicateType == STATEMENT_ROWS[2].schema
    requires r.subjectKind == JUDGED_ROWS[0].schema
    requires r.transport == TARGET_ROWS[0].schema && r.status == VERDICT_ROWS[2].schema
    requires defs.Keys == {"Statement", "Subject", "Evaluation", "Plan", "Target", "ServerIdentity",
                           "Basis", "Instrument", "Verdict", "Counts", "Score"}
    requires forall n <- defs :: n in u.env && defs[n] == DefinitionOf(u, n)
    ensures IsFile(defs)
  {
    hide Definition, DefinitionOf, Declares;
    StatementCompiled(u, r.typ, r.predicateType);
    EvaluationCompiled(u, r.subjectKind);
    TargetCompiled(u, r.transport);
    VerdictCompiled(u, r.status);
    SmallCompiled(u);
    PlanCompiled(u);
    CountsCompiled(u);
    ScoreCompiled(u);
  }

  /** The file is what the compiler generates from the attestation types. */
  lemma PublishedIsFile(d: Document)
    requires IsPublished(d)
    ensures IsFile(d.defs)
  {
    hide IsFile, DefinitionOf, Reaches;
    PublishedDefinitions(d);
    UnitDeclares();
    FileRestrictions();
    AttestationCompiled(UNIT, PUBLISHED, d.defs);
  }
}
