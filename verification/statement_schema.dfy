/** The published schema of the attestation: which statements it accepts, and how that compares
    with the verifier. */
module StatementSchema {
  import opened Text
  import opened Json
  import opened GoTypes
  import opened Specgen
  import opened CompilerCorrectness
  import opened Statements
  import opened Verifier

  // ---------------------------------------------------------------- the types, as declared

  /** A field that is always written, and one that is omitted when empty. */
  function Always(goName: string, tag: string, t: GoType): Field {
    Field(goName, true, tag, None, t)
  }

  function WhenSet(goName: string, tag: string, t: GoType): Field {
    Field(goName, true, tag, Some("omitempty"), t)
  }

  const STATEMENT := [
    Always("Type", "_type", GString), Always("Subject", "subject", GSlice(GStruct("Subject"))),
    Always("PredicateType", "predicateType", GString), Always("Predicate", "predicate", GStruct("Evaluation"))]

  const SUBJECT := [Always("Name", "name", GString), Always("Digest", "digest", GMap(GString))]

  // The evaluation's fields in declaration order, in three parts: what was judged, how the run
  // went, and what sums it up.
  const JUDGED := [
    Always("SubjectKind", "subjectKind", GString), Always("Target", "target", GStruct("Target")),
    Always("JudgedAgainst", "judgedAgainst", GStruct("Basis")),
    Always("Instrument", "instrument", GStruct("Instrument"))]

  const RUN := [
    Always("RanAt", "ranAt", GTime), Always("Took", "took", GString),
    Always("Verdicts", "verdicts", GSlice(GStruct("Verdict"))),
    Always("Counts", "counts", GStruct("Counts"))]

  const SUMMARY := [
    WhenSet("Score", "score", GPtr(GStruct("Score"))), WhenSet("Blocked", "blocked", GString),
    WhenSet("TraceID", "traceId", GString), WhenSet("Plan", "plan", GPtr(GStruct("Plan")))]

  const EVALUATION := JUDGED + RUN + SUMMARY

  const PLAN := [
    Always("Spec", "spec", GRaw), Always("Credentials", "credentials", GString),
    WhenSet("ByValue", "credentialsByValue", GSlice(GString)), Always("OS", "os", GString),
    Always("Arch", "arch", GString), WhenSet("Kernel", "kernel", GString)]

  const TARGET := [
    Always("Transport", "transport", GString), Always("Endpoint", "endpoint", GString),
    WhenSet("Server", "server", GPtr(GStruct("ServerIdentity")))]

  const SERVER_IDENTITY := [
    WhenSet("Name", "name", GString), WhenSet("Version", "version", GString),
    WhenSet("Protocol", "protocolVersion", GString)]

  const BASIS := [
    WhenSet("SpecRevision", "specRevision", GString), WhenSet("Rubric", "rubric", GString),
    WhenSet("CheckInventory", "checkInventory", GString)]

  const INSTRUMENT := [
    Always("Name", "name", GString), Always("Version", "version", GString),
    Always("SchemaVersion", "reportSchemaVersion", GInt)]

  const VERDICT := [
    Always("ID", "id", GString), Always("Phase", "phase", GString), Always("Status", "status", GString),
    WhenSet("Severity", "severity", GString), WhenSet("Evidence", "evidence", GSlice(GString)),
    WhenSet("Doc", "doc", GString)]

  const COUNTS := [
    Always("Pass", "pass", GInt), Always("Warn", "warn", GInt), Always("Fail", "fail", GInt),
    Always("Skip", "skip", GInt), Always("Info", "info", GInt)]

  const SCORE := [
    Always("Total", "total", GFloat), Always("Grade", "grade", GString),
    Always("Assessed", "categoriesAssessed", GInt), Always("Of", "categoriesTotal", GInt),
    WhenSet("By", "byCategory", GMap(GFloat))]

  const ENV: Env := map[
    "Statement" := STATEMENT, "Subject" := SUBJECT, "Evaluation" := EVALUATION, "Plan" := PLAN,
    "Target" := TARGET, "ServerIdentity" := SERVER_IDENTITY, "Basis" := BASIS,
    "Instrument" := INSTRUMENT, "Verdict" := VERDICT, "Counts" := COUNTS, "Score" := SCORE]

  /** The overrides: two URIs, the subject kind, and the two closed sets. */
  const TRANSPORTS := ["http", "stdio"]
  const STATUSES := ["pass", "warn", "fail", "skip", "info"]

  const FIXED_STATEMENT := map[
    "_type" := Schema(constant := Some(STATEMENT_TYPE)),
    "predicateType" := Schema(constant := Some(PREDICATE_TYPE))]
  const FIXED_EVALUATION := map["subjectKind" := Schema(constant := Some(SUBJECT_KIND_DESCRIPTOR))]
  const FIXED_TARGET := map["transport" := Schema(typ := Some(TString), enumeration := Some(TRANSPORTS))]
  const FIXED_VERDICT := map["status" := Schema(typ := Some(TString), enumeration := Some(STATUSES))]

  const FIXED: Overrides := map[
    "Statement" := FIXED_STATEMENT, "Evaluation" := FIXED_EVALUATION, "Target" := FIXED_TARGET,
    "Verdict" := FIXED_VERDICT]

  const UNIT := Unit(ENV, FIXED)

  // Lookup facts, established once: a struct name finds its own declaration and overrides.

  lemma NamesDiffer()
    ensures "Subject" != "Verdict" && "Target" != "Counts" && "Evaluation" != "Instrument" && "Basis" != "Score"
  {
    assert "Subject"[0] != "Verdict"[0] && "Target"[0] != "Counts"[0];
    assert "Evaluation"[0] != "Instrument"[0] && "Basis"[0] != "Score"[0];
  }

  lemma Declarations()
    ensures ENV.Keys == {"Statement", "Subject", "Evaluation", "Plan", "Target", "ServerIdentity",
                         "Basis", "Instrument", "Verdict", "Counts", "Score"}
    ensures ENV["Statement"] == STATEMENT && ENV["Subject"] == SUBJECT && ENV["Evaluation"] == EVALUATION
    ensures ENV["Plan"] == PLAN && ENV["Target"] == TARGET && ENV["ServerIdentity"] == SERVER_IDENTITY
    ensures ENV["Basis"] == BASIS && ENV["Instrument"] == INSTRUMENT && ENV["Verdict"] == VERDICT
    ensures ENV["Counts"] == COUNTS && ENV["Score"] == SCORE
  {
    NamesDiffer();
  }

  lemma Overriding()
    ensures FIXED.Keys == {"Statement", "Evaluation", "Target", "Verdict"}
    ensures FIXED["Statement"] == FIXED_STATEMENT && FIXED["Evaluation"] == FIXED_EVALUATION
    ensures FIXED["Target"] == FIXED_TARGET && FIXED["Verdict"] == FIXED_VERDICT
    ensures "Subject" !in FIXED && "Plan" !in FIXED && "ServerIdentity" !in FIXED && "Basis" !in FIXED
    ensures "Instrument" !in FIXED && "Counts" !in FIXED && "Score" !in FIXED
  {
    NamesDiffer();
  }

  /** The lengths and first letters of the names. */
  ghost predicate Told(fields: seq<Field>, lengths: seq<nat>, firsts: string) {
    && |fields| == |lengths| == |firsts|
    && forall i :: 0 <= i < |fields| ==>
         var name := JsonName(fields[i]); |name| == lengths[i] > 0 && name[0] == firsts[i]
  }

  /** Names that differ pairwise in length or first letter are distinct. */
  lemma TellingIsUnique(fields: seq<Field>, lengths: seq<nat>, firsts: string)
    requires Told(fields, lengths, firsts)
    requires forall i, j :: 0 <= i < j < |fields| ==> lengths[i] != lengths[j] || firsts[i] != firsts[j]
    ensures UniqueNames(fields)
  {
  }

  lemma OuterUnique()
    ensures UniqueNames(STATEMENT) && UniqueNames(SUBJECT)
  {
    TellingIsUnique(STATEMENT, [5, 7, 13, 9], "_spp");
    TellingIsUnique(SUBJECT, [4, 6], "nd");
  }

  lemma TargetUnique()
    ensures UniqueNames(TARGET) && UniqueNames(SERVER_IDENTITY)
  {
    TellingIsUnique(TARGET, [9, 8, 6], "tes");
    TellingIsUnique(SERVER_IDENTITY, [4, 7, 15], "nvp");
  }

  lemma RunUnique()
    ensures UniqueNames(BASIS) && UniqueNames(INSTRUMENT)
  {
    TellingIsUnique(BASIS, [12, 6, 14], "src");
    TellingIsUnique(INSTRUMENT, [4, 7, 19], "nvr");
  }

  lemma PlanUnique()
    ensures UniqueNames(PLAN)
  {
    TellingIsUnique(PLAN, [4, 11, 18, 2, 4, 6], "sccoak");
  }

  lemma VerdictUnique()
    ensures UniqueNames(VERDICT)
  {
    TellingIsUnique(VERDICT, [2, 5, 6, 8, 8, 3], "ipssed");
  }

  lemma CountsUnique()
    ensures UniqueNames(COUNTS)
  {
    TellingIsUnique(COUNTS, [4, 4, 4, 4, 4], "pwfsi");
  }

  lemma ScoreUnique()
    ensures UniqueNames(SCORE)
  {
    TellingIsUnique(SCORE, [5, 5, 18, 15, 10], "tgccb");
  }

  lemma ToldJoin(f: seq<Field>, lf: seq<nat>, sf: string, g: seq<Field>, lg: seq<nat>, sg: string)
    requires Told(f, lf, sf) && Told(g, lg, sg)
    ensures Told(f + g, lf + lg, sf + sg)
  {
  }

  lemma EvaluationTold()
    ensures Told(JUDGED, [11, 6, 13, 10], "stji") && Told(RUN, [5, 4, 8, 6], "rtvc")
    ensures Told(SUMMARY, [5, 7, 7, 4], "sbtp")
  {
  }

  lemma EvaluationAllTold()
    ensures Told(EVALUATION, [11, 6, 13, 10, 5, 4, 8, 6, 5, 7, 7, 4], "stjirtvcsbtp")
  {
    EvaluationTold();
    ToldJoin(JUDGED, [11, 6, 13, 10], "stji", RUN, [5, 4, 8, 6], "rtvc");
    ToldJoin(JUDGED + RUN, [11, 6, 13, 10] + [5, 4, 8, 6], "stji" + "rtvc", SUMMARY, [5, 7, 7, 4], "sbtp");
    assert [11, 6, 13, 10] + [5, 4, 8, 6] + [5, 7, 7, 4] == [11, 6, 13, 10, 5, 4, 8, 6, 5, 7, 7, 4];
    assert "stji" + "rtvc" + "sbtp" == "stjirtvcsbtp";
  }

  lemma EvaluationTellsApart(lengths: seq<nat>, firsts: string)
    requires lengths == [11, 6, 13, 10, 5, 4, 8, 6, 5, 7, 7, 4] && firsts == "stjirtvcsbtp"
    ensures forall i, j :: 0 <= i < j < 12 ==> lengths[i] != lengths[j] || firsts[i] != firsts[j]
  {
  }

  lemma EvaluationUnique()
    ensures UniqueNames(EVALUATION)
  {
    EvaluationAllTold();
    var lengths := [11, 6, 13, 10, 5, 4, 8, 6, 5, 7, 7, 4];
    EvaluationTellsApart(lengths, "stjirtvcsbtp");
    TellingIsUnique(EVALUATION, lengths, "stjirtvcsbtp");
  }

  lemma AllUnique()
    ensures forall n <- ENV :: UniqueNames(ENV[n])
  {
    Declarations();
    OuterUnique();
    TargetUnique();
    RunUnique();
    PlanUnique();
    VerdictUnique();
    CountsUnique();
    ScoreUnique();
    EvaluationUnique();
  }

  ghost predicate AllDeclared(fields: seq<Field>) {
    forall i :: 0 <= i < |fields| ==> Declared(ENV, fields[i].typ)
  }

  lemma EvaluationDeclared()
    ensures AllDeclared(EVALUATION)
  {
    Declarations();
  }

  lemma NestedDeclared()
    ensures AllDeclared(STATEMENT) && AllDeclared(TARGET)
  {
    Declarations();
  }

  /** No field mentions a struct. */
  ghost predicate Plain(fields: seq<Field>) {
    forall i :: 0 <= i < |fields| ==> StructOf(fields[i].typ) == None
  }

  lemma PlainStructs()
    ensures Plain(SUBJECT) && Plain(PLAN) && Plain(SERVER_IDENTITY) && Plain(BASIS)
    ensures Plain(INSTRUMENT) && Plain(VERDICT) && Plain(COUNTS) && Plain(SCORE)
  {
  }

  lemma EnvClosed()
    ensures Closed(ENV)
  {
    Declarations();
    EvaluationDeclared();
    NestedDeclared();
    PlainStructs();
    forall n <- ENV ensures AllDeclared(ENV[n]) {
    }
    forall n <- ENV, f <- ENV[n] ensures Declared(ENV, f.typ) {
      var i :| 0 <= i < |ENV[n]| && ENV[n][i] == f;
    }
  }

  lemma OverridesFixed()
    ensures forall n <- FIXED, k <- FIXED[n] :: IsFixed(FIXED[n][k])
  {
    Overriding();
  }

  lemma UnitWellFormed()
    ensures WellFormed(UNIT)
  {
    AllUnique();
    EnvClosed();
    OverridesFixed();
  }

  // ---------------------------------------------------------------- a statement as a value

  /** Which of a statement's empty lists and maps are nil: the subjects, the verdicts, and the
      digests of the subjects at these indexes. The others are omitted when empty, nil or not. */
  datatype Nils = Nils(subject: bool, verdicts: bool, digests: set<nat>)

  function Strings(texts: seq<string>): GoValue {
    VList(seq(|texts|, i requires 0 <= i < |texts| => VString(texts[i])))
  }

  function DigestValue(digest: map<string, string>, isNil: bool): GoValue {
    if isNil && digest == map[] then VNil else VMap(map k | k in digest :: VString(digest[k]))
  }

  function SubjectValue(s: Subject, isNil: bool): GoValue {
    VStruct([VString(s.name), DigestValue(s.digest, isNil)])
  }

  function ServerValue(s: Option<ServerIdentity>): GoValue {
    match s
    case None => VNil
    case Some(id) => VPtr(VStruct([VString(id.name), VString(id.version), VString(id.protocol)]))
  }

  function TargetValue(t: Target): GoValue {
    VStruct([VString(t.transport), VString(t.endpoint), ServerValue(t.server)])
  }

  function BasisValue(b: Basis): GoValue {
    VStruct([VString(b.specRevision), VString(b.rubric), VString(b.checkInventory)])
  }

  function InstrumentValue(i: Instrument): GoValue {
    VStruct([VString(i.name), VString(i.version), VInt(i.schemaVersion)])
  }

  function VerdictValue(v: Verdict): GoValue {
    VStruct([VString(v.id), VString(v.phase), VString(v.status), VString(v.severity),
             Strings(v.evidence), VString(v.doc)])
  }

  function CountsValue(c: Counts): GoValue {
    VStruct([VInt(c.pass), VInt(c.warn), VInt(c.fail), VInt(c.skip), VInt(c.info)])
  }

  function ScoreValue(s: Option<Score>): GoValue {
    match s
    case None => VNil
    case Some(x) =>
      VPtr(VStruct([VFloat(x.total), VString(x.grade), VInt(x.assessed), VInt(x.of),
                    VMap(map k | k in x.byCategory :: VFloat(x.byCategory[k]))]))
  }

  function PlanValue(p: Option<Plan>): GoValue {
    match p
    case None => VNil
    case Some(x) =>
      VPtr(VStruct([VRaw(x.spec), VString(x.credentials), Strings(x.byValue), VString(x.os),
                    VString(x.arch), VString(x.kernel)]))
  }

  function JudgedValues(e: Evaluation): seq<GoValue> {
    [VString(e.subjectKind), TargetValue(e.target), BasisValue(e.judgedAgainst), InstrumentValue(e.instrument)]
  }

  function VerdictsValue(verdicts: seq<Verdict>, isNil: bool): GoValue {
    if isNil && verdicts == [] then VNil
    else VList(seq(|verdicts|, i requires 0 <= i < |verdicts| => VerdictValue(verdicts[i])))
  }

  function RunValues(e: Evaluation, nils: Nils): seq<GoValue> {
    [VTime(e.ranAt.text), VString(e.took), VerdictsValue(e.verdicts, nils.verdicts), CountsValue(e.counts)]
  }

  function SummaryValues(e: Evaluation): seq<GoValue> {
    [ScoreValue(e.score), VString(e.blocked), VString(e.traceId), PlanValue(e.plan)]
  }

  function EvaluationValue(e: Evaluation, nils: Nils): GoValue {
    VStruct(JudgedValues(e) + RunValues(e, nils) + SummaryValues(e))
  }

  function SubjectsValue(subjects: seq<Subject>, nils: Nils): GoValue {
    if nils.subject && subjects == [] then VNil
    else VList(seq(|subjects|, i requires 0 <= i < |subjects| => SubjectValue(subjects[i], i in nils.digests)))
  }

  function StatementValue(s: Statement, nils: Nils): GoValue {
    VStruct([VString(s.typ), SubjectsValue(s.subject, nils), VString(s.predicateType),
             EvaluationValue(s.evaluation, nils)])
  }

  /** No list or map that is always written is nil. */
  predicate SubjectsWritten(subjects: seq<Subject>, nils: Nils) {
    && (nils.subject ==> subjects != [])
    && (forall i: nat | i < |subjects| && i in nils.digests :: subjects[i].digest != map[])
  }

  predicate VerdictsWritten(verdicts: seq<Verdict>, nils: Nils) {
    nils.verdicts ==> verdicts != []
  }

  predicate NothingNil(s: Statement, nils: Nils) {
    SubjectsWritten(s.subject, nils) && VerdictsWritten(s.evaluation.verdicts, nils)
  }

  // ---------------------------------------------------------------- which values are clean

  /** The overrides of the struct are these. */
  predicate HasOverrides(u: Unit, name: string, fixed: map<string, Schema>) {
    (if name in u.fixed then u.fixed[name] else map[]) == fixed
  }

  /** The unit declares the struct with these fields and these overrides. */
  predicate Declares(u: Unit, name: string, fields: seq<Field>, fixed: map<string, Schema>) {
    name in u.env && u.env[name] == fields && HasOverrides(u, name, fixed)
  }

  /** The value has the struct type, and the schema accepts it exactly when `condition` holds. */
  ghost predicate CleanWhen(u: Unit, name: string, v: GoValue, condition: bool) {
    HasType(u.env, GStruct(name), v) && (Clean(u, GStruct(name), v) <==> condition)
  }

  /** The field's value has its type and is clean exactly when `condition` holds. */
  ghost predicate FieldWhen(u: Unit, name: string, f: Field, v: GoValue, condition: bool) {
    HasType(u.env, f.typ, v) && (CleanField(u, name, f, v) <==> condition)
  }

  /** The values have the types of the fields and are all clean exactly when `condition` holds. */
  ghost predicate FieldsWhen(u: Unit, name: string, fields: seq<Field>, vals: seq<GoValue>, condition: bool) {
    && FieldsHaveType(u.env, fields, vals)
    && ((forall i :: 0 <= i < |vals| ==> CleanField(u, name, fields[i], vals[i])) <==> condition)
  }

  lemma FieldsFrom(u: Unit, name: string, fields: seq<Field>, vals: seq<GoValue>, conditions: seq<bool>)
    requires |fields| == |vals| == |conditions|
    requires forall i :: 0 <= i < |vals| ==> FieldWhen(u, name, fields[i], vals[i], conditions[i])
    ensures FieldsWhen(u, name, fields, vals, forall i :: 0 <= i < |conditions| ==> conditions[i])
  {
    assert FieldsHaveType(u.env, fields, vals);
  }

  lemma FourFields(u: Unit, name: string, f: seq<Field>, v: seq<GoValue>, a: bool, b: bool, c: bool, d: bool)
    requires |f| == |v| == 4
    requires FieldWhen(u, name, f[0], v[0], a) && FieldWhen(u, name, f[1], v[1], b)
    requires FieldWhen(u, name, f[2], v[2], c) && FieldWhen(u, name, f[3], v[3], d)
    ensures FieldsWhen(u, name, f, v, a && b && c && d)
  {
    FieldsFrom(u, name, f, v, [a, b, c, d]);
    assert (forall i :: 0 <= i < 4 ==> [a, b, c, d][i]) <==> a && b && c && d by {
      assert [a, b, c, d][0] == a && [a, b, c, d][1] == b && [a, b, c, d][2] == c && [a, b, c, d][3] == d;
    }
  }

  lemma FieldsJoin(u: Unit, name: string, f: seq<Field>, v: seq<GoValue>, c: bool,
                   g: seq<Field>, w: seq<GoValue>, d: bool)
    requires FieldsWhen(u, name, f, v, c) && FieldsWhen(u, name, g, w, d)
    ensures FieldsWhen(u, name, f + g, v + w, c && d)
  {
    assert FieldsHaveType(u.env, f + g, v + w);
    if forall i :: 0 <= i < |v + w| ==> CleanField(u, name, (f + g)[i], (v + w)[i]) {
      forall i | 0 <= i < |v| ensures CleanField(u, name, f[i], v[i]) {
        assert CleanField(u, name, (f + g)[i], (v + w)[i]);
      }
      forall i | 0 <= i < |w| ensures CleanField(u, name, g[i], w[i]) {
        assert CleanField(u, name, (f + g)[|f| + i], (v + w)[|f| + i]);
      }
    }
  }

  /** A struct is as clean as its fields. */
  lemma StructFrom(u: Unit, name: string, fields: seq<Field>, fixed: map<string, Schema>,
                   vals: seq<GoValue>, condition: bool)
    requires Declares(u, name, fields, fixed) && FieldsWhen(u, name, fields, vals, condition)
    ensures CleanWhen(u, name, VStruct(vals), condition)
  {
    assert Clean(u, GStruct(name), VStruct(vals)) <==> CleanFields(u, name, vals);
  }

  lemma StructWhen(u: Unit, name: string, fields: seq<Field>, fixed: map<string, Schema>,
                   vals: seq<GoValue>, conditions: seq<bool>)
    requires Declares(u, name, fields, fixed)
    requires |fields| == |vals| == |conditions|
    requires forall i :: 0 <= i < |vals| ==> FieldWhen(u, name, fields[i], vals[i], conditions[i])
    ensures CleanWhen(u, name, VStruct(vals), forall i :: 0 <= i < |conditions| ==> conditions[i])
  {
    FieldsFrom(u, name, fields, vals, conditions);
    StructFrom(u, name, fields, fixed, vals, forall i :: 0 <= i < |conditions| ==> conditions[i]);
  }

  /** A field without an override whose value is clean in itself. */
  lemma CleanValue(u: Unit, name: string, f: Field, v: GoValue)
    requires HasType(u.env, f.typ, v) && Clean(u, f.typ, v) && !Overridden(u, name, f)
    ensures FieldWhen(u, name, f, v, true)
  {
  }

  predicate Scalar(t: GoType, v: GoValue) {
    (t.GString? && v.VString?) || (t.GInt? && v.VInt?) || (t.GFloat? && v.VFloat?) || (t.GTime? && v.VTime?)
  }

  lemma ScalarValue(u: Unit, name: string, f: Field, v: GoValue)
    requires Scalar(f.typ, v) && !Overridden(u, name, f)
    ensures FieldWhen(u, name, f, v, true)
  {
  }

  /** A field that is always written, with a condition on its value. */
  lemma WrittenValue(u: Unit, name: string, f: Field, v: GoValue, condition: bool)
    requires f.exported && f.tagOpts.None? && f.tagName != "-" && !Overridden(u, name, f)
    requires HasType(u.env, f.typ, v) && (Clean(u, f.typ, v) <==> condition)
    ensures FieldWhen(u, name, f, v, condition)
  {
    AlwaysEmitted(f, v);
  }

  /** An overridden text field that is always written. */
  lemma OverriddenValue(u: Unit, name: string, fixed: map<string, Schema>, f: Field, text: string)
    requires f.exported && f.tagOpts.None? && f.tagName != "-" && f.typ == GString
    requires HasOverrides(u, name, fixed) && JsonName(f) in fixed
    ensures FieldWhen(u, name, f, VString(text), Allows(fixed[JsonName(f)], text))
  {
    AlwaysEmitted(f, VString(text));
  }

  /** A struct field that is always written is as clean as the struct. */
  lemma NestedStruct(u: Unit, name: string, f: Field, target: string, v: GoValue, condition: bool)
    requires f.exported && f.tagOpts.None? && f.tagName != "-" && !Overridden(u, name, f)
    requires f.typ == GStruct(target) && CleanWhen(u, target, v, condition)
    ensures FieldWhen(u, name, f, v, condition)
  {
    AlwaysEmitted(f, v);
  }

  /** An optional pointer to a struct: left out when nil, otherwise as clean as what it points to. */
  lemma OptionalStruct(u: Unit, name: string, f: Field, target: string, v: GoValue, condition: bool)
    requires f.exported && f.tagOpts == Some("omitempty") && f.tagName != "-" && !Overridden(u, name, f)
    requires f.typ == GPtr(GStruct(target))
    requires OptionalWhen(u, target, v, condition)
    ensures FieldWhen(u, name, f, v, v.VNil? || condition)
  {
    if v.VNil? {
      OmittedWhenEmpty(f, v);
    } else {
      assert !IsEmpty(v);
      assert Clean(u, f.typ, v) <==> Clean(u, GStruct(target), v.to);
    }
  }

  /** A field without options is written whatever its value. */
  lemma AlwaysEmitted(f: Field, v: GoValue)
    requires f.exported && f.tagOpts.None? && f.tagName != "-"
    ensures Emitted(f, v)
  {
    assert |Options(f)| == 0;
    assert !HasOption("", "omitempty");
  }

  /** An optional field is left out when it is empty. */
  lemma OmittedWhenEmpty(f: Field, v: GoValue)
    requires f.tagOpts == Some("omitempty") && IsEmpty(v)
    ensures !Emitted(f, v)
  {
    assert OccursAt("omitempty", "omitempty", 0);
    assert HasOption("omitempty", "omitempty");
  }

  /** A struct of scalars without overrides is always clean. */
  lemma ScalarsClean(u: Unit, name: string, fields: seq<Field>, vals: seq<GoValue>)
    requires Declares(u, name, fields, map[]) && |fields| == |vals|
    requires forall i :: 0 <= i < |vals| ==> Scalar(fields[i].typ, vals[i])
    ensures CleanWhen(u, name, VStruct(vals), true)
  {
    forall i | 0 <= i < |vals| ensures FieldWhen(u, name, fields[i], vals[i], true) {
      ScalarValue(u, name, fields[i], vals[i]);
    }
    StructWhen(u, name, fields, map[], vals, seq(|vals|, _ => true));
  }

  lemma BasisClean(u: Unit, b: Basis)
    requires Declares(u, "Basis", BASIS, map[])
    ensures CleanWhen(u, "Basis", BasisValue(b), true)
  {
    ScalarsClean(u, "Basis", BASIS, BasisValue(b).fields);
  }

  lemma InstrumentClean(u: Unit, i: Instrument)
    requires Declares(u, "Instrument", INSTRUMENT, map[])
    ensures CleanWhen(u, "Instrument", InstrumentValue(i), true)
  {
    ScalarsClean(u, "Instrument", INSTRUMENT, InstrumentValue(i).fields);
  }

  lemma CountsClean(u: Unit, c: Counts)
    requires Declares(u, "Counts", COUNTS, map[])
    ensures CleanWhen(u, "Counts", CountsValue(c), true)
  {
    ScalarsClean(u, "Counts", COUNTS, CountsValue(c).fields);
  }

  lemma StringsClean(u: Unit, texts: seq<string>)
    ensures HasType(u.env, GSlice(GString), Strings(texts)) && Clean(u, GSlice(GString), Strings(texts))
  {
  }

  lemma MapClean(u: Unit, elem: GoType, entries: map<string, GoValue>)
    requires forall k <- entries :: Scalar(elem, entries[k])
    ensures HasType(u.env, GMap(elem), VMap(entries)) && Clean(u, GMap(elem), VMap(entries))
  {
  }

  lemma SubjectClean(u: Unit, s: Subject, isNil: bool)
    requires Declares(u, "Subject", SUBJECT, map[])
    ensures CleanWhen(u, "Subject", SubjectValue(s, isNil), isNil ==> s.digest != map[])
  {
    var vals := SubjectValue(s, isNil).fields;
    if vals[1].VMap? {
      MapClean(u, GString, vals[1].entries);
    }
    ScalarValue(u, "Subject", SUBJECT[0], vals[0]);
    WrittenValue(u, "Subject", SUBJECT[1], vals[1], isNil ==> s.digest != map[]);
    StructWhen(u, "Subject", SUBJECT, map[], vals, [true, isNil ==> s.digest != map[]]);
  }

  lemma ScoreClean(u: Unit, s: Score)
    requires Declares(u, "Score", SCORE, map[])
    ensures CleanWhen(u, "Score", ScoreValue(Some(s)).to, true)
  {
    var vals := ScoreValue(Some(s)).to.fields;
    MapClean(u, GFloat, vals[4].entries);
    forall i | 0 <= i < 4 ensures FieldWhen(u, "Score", SCORE[i], vals[i], true) {
      ScalarValue(u, "Score", SCORE[i], vals[i]);
    }
    CleanValue(u, "Score", SCORE[4], vals[4]);
    StructWhen(u, "Score", SCORE, map[], vals, [true, true, true, true, true]);
  }

  lemma PlanClean(u: Unit, p: Plan)
    requires Declares(u, "Plan", PLAN, map[])
    ensures CleanWhen(u, "Plan", PlanValue(Some(p)).to, IsIntegerArray(p.spec))
  {
    hide FieldWhen, CleanField, Emitted, HasType;
    var vals := PlanValue(Some(p)).to.fields;
    StringsClean(u, p.byValue);
    WrittenValue(u, "Plan", PLAN[0], vals[0], IsIntegerArray(p.spec));
    ScalarValue(u, "Plan", PLAN[1], vals[1]);
    CleanValue(u, "Plan", PLAN[2], vals[2]);
    ScalarValue(u, "Plan", PLAN[3], vals[3]);
    ScalarValue(u, "Plan", PLAN[4], vals[4]);
    ScalarValue(u, "Plan", PLAN[5], vals[5]);
    StructWhen(u, "Plan", PLAN, map[], vals, [IsIntegerArray(p.spec), true, true, true, true, true]);
  }

  lemma ServerClean(u: Unit, name: string, f: Field, server: Option<ServerIdentity>)
    requires Declares(u, "ServerIdentity", SERVER_IDENTITY, map[])
    requires f == TARGET[2] && !Overridden(u, name, f)
    ensures FieldWhen(u, name, f, ServerValue(server), true)
  {
    if server.Some? {
      ScalarsClean(u, "ServerIdentity", SERVER_IDENTITY, ServerValue(server).to.fields);
    }
    OptionalStruct(u, name, f, "ServerIdentity", ServerValue(server), true);
  }

  lemma TargetClean(u: Unit, t: Target, transports: Schema)
    requires Declares(u, "Target", TARGET, map["transport" := transports])
    requires Declares(u, "ServerIdentity", SERVER_IDENTITY, map[])
    ensures CleanWhen(u, "Target", TargetValue(t), Allows(transports, t.transport))
  {
    hide FieldWhen, CleanField, Emitted, HasType;
    var vals := TargetValue(t).fields;
    OverriddenValue(u, "Target", map["transport" := transports], TARGET[0], t.transport);
    ScalarValue(u, "Target", TARGET[1], vals[1]);
    ServerClean(u, "Target", TARGET[2], t.server);
    StructWhen(u, "Target", TARGET, map["transport" := transports], vals,
               [Allows(transports, t.transport), true, true]);
  }

  lemma VerdictClean(u: Unit, v: Verdict, statuses: Schema)
    requires Declares(u, "Verdict", VERDICT, map["status" := statuses])
    ensures CleanWhen(u, "Verdict", VerdictValue(v), Allows(statuses, v.status))
  {
    hide FieldWhen, CleanField, Emitted, HasType;
    var vals := VerdictValue(v).fields;
    StringsClean(u, v.evidence);
    ScalarValue(u, "Verdict", VERDICT[0], vals[0]);
    ScalarValue(u, "Verdict", VERDICT[1], vals[1]);
    OverriddenValue(u, "Verdict", map["status" := statuses], VERDICT[2], v.status);
    ScalarValue(u, "Verdict", VERDICT[3], vals[3]);
    CleanValue(u, "Verdict", VERDICT[4], vals[4]);
    ScalarValue(u, "Verdict", VERDICT[5], vals[5]);
    StructWhen(u, "Verdict", VERDICT, map["status" := statuses], vals,
               [true, true, Allows(statuses, v.status), true, true, true]);
  }

  /** The overridden schemas of a unit, by what they restrict. */
  datatype Restrictions = Restrictions(
    typ: Schema, predicateType: Schema, subjectKind: Schema, transport: Schema, status: Schema)

  /** The unit declares the attestation types, with restrictions on the five overridden fields. */
  ghost predicate DeclaresAttestation(u: Unit, r: Restrictions) {
    && Declares(u, "Statement", STATEMENT, map["_type" := r.typ, "predicateType" := r.predicateType])
    && Declares(u, "Evaluation", EVALUATION, map["subjectKind" := r.subjectKind])
    && Declares(u, "Target", TARGET, map["transport" := r.transport])
    && Declares(u, "Verdict", VERDICT, map["status" := r.status])
    && Declares(u, "Subject", SUBJECT, map[]) && Declares(u, "Plan", PLAN, map[])
    && Declares(u, "ServerIdentity", SERVER_IDENTITY, map[]) && Declares(u, "Basis", BASIS, map[])
    && Declares(u, "Instrument", INSTRUMENT, map[]) && Declares(u, "Counts", COUNTS, map[])
    && Declares(u, "Score", SCORE, map[])
  }

  predicate StatusesAllowed(verdicts: seq<Verdict>, statuses: Schema) {
    forall i :: 0 <= i < |verdicts| ==> Allows(statuses, verdicts[i].status)
  }

  predicate PlanAllowed(p: Option<Plan>) {
    p.None? || IsIntegerArray(p.value.spec)
  }

  lemma VerdictsClean(u: Unit, verdicts: seq<Verdict>, nils: Nils, statuses: Schema)
    requires Declares(u, "Verdict", VERDICT, map["status" := statuses])
    ensures HasType(u.env, GSlice(GStruct("Verdict")), VerdictsValue(verdicts, nils.verdicts))
    ensures Clean(u, GSlice(GStruct("Verdict")), VerdictsValue(verdicts, nils.verdicts)) <==>
            VerdictsWritten(verdicts, nils) && StatusesAllowed(verdicts, statuses)
  {
    var v := VerdictsValue(verdicts, nils.verdicts);
    forall i | 0 <= i < |verdicts|
      ensures CleanWhen(u, "Verdict", v.elems[i], Allows(statuses, verdicts[i].status))
    {
      VerdictClean(u, verdicts[i], statuses);
    }
  }

  lemma SubjectsClean(u: Unit, subjects: seq<Subject>, nils: Nils)
    requires Declares(u, "Subject", SUBJECT, map[])
    ensures HasType(u.env, GSlice(GStruct("Subject")), SubjectsValue(subjects, nils))
    ensures Clean(u, GSlice(GStruct("Subject")), SubjectsValue(subjects, nils)) <==> SubjectsWritten(subjects, nils)
  {
    var v := SubjectsValue(subjects, nils);
    forall i: nat | i < |subjects|
      ensures CleanWhen(u, "Subject", v.elems[i], i in nils.digests ==> subjects[i].digest != map[])
    {
      SubjectClean(u, subjects[i], i in nils.digests);
    }
  }

  // Each part of the evaluation, given what its structs amount to.

  lemma JudgedClean(u: Unit, kind: string, kinds: Schema, target: GoValue, targetOk: bool,
                    basis: GoValue, instrument: GoValue)
    requires HasOverrides(u, "Evaluation", map["subjectKind" := kinds])
    requires CleanWhen(u, "Target", target, targetOk)
    requires CleanWhen(u, "Basis", basis, true) && CleanWhen(u, "Instrument", instrument, true)
    ensures FieldsWhen(u, "Evaluation", JUDGED, [VString(kind), target, basis, instrument],
                       Allows(kinds, kind) && targetOk)
  {
    hide FieldWhen, CleanField, Emitted, HasType;
    OverriddenValue(u, "Evaluation", map["subjectKind" := kinds], JUDGED[0], kind);
    NestedStruct(u, "Evaluation", JUDGED[1], "Target", target, targetOk);
    NestedStruct(u, "Evaluation", JUDGED[2], "Basis", basis, true);
    NestedStruct(u, "Evaluation", JUDGED[3], "Instrument", instrument, true);
    FourFields(u, "Evaluation", JUDGED, [VString(kind), target, basis, instrument],
               Allows(kinds, kind), targetOk, true, true);
  }

  lemma RunClean(u: Unit, kinds: Schema, ranAt: string, took: string, verdicts: GoValue, verdictsOk: bool,
                 counts: GoValue)
    requires HasOverrides(u, "Evaluation", map["subjectKind" := kinds])
    requires HasType(u.env, GSlice(GStruct("Verdict")), verdicts)
    requires Clean(u, GSlice(GStruct("Verdict")), verdicts) <==> verdictsOk
    requires CleanWhen(u, "Counts", counts, true)
    ensures FieldsWhen(u, "Evaluation", RUN, [VTime(ranAt), VString(took), verdicts, counts], verdictsOk)
  {
    hide FieldWhen, CleanField, Emitted, HasType;
    ScalarValue(u, "Evaluation", RUN[0], VTime(ranAt));
    ScalarValue(u, "Evaluation", RUN[1], VString(took));
    WrittenValue(u, "Evaluation", RUN[2], verdicts, verdictsOk);
    NestedStruct(u, "Evaluation", RUN[3], "Counts", counts, true);
    FourFields(u, "Evaluation", RUN, [VTime(ranAt), VString(took), verdicts, counts], true, true, verdictsOk, true);
  }

  /** A nil pointer, or a pointer to a struct that is clean when `condition` holds. */
  ghost predicate OptionalWhen(u: Unit, name: string, v: GoValue, condition: bool) {
    v.VNil? || (v.VPtr? && v.to.VStruct? && CleanWhen(u, name, v.to, condition))
  }

  lemma SummaryClean(u: Unit, kinds: Schema, score: GoValue, blocked: string, traceId: string,
                     plan: GoValue, planOk: bool)
    requires HasOverrides(u, "Evaluation", map["subjectKind" := kinds])
    requires OptionalWhen(u, "Score", score, true) && OptionalWhen(u, "Plan", plan, planOk)
    ensures FieldsWhen(u, "Evaluation", SUMMARY, [score, VString(blocked), VString(traceId), plan],
                       plan.VNil? || planOk)
  {
    OptionalStruct(u, "Evaluation", SUMMARY[0], "Score", score, true);
    ScalarValue(u, "Evaluation", SUMMARY[1], VString(blocked));
    ScalarValue(u, "Evaluation", SUMMARY[2], VString(traceId));
    OptionalStruct(u, "Evaluation", SUMMARY[3], "Plan", plan, planOk);
    FourFields(u, "Evaluation", SUMMARY, [score, VString(blocked), VString(traceId), plan],
               true, true, true, plan.VNil? || planOk);
  }

  predicate EvaluationAllowed(e: Evaluation, nils: Nils, r: Restrictions) {
    && Allows(r.subjectKind, e.subjectKind) && Allows(r.transport, e.target.transport)
    && VerdictsWritten(e.verdicts, nils) && StatusesAllowed(e.verdicts, r.status) && PlanAllowed(e.plan)
  }

  lemma JudgedPart(u: Unit, e: Evaluation, r: Restrictions)
    requires DeclaresAttestation(u, r)
    ensures FieldsWhen(u, "Evaluation", JUDGED, JudgedValues(e),
                       Allows(r.subjectKind, e.subjectKind) && Allows(r.transport, e.target.transport))
  {
    TargetClean(u, e.target, r.transport);
    BasisClean(u, e.judgedAgainst);
    InstrumentClean(u, e.instrument);
    JudgedClean(u, e.subjectKind, r.subjectKind, TargetValue(e.target), Allows(r.transport, e.target.transport),
                BasisValue(e.judgedAgainst), InstrumentValue(e.instrument));
  }

  lemma RunPart(u: Unit, e: Evaluation, nils: Nils, r: Restrictions)
    requires DeclaresAttestation(u, r)
    ensures FieldsWhen(u, "Evaluation", RUN, RunValues(e, nils),
                       VerdictsWritten(e.verdicts, nils) && StatusesAllowed(e.verdicts, r.status))
  {
    VerdictsClean(u, e.verdicts, nils, r.status);
    CountsClean(u, e.counts);
    RunClean(u, r.subjectKind, e.ranAt.text, e.took, VerdictsValue(e.verdicts, nils.verdicts),
             VerdictsWritten(e.verdicts, nils) && StatusesAllowed(e.verdicts, r.status), CountsValue(e.counts));
  }

  lemma SummaryPart(u: Unit, e: Evaluation, r: Restrictions)
    requires DeclaresAttestation(u, r)
    ensures FieldsWhen(u, "Evaluation", SUMMARY, SummaryValues(e), PlanAllowed(e.plan))
  {
    if e.score.Some? {
      ScoreClean(u, e.score.value);
    }
    if e.plan.Some? {
      PlanClean(u, e.plan.value);
    }
    SummaryClean(u, r.subjectKind, ScoreValue(e.score), e.blocked, e.traceId, PlanValue(e.plan), PlanAllowed(e.plan));
  }

  lemma EvaluationClean(u: Unit, e: Evaluation, nils: Nils, r: Restrictions)
    requires DeclaresAttestation(u, r)
    ensures CleanWhen(u, "Evaluation", EvaluationValue(e, nils), EvaluationAllowed(e, nils, r))
  {
    JudgedPart(u, e, r);
    RunPart(u, e, nils, r);
    SummaryPart(u, e, r);
    var judged := Allows(r.subjectKind, e.subjectKind) && Allows(r.transport, e.target.transport);
    var run := VerdictsWritten(e.verdicts, nils) && StatusesAllowed(e.verdicts, r.status);
    FieldsJoin(u, "Evaluation", JUDGED, JudgedValues(e), judged, RUN, RunValues(e, nils), run);
    FieldsJoin(u, "Evaluation", JUDGED + RUN, JudgedValues(e) + RunValues(e, nils), judged && run,
               SUMMARY, SummaryValues(e), PlanAllowed(e.plan));
    StructFrom(u, "Evaluation", EVALUATION, map["subjectKind" := r.subjectKind],
               JudgedValues(e) + RunValues(e, nils) + SummaryValues(e), judged && run && PlanAllowed(e.plan));
  }

  predicate StatementAllowed(s: Statement, nils: Nils, r: Restrictions) {
    && Allows(r.typ, s.typ) && SubjectsWritten(s.subject, nils) && Allows(r.predicateType, s.predicateType)
    && EvaluationAllowed(s.evaluation, nils, r)
  }

  lemma EnvelopeClean(u: Unit, typ: string, types: Schema, subjects: GoValue, subjectsOk: bool,
                      predicateType: string, predicateTypes: Schema, evaluation: GoValue, evaluationOk: bool)
    requires Declares(u, "Statement", STATEMENT, map["_type" := types, "predicateType" := predicateTypes])
    requires HasType(u.env, GSlice(GStruct("Subject")), subjects)
    requires Clean(u, GSlice(GStruct("Subject")), subjects) <==> subjectsOk
    requires CleanWhen(u, "Evaluation", evaluation, evaluationOk)
    ensures CleanWhen(u, "Statement", VStruct([VString(typ), subjects, VString(predicateType), evaluation]),
                      Allows(types, typ) && subjectsOk && Allows(predicateTypes, predicateType) && evaluationOk)
  {
    hide FieldWhen, CleanField, Emitted, HasType;
    var fixed := map["_type" := types, "predicateType" := predicateTypes];
    OverriddenValue(u, "Statement", fixed, STATEMENT[0], typ);
    WrittenValue(u, "Statement", STATEMENT[1], subjects, subjectsOk);
    OverriddenValue(u, "Statement", fixed, STATEMENT[2], predicateType);
    NestedStruct(u, "Statement", STATEMENT[3], "Evaluation", evaluation, evaluationOk);
    var vals := [VString(typ), subjects, VString(predicateType), evaluation];
    FourFields(u, "Statement", STATEMENT, vals,
               Allows(types, typ), subjectsOk, Allows(predicateTypes, predicateType), evaluationOk);
    StructFrom(u, "Statement", STATEMENT, fixed, vals,
               Allows(types, typ) && subjectsOk && Allows(predicateTypes, predicateType) && evaluationOk);
  }

  lemma StatementClean(u: Unit, s: Statement, nils: Nils, r: Restrictions)
    requires DeclaresAttestation(u, r)
    ensures CleanWhen(u, "Statement", StatementValue(s, nils), StatementAllowed(s, nils, r))
  {
    SubjectsClean(u, s.subject, nils);
    EvaluationClean(u, s.evaluation, nils, r);
    EnvelopeClean(u, s.typ, r.typ, SubjectsValue(s.subject, nils), SubjectsWritten(s.subject, nils),
                  s.predicateType, r.predicateType,
                  EvaluationValue(s.evaluation, nils), EvaluationAllowed(s.evaluation, nils, r));
  }

  // ---------------------------------------------------------------- the published schema

  const PUBLISHED := Restrictions(
    FIXED_STATEMENT["_type"], FIXED_STATEMENT["predicateType"], FIXED_EVALUATION["subjectKind"],
    FIXED_TARGET["transport"], FIXED_VERDICT["status"])

  lemma UnitDeclares()
    ensures DeclaresAttestation(UNIT, PUBLISHED)
  {
    Declarations();
    Overriding();
  }

  /** Exactly what the published schema asks of a statement: the two type URIs, the subject kind, a
      known transport, a known status for every verdict, and no plan but one whose raw
      specification happens to be an array of integers. */
  predicate SchemaAccepts(s: Statement) {
    var e := s.evaluation;
    && s.typ == STATEMENT_TYPE && s.predicateType == PREDICATE_TYPE
    && e.subjectKind == SUBJECT_KIND_DESCRIPTOR
    && KnownTransport(e.target.transport)
    && (forall i :: 0 <= i < |e.verdicts| ==> KnownStatus(e.verdicts[i].status))
    && PlanAllowed(e.plan)
  }

  lemma PublishedTransports(transport: string)
    ensures Allows(PUBLISHED.transport, transport) <==> KnownTransport(transport)
  {
    assert TRANSPORTS[0] == "http" && TRANSPORTS[1] == "stdio";
  }

  lemma PublishedStatuses(status: string)
    ensures Allows(PUBLISHED.status, status) <==> KnownStatus(status)
  {
    assert STATUSES[0] == "pass" && STATUSES[1] == "warn" && STATUSES[2] == "fail";
    assert STATUSES[3] == "skip" && STATUSES[4] == "info";
  }

  lemma PublishedRestrictions(s: Statement, nils: Nils)
    ensures StatementAllowed(s, nils, PUBLISHED) <==> SchemaAccepts(s) && NothingNil(s, nils)
  {
    PublishedTransports(s.evaluation.target.transport);
    var verdicts := s.evaluation.verdicts;
    forall i | 0 <= i < |verdicts|
      ensures Allows(PUBLISHED.status, verdicts[i].status) <==> KnownStatus(verdicts[i].status)
    {
      PublishedStatuses(verdicts[i].status);
    }
  }

  /** The JSON a statement is written as. */
  ghost function StatementJson(s: Statement, nils: Nils): JSON {
    UnitDeclares();
    StatementClean(UNIT, s, nils, PUBLISHED);
    Encode(ENV, GStruct("Statement"), StatementValue(s, nils))
  }

  /** The document generated from the attestation types. */
  ghost predicate IsPublished(d: Document) {
    d.root == "Statement" && IsClosure(UNIT, "Statement", d.defs)
  }

  ghost predicate SchemaValid(d: Document, s: Statement, nils: Nils) {
    Conforms(d.defs, RefTo(d.root), StatementJson(s, nils))
  }

  /** What a statement must satisfy for its JSON to conform to the generated schema. */
  lemma SchemaExact(d: Document, s: Statement, nils: Nils)
    requires IsPublished(d)
    ensures SchemaValid(d, s, nils) <==> SchemaAccepts(s) && NothingNil(s, nils)
  {
    UnitDeclares();
    UnitWellFormed();
    StatementClean(UNIT, s, nils, PUBLISHED);
    DocumentCorrect(UNIT, d, StatementValue(s, nils));
    PublishedRestrictions(s, nils);
  }

  /** A statement the verifier accepts conforms to the schema exactly when its plan, if any, has an
      array of integers for its raw specification; without a plan it always conforms. */
  lemma AcceptedConforms(digest: Digest, d: Document, s: Statement, nils: Nils)
    requires IsPublished(d) && Accepted(digest, s)
    ensures SchemaValid(d, s, nils) <==> PlanAllowed(s.evaluation.plan)
  {
    hide SchemaValid;
    SchemaExact(d, s, nils);
    assert s.subject[0].digest != map[];
  }

  /** Nor does acceptance imply conformance: an accepted statement given a plan whose specification
      is a JSON object is still accepted, and no longer conforms. */
  lemma PlanBreaksConformance(digest: Digest, d: Document, s: Statement, nils: Nils)
    requires IsPublished(d) && Accepted(digest, s)
    ensures var planned := s.(evaluation := s.evaluation.(plan := Some(Plan(JObject(map[]), "none", [], "", "", ""))));
      Accepted(digest, planned) && !SchemaValid(d, planned, nils)
  {
    hide SchemaValid;
    var planned := s.(evaluation := s.evaluation.(plan := Some(Plan(JObject(map[]), "none", [], "", "", ""))));
    assert Accepted(digest, planned);
    AcceptedConforms(digest, d, planned, nils);
  }

  /** What a statement that conforms still needs for the verifier to accept it: the subject that
      ties it to its target, the run, an id for every verdict, and counts that add up. */
  lemma ConformingAccepted(digest: Digest, d: Document, s: Statement, nils: Nils)
    requires IsPublished(d) && SchemaValid(d, s, nils)
    ensures Accepted(digest, s) <==>
      && AcceptedSubject(digest, s) && AcceptedRun(s.evaluation)
      && (forall v <- s.evaluation.verdicts :: v.id != "")
      && s.evaluation.counts == Tally(s.evaluation.verdicts)
  {
    hide SchemaValid;
    SchemaExact(d, s, nils);
  }

  /** And conformance does not imply acceptance: whatever conforms still conforms without its
      subject, when no digest ties it to a target and the verifier refuses it. */
  lemma SchemaIsWeaker(digest: Digest, d: Document, s: Statement, nils: Nils)
    requires IsPublished(d) && SchemaValid(d, s, nils)
    ensures SchemaValid(d, s.(subject := []), nils.(subject := false))
    ensures !Accepted(digest, s.(subject := []))
  {
    hide SchemaValid;
    SchemaExact(d, s, nils);
    SchemaExact(d, s.(subject := []), nils.(subject := false));
  }

  ghost predicate AllTypesSupported(fields: seq<Field>) {
    forall i :: 0 <= i < |fields| ==> Supported(fields[i].typ)
  }

  lemma EvaluationSupported()
    ensures AllTypesSupported(EVALUATION)
  {
    assert AllTypesSupported(JUDGED) && AllTypesSupported(RUN) && AllTypesSupported(SUMMARY);
  }

  lemma OuterSupported()
    ensures AllTypesSupported(STATEMENT) && AllTypesSupported(SUBJECT)
    ensures AllTypesSupported(PLAN) && AllTypesSupported(TARGET) && AllTypesSupported(SERVER_IDENTITY)
  {
  }

  lemma InnerSupported()
    ensures AllTypesSupported(BASIS) && AllTypesSupported(INSTRUMENT) && AllTypesSupported(VERDICT)
    ensures AllTypesSupported(COUNTS) && AllTypesSupported(SCORE)
  {
  }

  lemma AllDefinable()
    ensures forall n <- ENV :: Definable(UNIT, n)
  {
    Declarations();
    EvaluationSupported();
    OuterSupported();
    InnerSupported();
    forall n <- ENV ensures AllTypesSupported(ENV[n]) {
    }
    forall n <- ENV ensures Definable(UNIT, n) {
      forall f <- ENV[n] ensures Supported(f.typ) {
        var i :| 0 <= i < |ENV[n]| && ENV[n][i] == f;
      }
    }
  }

  /** A followed field leads to the struct it is built around. */
  lemma Follows(u: Unit, name: string, f: Field, next: string)
    requires name in u.env && f in u.env[name] && next in u.env
    requires Followed(u, name, f) && StructOf(f.typ) == Some(next)
    requires Reaches(u, "Statement", name)
    ensures Reaches(u, "Statement", next)
  {
    assert next in Mentions(u, name);
    ReachesNext(u, "Statement", name, next);
  }

  lemma OuterReached(u: Unit, types: Schema, predicateTypes: Schema)
    requires Declares(u, "Statement", STATEMENT, map["_type" := types, "predicateType" := predicateTypes])
    requires "Subject" in u.env && "Evaluation" in u.env
    ensures Reaches(u, "Statement", "Statement") && Reaches(u, "Statement", "Subject")
    ensures Reaches(u, "Statement", "Evaluation")
  {
    ReachesSelf(u, "Statement");
    Follows(u, "Statement", STATEMENT[1], "Subject");
    Follows(u, "Statement", STATEMENT[3], "Evaluation");
  }

  /** The fields belong to the evaluation, whose only override is the subject kind. */
  ghost predicate PartOfEvaluation(u: Unit, fields: seq<Field>, kinds: Schema) {
    && "Evaluation" in u.env && (forall f <- fields :: f in u.env["Evaluation"])
    && HasOverrides(u, "Evaluation", map["subjectKind" := kinds])
    && Reaches(u, "Statement", "Evaluation")
  }

  lemma JudgedReached(u: Unit, kinds: Schema)
    requires PartOfEvaluation(u, JUDGED, kinds) && "Target" in u.env && "Basis" in u.env && "Instrument" in u.env
    ensures Reaches(u, "Statement", "Target") && Reaches(u, "Statement", "Basis")
    ensures Reaches(u, "Statement", "Instrument")
  {
    Follows(u, "Evaluation", JUDGED[1], "Target");
    Follows(u, "Evaluation", JUDGED[2], "Basis");
    Follows(u, "Evaluation", JUDGED[3], "Instrument");
  }

  lemma RunReached(u: Unit, kinds: Schema)
    requires PartOfEvaluation(u, RUN, kinds) && "Verdict" in u.env && "Counts" in u.env
    ensures Reaches(u, "Statement", "Verdict") && Reaches(u, "Statement", "Counts")
  {
    Follows(u, "Evaluation", RUN[2], "Verdict");
    Follows(u, "Evaluation", RUN[3], "Counts");
  }

  lemma SummaryReached(u: Unit, kinds: Schema)
    requires PartOfEvaluation(u, SUMMARY, kinds) && "Score" in u.env && "Plan" in u.env
    ensures Reaches(u, "Statement", "Score") && Reaches(u, "Statement", "Plan")
  {
    Follows(u, "Evaluation", SUMMARY[0], "Score");
    Follows(u, "Evaluation", SUMMARY[3], "Plan");
  }

  lemma ServerReached(u: Unit, transports: Schema)
    requires Declares(u, "Target", TARGET, map["transport" := transports])
    requires "ServerIdentity" in u.env && Reaches(u, "Statement", "Target")
    ensures Reaches(u, "Statement", "ServerIdentity")
  {
    Follows(u, "Target", TARGET[2], "ServerIdentity");
  }

  lemma InnerReached(u: Unit, r: Restrictions)
    requires DeclaresAttestation(u, r)
    ensures forall n <- {"Statement", "Subject", "Evaluation", "Plan", "Target", "ServerIdentity",
                         "Basis", "Instrument", "Verdict", "Counts", "Score"} :: Reaches(u, "Statement", n)
  {
    OuterReached(u, r.typ, r.predicateType);
    JudgedReached(u, r.subjectKind);
    RunReached(u, r.subjectKind);
    SummaryReached(u, r.subjectKind);
    ServerReached(u, r.transport);
  }

  lemma AllReached()
    ensures forall n <- ENV :: Reaches(UNIT, "Statement", n)
  {
    hide Reaches, UNIT;
    UnitDeclares();
    InnerReached(UNIT, PUBLISHED);
    Declarations();
  }

  /** When everything declared is reached, the definitions are those of everything declared. */
  lemma ClosureKeys(u: Unit, root: string, defs: Defs)
    requires IsClosure(u, root, defs) && forall n <- u.env :: Reaches(u, root, n)
    ensures defs.Keys == u.env.Keys
  {
    forall n <- defs ensures n in u.env {
      assert Definable(u, n);
    }
  }

  /** The published definitions are those of all eleven attestation types. */
  lemma PublishedDefinitions(d: Document)
    requires IsPublished(d)
    ensures d.defs.Keys == {"Statement", "Subject", "Evaluation", "Plan", "Target", "ServerIdentity",
                            "Basis", "Instrument", "Verdict", "Counts", "Score"}
  {
    hide IsClosure, Reaches;
    AllReached();
    ClosureKeys(UNIT, "Statement", d.defs);
    Declarations();
  }

  /** Generating from the attestation types succeeds, and yields the published document. */
  method GeneratePublished() returns (d: Document)
    ensures IsPublished(d)
  {
    UnitWellFormed();
    Declarations();
    AllDefinable();
    var r := Generate(UNIT, "Statement");
    d := r.value;
  }
}
