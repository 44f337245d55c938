/** The JSON of a statement, member by member. */
module StatementWriting {
  import opened Text
  import opened Json
  import opened GoTypes
  import opened Specgen
  import opened CompilerCorrectness
  import opened Statements
  import opened StatementSchema

  // ---------------------------------------------------------------- the tree

  /** A member's name, and what is written for it, if anything. */
  type Member = (string, Option<JSON>)

  function Object(members: seq<Member>): map<string, JSON> {
    if members == [] then map[]
    else
      var n := |members| - 1;
      var rest := Object(members[..n]);
      if members[n].1.Some? then rest[members[n].0 := members[n].1.value] else rest
  }

  function Str(text: string): Option<JSON> {
    Some(JString(text))
  }

  function StrIfSet(text: string): Option<JSON> {
    if text == "" then None else Some(JString(text))
  }

  function Int(i: int): Option<JSON> {
    Some(JNumber(i as real))
  }

  function StrList(texts: seq<string>): JSON {
    JArray(seq(|texts|, i requires 0 <= i < |texts| => JString(texts[i])))
  }

  function StrListIfSet(texts: seq<string>): Option<JSON> {
    if texts == [] then None else Some(StrList(texts))
  }

  function BasisMembers(b: Basis): seq<Member> {
    [("specRevision", StrIfSet(b.specRevision)), ("rubric", StrIfSet(b.rubric)),
     ("checkInventory", StrIfSet(b.checkInventory))]
  }

  function InstrumentMembers(i: Instrument): seq<Member> {
    [("name", Str(i.name)), ("version", Str(i.version)), ("reportSchemaVersion", Int(i.schemaVersion))]
  }

  function ServerMembers(id: ServerIdentity): seq<Member> {
    [("name", StrIfSet(id.name)), ("version", StrIfSet(id.version)), ("protocolVersion", StrIfSet(id.protocol))]
  }

  function TargetMembers(t: Target): seq<Member> {
    [("transport", Str(t.transport)), ("endpoint", Str(t.endpoint)),
     ("server", if t.server.None? then None else Some(JObject(Object(ServerMembers(t.server.value)))))]
  }

  function VerdictMembers(v: Verdict): seq<Member> {
    [("id", Str(v.id)), ("phase", Str(v.phase)), ("status", Str(v.status)), ("severity", StrIfSet(v.severity)),
     ("evidence", StrListIfSet(v.evidence)), ("doc", StrIfSet(v.doc))]
  }

  function CountsMembers(c: Counts): seq<Member> {
    [("pass", Int(c.pass)), ("warn", Int(c.warn)), ("fail", Int(c.fail)), ("skip", Int(c.skip)), ("info", Int(c.info))]
  }

  function ScoreMembers(x: Score): seq<Member> {
    [("total", Some(JNumber(x.total))), ("grade", Str(x.grade)), ("categoriesAssessed", Int(x.assessed)),
     ("categoriesTotal", Int(x.of)),
     ("byCategory", if x.byCategory == map[] then None
                    else Some(JObject(map k | k in x.byCategory :: JNumber(x.byCategory[k]))))]
  }

  function PlanMembers(p: Plan): seq<Member> {
    [("spec", Some(p.spec)), ("credentials", Str(p.credentials)), ("credentialsByValue", StrListIfSet(p.byValue)),
     ("os", Str(p.os)), ("arch", Str(p.arch)), ("kernel", StrIfSet(p.kernel))]
  }

  function SubjectMembers(s: Subject, isNil: bool): seq<Member> {
    [("name", Str(s.name)),
     ("digest", Some(if isNil && s.digest == map[] then JNull
                     else JObject(map k | k in s.digest :: JString(s.digest[k]))))]
  }

  function SubjectList(subjects: seq<Subject>, nils: Nils): JSON {
    if nils.subject && subjects == [] then JNull
    else JArray(seq(|subjects|, i requires 0 <= i < |subjects| =>
                      JObject(Object(SubjectMembers(subjects[i], i in nils.digests)))))
  }

  function VerdictList(verdicts: seq<Verdict>, isNil: bool): JSON {
    if isNil && verdicts == [] then JNull
    else JArray(seq(|verdicts|, i requires 0 <= i < |verdicts| => JObject(Object(VerdictMembers(verdicts[i])))))
  }

  function JudgedMembers(e: Evaluation): seq<Member> {
    [("subjectKind", Str(e.subjectKind)), ("target", Some(JObject(Object(TargetMembers(e.target))))),
     ("judgedAgainst", Some(JObject(Object(BasisMembers(e.judgedAgainst))))),
     ("instrument", Some(JObject(Object(InstrumentMembers(e.instrument)))))]
  }

  function RunMembers(e: Evaluation, nils: Nils): seq<Member> {
    [("ranAt", Str(e.ranAt.text)), ("took", Str(e.took)), ("verdicts", Some(VerdictList(e.verdicts, nils.verdicts))),
     ("counts", Some(JObject(Object(CountsMembers(e.counts)))))]
  }

  function SummaryMembers(e: Evaluation): seq<Member> {
    [("score", if e.score.None? then None else Some(JObject(Object(ScoreMembers(e.score.value))))),
     ("blocked", StrIfSet(e.blocked)), ("traceId", StrIfSet(e.traceId)),
     ("plan", if e.plan.None? then None else Some(JObject(Object(PlanMembers(e.plan.value)))))]
  }

  function EvaluationMembers(e: Evaluation, nils: Nils): seq<Member> {
    JudgedMembers(e) + RunMembers(e, nils) + SummaryMembers(e)
  }

  function StatementMembers(s: Statement, nils: Nils): seq<Member> {
    [("_type", Str(s.typ)), ("subject", Some(SubjectList(s.subject, nils))), ("predicateType", Str(s.predicateType)),
     ("predicate", Some(JObject(Object(EvaluationMembers(s.evaluation, nils)))))]
  }

  // ---------------------------------------------------------------- one field, one struct

  /** The field's value is written as the member says. */
  ghost predicate Writes(env: Env, f: Field, v: GoValue, member: Member) {
    && HasType(env, f.typ, v) && JsonName(f) == member.0
    && match member.1
       case None => !Emitted(f, v)
       case Some(j) => Emitted(f, v) && Encode(env, f.typ, v) == j
  }

  ghost predicate AllWrite(env: Env, fields: seq<Field>, vals: seq<GoValue>, members: seq<Member>) {
    |fields| == |vals| == |members| && forall i :: 0 <= i < |vals| ==> Writes(env, fields[i], vals[i], members[i])
  }

  lemma {:induction false} FieldsWritten(env: Env, fields: seq<Field>, vals: seq<GoValue>, members: seq<Member>)
    requires AllWrite(env, fields, vals, members)
    ensures FieldsHaveType(env, fields, vals) && EncodeFields(env, fields, vals) == Object(members)
  {
    hide Encode, HasType, Emitted;
    if vals == [] {
    } else {
      var n := |vals| - 1;
      FieldsWritten(env, fields[..n], vals[..n], members[..n]);
      assert Writes(env, fields[n], vals[n], members[n]);
    }
  }

  lemma StructWritten(env: Env, name: string, fields: seq<Field>, vals: seq<GoValue>, members: seq<Member>)
    requires name in env && env[name] == fields && AllWrite(env, fields, vals, members)
    ensures HasType(env, GStruct(name), VStruct(vals))
    ensures Encode(env, GStruct(name), VStruct(vals)) == JObject(Object(members))
  {
    FieldsWritten(env, fields, vals, members);
  }

  lemma WritesJoin(env: Env, f: seq<Field>, v: seq<GoValue>, m: seq<Member>,
                   g: seq<Field>, w: seq<GoValue>, n: seq<Member>)
    requires AllWrite(env, f, v, m) && AllWrite(env, g, w, n)
    ensures AllWrite(env, f + g, v + w, m + n)
  {
    hide Writes;
  }

  /** A field that is always written. */
  lemma AlwaysWrites(env: Env, f: Field, v: GoValue, j: JSON)
    requires f.exported && f.tagOpts.None? && |f.tagName| > 1
    requires HasType(env, f.typ, v) && Encode(env, f.typ, v) == j
    ensures Writes(env, f, v, (f.tagName, Some(j)))
  {
    AlwaysEmitted(f, v);
  }

  /** A field that is written unless it is empty. */
  lemma SetWrites(env: Env, f: Field, v: GoValue, member: Option<JSON>)
    requires f.exported && f.tagOpts == Some("omitempty") && |f.tagName| > 1 && HasType(env, f.typ, v)
    requires if IsEmpty(v) then member == None else member == Some(Encode(env, f.typ, v))
    ensures Writes(env, f, v, (f.tagName, member))
  {
    if IsEmpty(v) {
      OmittedWhenEmpty(f, v);
    }
  }

  lemma TextWrites(env: Env, f: Field, text: string)
    requires f.exported && |f.tagName| > 1 && f.typ == GString
    ensures f.tagOpts.None? ==> Writes(env, f, VString(text), (f.tagName, Str(text)))
    ensures f.tagOpts == Some("omitempty") ==> Writes(env, f, VString(text), (f.tagName, StrIfSet(text)))
  {
    hide Writes;
    if f.tagOpts.None? {
      AlwaysWrites(env, f, VString(text), JString(text));
    }
    if f.tagOpts == Some("omitempty") {
      SetWrites(env, f, VString(text), StrIfSet(text));
    }
  }

  lemma IntWrites(env: Env, f: Field, i: int)
    requires f.exported && |f.tagName| > 1 && f.typ == GInt && f.tagOpts.None?
    ensures Writes(env, f, VInt(i), (f.tagName, Int(i)))
  {
    AlwaysWrites(env, f, VInt(i), JNumber(i as real));
  }

  lemma ListWrites(env: Env, f: Field, texts: seq<string>)
    requires f.exported && |f.tagName| > 1 && f.typ == GSlice(GString) && f.tagOpts == Some("omitempty")
    ensures Writes(env, f, Strings(texts), (f.tagName, StrListIfSet(texts)))
  {
    var v := Strings(texts);
    assert HasType(env, GSlice(GString), v);
    assert Encode(env, GSlice(GString), v).elems == StrList(texts).elems;
    SetWrites(env, f, v, StrListIfSet(texts));
  }

  // ---------------------------------------------------------------- struct by struct

  lemma BasisWritten(env: Env, b: Basis)
    requires "Basis" in env && env["Basis"] == BASIS
    ensures HasType(env, GStruct("Basis"), BasisValue(b))
    ensures Encode(env, GStruct("Basis"), BasisValue(b)) == JObject(Object(BasisMembers(b)))
  {
    hide Writes, Encode, HasType, Object;
    TextWrites(env, BASIS[0], b.specRevision);
    TextWrites(env, BASIS[1], b.rubric);
    TextWrites(env, BASIS[2], b.checkInventory);
    StructWritten(env, "Basis", BASIS, BasisValue(b).fields, BasisMembers(b));
  }

  lemma InstrumentWritten(env: Env, i: Instrument)
    requires "Instrument" in env && env["Instrument"] == INSTRUMENT
    ensures HasType(env, GStruct("Instrument"), InstrumentValue(i))
    ensures Encode(env, GStruct("Instrument"), InstrumentValue(i)) == JObject(Object(InstrumentMembers(i)))
  {
    hide Writes, Encode, HasType, Object;
    TextWrites(env, INSTRUMENT[0], i.name);
    TextWrites(env, INSTRUMENT[1], i.version);
    IntWrites(env, INSTRUMENT[2], i.schemaVersion);
    StructWritten(env, "Instrument", INSTRUMENT, InstrumentValue(i).fields, InstrumentMembers(i));
  }

  lemma ServerWritten(env: Env, id: ServerIdentity)
    requires "ServerIdentity" in env && env["ServerIdentity"] == SERVER_IDENTITY
    ensures HasType(env, GStruct("ServerIdentity"), ServerValue(Some(id)).to)
    ensures Encode(env, GStruct("ServerIdentity"), ServerValue(Some(id)).to) == JObject(Object(ServerMembers(id)))
  {
    hide Writes, Encode, HasType, Object;
    TextWrites(env, SERVER_IDENTITY[0], id.name);
    TextWrites(env, SERVER_IDENTITY[1], id.version);
    TextWrites(env, SERVER_IDENTITY[2], id.protocol);
    StructWritten(env, "ServerIdentity", SERVER_IDENTITY, ServerValue(Some(id)).to.fields, ServerMembers(id));
  }

  /** An optional struct: left out when nil, otherwise written as the struct is. */
  lemma OptionalWrites(env: Env, f: Field, name: string, v: GoValue, member: Option<JSON>)
    requires f.exported && f.tagOpts == Some("omitempty") && |f.tagName| > 1 && f.typ == GPtr(GStruct(name))
    requires v.VNil? || (v.VPtr? && HasType(env, GStruct(name), v.to))
    requires if v.VNil? then member == None else member == Some(Encode(env, GStruct(name), v.to))
    ensures Writes(env, f, v, (f.tagName, member))
  {
    SetWrites(env, f, v, member);
  }

  lemma TargetWritten(env: Env, t: Target)
    requires "Target" in env && env["Target"] == TARGET
    requires "ServerIdentity" in env && env["ServerIdentity"] == SERVER_IDENTITY
    ensures HasType(env, GStruct("Target"), TargetValue(t))
    ensures Encode(env, GStruct("Target"), TargetValue(t)) == JObject(Object(TargetMembers(t)))
  {
    hide Writes, Encode, HasType, Object;
    TextWrites(env, TARGET[0], t.transport);
    TextWrites(env, TARGET[1], t.endpoint);
    if t.server.Some? {
      ServerWritten(env, t.server.value);
    }
    OptionalWrites(env, TARGET[2], "ServerIdentity", ServerValue(t.server), TargetMembers(t)[2].1);
    StructWritten(env, "Target", TARGET, TargetValue(t).fields, TargetMembers(t));
  }

  lemma VerdictWritten(env: Env, v: Verdict)
    requires "Verdict" in env && env["Verdict"] == VERDICT
    ensures HasType(env, GStruct("Verdict"), VerdictValue(v))
    ensures Encode(env, GStruct("Verdict"), VerdictValue(v)) == JObject(Object(VerdictMembers(v)))
  {
    hide Writes, Encode, HasType, Object;
    TextWrites(env, VERDICT[0], v.id);
    TextWrites(env, VERDICT[1], v.phase);
    TextWrites(env, VERDICT[2], v.status);
    TextWrites(env, VERDICT[3], v.severity);
    ListWrites(env, VERDICT[4], v.evidence);
    TextWrites(env, VERDICT[5], v.doc);
    StructWritten(env, "Verdict", VERDICT, VerdictValue(v).fields, VerdictMembers(v));
  }

  lemma CountsWritten(env: Env, c: Counts)
    requires "Counts" in env && env["Counts"] == COUNTS
    ensures HasType(env, GStruct("Counts"), CountsValue(c))
    ensures Encode(env, GStruct("Counts"), CountsValue(c)) == JObject(Object(CountsMembers(c)))
  {
    hide Writes, Encode, HasType, Object;
    IntWrites(env, COUNTS[0], c.pass);
    IntWrites(env, COUNTS[1], c.warn);
    IntWrites(env, COUNTS[2], c.fail);
    IntWrites(env, COUNTS[3], c.skip);
    IntWrites(env, COUNTS[4], c.info);
    StructWritten(env, "Counts", COUNTS, CountsValue(c).fields, CountsMembers(c));
  }

  lemma CategoriesWrite(env: Env, byCategory: map<string, real>)
    ensures var v := VMap(map k | k in byCategory :: VFloat(byCategory[k]));
      Writes(env, SCORE[4], v, ("byCategory", if byCategory == map[] then None
                                              else Some(JObject(map k | k in byCategory :: JNumber(byCategory[k])))))
  {
    hide Writes;
    var v := VMap(map k | k in byCategory :: VFloat(byCategory[k]));
    assert HasType(env, GMap(GFloat), v);
    assert Encode(env, GMap(GFloat), v).members == map k | k in byCategory :: JNumber(byCategory[k]);
    assert IsEmpty(v) <==> byCategory == map[] by {
      assert v.entries.Keys == byCategory.Keys;
    }
    SetWrites(env, SCORE[4], v, if byCategory == map[] then None
                                else Some(JObject(map k | k in byCategory :: JNumber(byCategory[k]))));
  }

  lemma TotalWrites(env: Env, total: real)
    ensures Writes(env, SCORE[0], VFloat(total), ("total", Some(JNumber(total))))
  {
    AlwaysWrites(env, SCORE[0], VFloat(total), JNumber(total));
  }

  lemma ScoreWritten(env: Env, x: Score)
    requires "Score" in env && env["Score"] == SCORE
    ensures HasType(env, GStruct("Score"), ScoreValue(Some(x)).to)
    ensures Encode(env, GStruct("Score"), ScoreValue(Some(x)).to) == JObject(Object(ScoreMembers(x)))
  {
    hide Writes, Encode, HasType, Object;
    TotalWrites(env, x.total);
    TextWrites(env, SCORE[1], x.grade);
    IntWrites(env, SCORE[2], x.assessed);
    IntWrites(env, SCORE[3], x.of);
    CategoriesWrite(env, x.byCategory);
    StructWritten(env, "Score", SCORE, ScoreValue(Some(x)).to.fields, ScoreMembers(x));
  }

  lemma SpecWrites(env: Env, spec: JSON)
    ensures Writes(env, PLAN[0], VRaw(spec), ("spec", Some(spec)))
  {
    AlwaysWrites(env, PLAN[0], VRaw(spec), spec);
  }

  lemma PlanWritten(env: Env, p: Plan)
    requires "Plan" in env && env["Plan"] == PLAN
    ensures HasType(env, GStruct("Plan"), PlanValue(Some(p)).to)
    ensures Encode(env, GStruct("Plan"), PlanValue(Some(p)).to) == JObject(Object(PlanMembers(p)))
  {
    hide Writes, Encode, HasType, Object;
    SpecWrites(env, p.spec);
    TextWrites(env, PLAN[1], p.credentials);
    ListWrites(env, PLAN[2], p.byValue);
    TextWrites(env, PLAN[3], p.os);
    TextWrites(env, PLAN[4], p.arch);
    TextWrites(env, PLAN[5], p.kernel);
    StructWritten(env, "Plan", PLAN, PlanValue(Some(p)).to.fields, PlanMembers(p));
  }

  lemma DigestWrites(env: Env, digest: map<string, string>, isNil: bool)
    ensures Writes(env, SUBJECT[1], DigestValue(digest, isNil),
                   ("digest", Some(if isNil && digest == map[] then JNull
                                   else JObject(map k | k in digest :: JString(digest[k])))))
  {
    hide Writes;
    var v := DigestValue(digest, isNil);
    assert HasType(env, GMap(GString), v);
    if v.VMap? {
      assert Encode(env, GMap(GString), v).members == map k | k in digest :: JString(digest[k]);
    }
    AlwaysWrites(env, SUBJECT[1], v, if isNil && digest == map[] then JNull
                                     else JObject(map k | k in digest :: JString(digest[k])));
  }

  lemma SubjectWritten(env: Env, s: Subject, isNil: bool)
    requires "Subject" in env && env["Subject"] == SUBJECT
    ensures HasType(env, GStruct("Subject"), SubjectValue(s, isNil))
    ensures Encode(env, GStruct("Subject"), SubjectValue(s, isNil)) == JObject(Object(SubjectMembers(s, isNil)))
  {
    hide Writes, Encode, HasType, Object;
    TextWrites(env, SUBJECT[0], s.name);
    DigestWrites(env, s.digest, isNil);
    StructWritten(env, "Subject", SUBJECT, SubjectValue(s, isNil).fields, SubjectMembers(s, isNil));
  }

  /** A list whose elements are written one by one. */
  lemma ElementsWritten(env: Env, elem: GoType, vals: seq<GoValue>, written: seq<JSON>)
    requires elem != GByte && |vals| == |written|
    requires forall i :: 0 <= i < |vals| ==> HasType(env, elem, vals[i]) && Encode(env, elem, vals[i]) == written[i]
    ensures HasType(env, GSlice(elem), VList(vals))
    ensures Encode(env, GSlice(elem), VList(vals)) == JArray(written)
  {
    forall w <- vals ensures HasType(env, elem, w) {
      var i :| 0 <= i < |vals| && vals[i] == w;
    }
    assert Encode(env, GSlice(elem), VList(vals)).elems == written;
  }

  lemma SubjectListWritten(env: Env, subjects: seq<Subject>, nils: Nils)
    requires "Subject" in env && env["Subject"] == SUBJECT
    ensures HasType(env, GSlice(GStruct("Subject")), SubjectsValue(subjects, nils))
    ensures Encode(env, GSlice(GStruct("Subject")), SubjectsValue(subjects, nils)) == SubjectList(subjects, nils)
  {
    var v := SubjectsValue(subjects, nils);
    if v.VList? {
      forall i | 0 <= i < |subjects|
        ensures HasType(env, GStruct("Subject"), v.elems[i])
        ensures Encode(env, GStruct("Subject"), v.elems[i]) == SubjectList(subjects, nils).elems[i]
      {
        SubjectWritten(env, subjects[i], i in nils.digests);
      }
      ElementsWritten(env, GStruct("Subject"), v.elems, SubjectList(subjects, nils).elems);
    }
  }

  lemma VerdictListWritten(env: Env, verdicts: seq<Verdict>, isNil: bool)
    requires "Verdict" in env && env["Verdict"] == VERDICT
    ensures HasType(env, GSlice(GStruct("Verdict")), VerdictsValue(verdicts, isNil))
    ensures Encode(env, GSlice(GStruct("Verdict")), VerdictsValue(verdicts, isNil)) == VerdictList(verdicts, isNil)
  {
    var v := VerdictsValue(verdicts, isNil);
    if v.VList? {
      forall i | 0 <= i < |verdicts|
        ensures HasType(env, GStruct("Verdict"), v.elems[i])
        ensures Encode(env, GStruct("Verdict"), v.elems[i]) == VerdictList(verdicts, isNil).elems[i]
      {
        VerdictWritten(env, verdicts[i]);
      }
      ElementsWritten(env, GStruct("Verdict"), v.elems, VerdictList(verdicts, isNil).elems);
    }
  }

  // ---------------------------------------------------------------- the evaluation and the statement

  lemma JudgedWrites(u: Unit, e: Evaluation, r: Restrictions)
    requires DeclaresAttestation(u, r)
    ensures AllWrite(u.env, JUDGED, JudgedValues(e), JudgedMembers(e))
  {
    hide Writes, Encode, HasType, Object;
    TextWrites(u.env, JUDGED[0], e.subjectKind);
    TargetWritten(u.env, e.target);
    BasisWritten(u.env, e.judgedAgainst);
    InstrumentWritten(u.env, e.instrument);
    AlwaysWrites(u.env, JUDGED[1], TargetValue(e.target), JObject(Object(TargetMembers(e.target))));
    AlwaysWrites(u.env, JUDGED[2], BasisValue(e.judgedAgainst), JObject(Object(BasisMembers(e.judgedAgainst))));
    AlwaysWrites(u.env, JUDGED[3], InstrumentValue(e.instrument), JObject(Object(InstrumentMembers(e.instrument))));
  }

  lemma TimeWrites(env: Env, text: string)
    ensures Writes(env, RUN[0], VTime(text), ("ranAt", Str(text)))
  {
    AlwaysWrites(env, RUN[0], VTime(text), JString(text));
  }

  lemma RunWrites(u: Unit, e: Evaluation, nils: Nils, r: Restrictions)
    requires DeclaresAttestation(u, r)
    ensures AllWrite(u.env, RUN, RunValues(e, nils), RunMembers(e, nils))
  {
    hide Writes, Encode, HasType, Object;
    TimeWrites(u.env, e.ranAt.text);
    TextWrites(u.env, RUN[1], e.took);
    VerdictListWritten(u.env, e.verdicts, nils.verdicts);
    AlwaysWrites(u.env, RUN[2], VerdictsValue(e.verdicts, nils.verdicts), VerdictList(e.verdicts, nils.verdicts));
    CountsWritten(u.env, e.counts);
    AlwaysWrites(u.env, RUN[3], CountsValue(e.counts), JObject(Object(CountsMembers(e.counts))));
  }

  lemma SummaryWrites(u: Unit, e: Evaluation, r: Restrictions)
    requires DeclaresAttestation(u, r)
    ensures AllWrite(u.env, SUMMARY, SummaryValues(e), SummaryMembers(e))
  {
    hide Writes, Encode, HasType, Object;
    if e.score.Some? {
      ScoreWritten(u.env, e.score.value);
    }
    if e.plan.Some? {
      PlanWritten(u.env, e.plan.value);
    }
    OptionalWrites(u.env, SUMMARY[0], "Score", ScoreValue(e.score), SummaryMembers(e)[0].1);
    TextWrites(u.env, SUMMARY[1], e.blocked);
    TextWrites(u.env, SUMMARY[2], e.traceId);
    OptionalWrites(u.env, SUMMARY[3], "Plan", PlanValue(e.plan), SummaryMembers(e)[3].1);
  }

  lemma EvaluationWritten(u: Unit, e: Evaluation, nils: Nils, r: Restrictions)
    requires DeclaresAttestation(u, r)
    ensures HasType(u.env, GStruct("Evaluation"), EvaluationValue(e, nils))
    ensures Encode(u.env, GStruct("Evaluation"), EvaluationValue(e, nils)) ==
            JObject(Object(EvaluationMembers(e, nils)))
  {
    hide AllWrite, Encode, HasType, Object, JudgedValues, RunValues, SummaryValues,
         JudgedMembers, RunMembers, SummaryMembers;
    JudgedWrites(u, e, r);
    RunWrites(u, e, nils, r);
    SummaryWrites(u, e, r);
    WritesJoin(u.env, JUDGED, JudgedValues(e), JudgedMembers(e), RUN, RunValues(e, nils), RunMembers(e, nils));
    WritesJoin(u.env, JUDGED + RUN, JudgedValues(e) + RunValues(e, nils), JudgedMembers(e) + RunMembers(e, nils),
               SUMMARY, SummaryValues(e), SummaryMembers(e));
    StructWritten(u.env, "Evaluation", EVALUATION, JudgedValues(e) + RunValues(e, nils) + SummaryValues(e),
                  EvaluationMembers(e, nils));
  }

  lemma AttestationWritten(u: Unit, s: Statement, nils: Nils, r: Restrictions)
    requires DeclaresAttestation(u, r)
    ensures HasType(u.env, GStruct("Statement"), StatementValue(s, nils))
    ensures Encode(u.env, GStruct("Statement"), StatementValue(s, nils)) == JObject(Object(StatementMembers(s, nils)))
  {
    hide Writes, Encode, HasType, Object, EvaluationMembers;
    TextWrites(u.env, STATEMENT[0], s.typ);
    SubjectListWritten(u.env, s.subject, nils);
    AlwaysWrites(u.env, STATEMENT[1], SubjectsValue(s.subject, nils), SubjectList(s.subject, nils));
    TextWrites(u.env, STATEMENT[2], s.predicateType);
    EvaluationWritten(u, s.evaluation, nils, r);
    AlwaysWrites(u.env, STATEMENT[3], EvaluationValue(s.evaluation, nils),
                 JObject(Object(EvaluationMembers(s.evaluation, nils))));
    StructWritten(u.env, "Statement", STATEMENT, StatementValue(s, nils).fields, StatementMembers(s, nils));
  }

  /** What encoding the statement comes to: every member under its own name with its own value. */
  lemma StatementWritten(s: Statement, nils: Nils)
    ensures StatementJson(s, nils) == JObject(Object(StatementMembers(s, nils)))
  {
    hide Encode, HasType, Object, StatementMembers, StatementValue;
    UnitDeclares();
    AttestationWritten(UNIT, s, nils, PUBLISHED);
  }
}
