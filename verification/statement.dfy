/** The attestation: an in-toto statement about one MCP server, as decoded. Nil and empty slices
    and maps are one value here, since the code in this module and its readers only index, range
    over and measure them; only writing a statement as JSON tells them apart. */
module Statements {
  import opened Text
  import opened Json

  const STATEMENT_TYPE := "https://in-toto.io/Statement/v1"
  const PREDICATE_TYPE := "https://scoutmcp.io/attestation/mcp-evaluation/v1"
  const SUBJECT_KIND_DESCRIPTOR := "mcp-target-descriptor"

  datatype Statement = Statement(
    typ: string, subject: seq<Subject>, predicateType: string, evaluation: Evaluation)

  datatype Subject = Subject(name: string, digest: map<string, string>)

  datatype Evaluation = Evaluation(
    subjectKind: string, target: Target, judgedAgainst: Basis, instrument: Instrument,
    ranAt: Timestamp, took: string, verdicts: seq<Verdict>, counts: Counts, score: Option<Score>,
    blocked: string, traceId: string, plan: Option<Plan>)

  /** An instant: whether it is the zero time, and how it is written in JSON. */
  datatype Timestamp = Timestamp(isZero: bool, text: string)

  /** The run specification is raw JSON, `JNull` when there is none. */
  datatype Plan = Plan(
    spec: JSON, credentials: string, byValue: seq<string>, os: string, arch: string, kernel: string)

  datatype Target = Target(transport: string, endpoint: string, server: Option<ServerIdentity>)

  datatype ServerIdentity = ServerIdentity(name: string, version: string, protocol: string)

  datatype Basis = Basis(specRevision: string, rubric: string, checkInventory: string)

  datatype Instrument = Instrument(name: string, version: string, schemaVersion: int)

  datatype Verdict = Verdict(
    id: string, phase: string, status: string, severity: string, evidence: seq<string>, doc: string)

  datatype Counts = Counts(pass: int, warn: int, fail: int, skip: int, info: int)

  datatype Score = Score(total: real, grade: string, assessed: int, of: int, byCategory: map<string, real>)

  /** A digest of a string, such as hexadecimal SHA-256. Nothing is assumed about it. */
  type Digest = string -> string

  /** The canonical string the subject digest covers. */
  function Descriptor(transport: string, endpoint: string): string {
    transport + "\n" + TrimSpace(endpoint)
  }

  function SubjectFor(digest: Digest, t: Target): Subject {
    Subject(t.endpoint, map["sha256" := digest(Descriptor(t.transport, t.endpoint))])
  }

  /** The digest recorded for the one subject, empty when there is none. */
  function SubjectDigest(s: Statement): string {
    if |s.subject| == 1 then Lookup(s.subject[0].digest, "sha256") else ""
  }

  /** The first verdict recorded for an id. */
  function FirstVerdict(verdicts: seq<Verdict>, id: string): Option<Verdict> {
    if verdicts == [] then None
    else if verdicts[0].id == id then Some(verdicts[0])
    else FirstVerdict(verdicts[1..], id)
  }

  lemma {:induction false} FirstVerdictAt(verdicts: seq<Verdict>, i: nat)
    requires i < |verdicts|
    requires forall k :: 0 <= k < i ==> verdicts[k].id != verdicts[i].id
    ensures FirstVerdict(verdicts, verdicts[i].id) == Some(verdicts[i])
  {
    if i == 0 {
    } else {
      FirstVerdictAt(verdicts[1..], i - 1);
    }
  }

  lemma {:induction false} FirstVerdictNone(verdicts: seq<Verdict>, id: string)
    ensures FirstVerdict(verdicts, id) == None <==> forall v <- verdicts :: v.id != id
  {
    if verdicts == [] {
    } else {
      FirstVerdictNone(verdicts[1..], id);
      assert verdicts == [verdicts[0]] + verdicts[1..];
    }
  }

  lemma {:induction false} FirstVerdictSome(verdicts: seq<Verdict>, id: string) returns (i: nat)
    requires FirstVerdict(verdicts, id).Some?
    ensures i < |verdicts| && verdicts[i].id == id && FirstVerdict(verdicts, id) == Some(verdicts[i])
    ensures forall k :: 0 <= k < i ==> verdicts[k].id != id
  {
    if verdicts[0].id == id {
      i := 0;
    } else {
      var j := FirstVerdictSome(verdicts[1..], id);
      i := j + 1;
    }
  }
}
