/** The offline verifier: what makes a statement interpretable, and which target it is about. */
module Verifier {
  import opened Text
  import opened Statements

  /** Every way a statement can fail, `i` being the index of the verdict at fault. */
  datatype Problem =
    | WrongType
    | WrongPredicateType
    | NoSubject
    | SeveralSubjects
    | SubjectUnnamed
    | SubjectNamedOtherwise
    | NoDigest
    | DigestDoesNotCover
    | WrongSubjectKind
    | NoEndpoint
    | NoTransport
    | UnknownTransport
    | NoInstrument
    | NoRunTime
    | NoVerdicts
    | NoCheckInventory
    | ScoreWithoutRubric
    | VerdictWithoutId(i: nat)
    | UnknownStatus(i: nat)
    | CountsDisagree

  predicate KnownStatus(status: string) {
    status == "pass" || status == "warn" || status == "fail" || status == "skip" || status == "info"
  }

  predicate KnownTransport(transport: string) {
    transport == "http" || transport == "stdio"
  }

  /** The verdicts that carry an id and the given status. */
  ghost function WithStatus(verdicts: seq<Verdict>, status: string): set<nat> {
    set i: nat | i < |verdicts| && verdicts[i].id != "" && verdicts[i].status == status
  }

  /** The counts a statement must declare: how many identified verdicts have each status. */
  ghost function Tally(verdicts: seq<Verdict>): Counts {
    Counts(
      |WithStatus(verdicts, "pass")|, |WithStatus(verdicts, "warn")|, |WithStatus(verdicts, "fail")|,
      |WithStatus(verdicts, "skip")|, |WithStatus(verdicts, "info")|)
  }

  // What each problem says about the statement, part by part.

  ghost predicate EnvelopeProblem(s: Statement, p: Problem) {
    match p
    case WrongType => s.typ != STATEMENT_TYPE
    case WrongPredicateType => s.predicateType != PREDICATE_TYPE
    case _ => false
  }

  ghost predicate SubjectProblem(digest: Digest, s: Statement, p: Problem) {
    var t := s.evaluation.target;
    match p
    case NoSubject => s.subject == []
    case SeveralSubjects => |s.subject| > 1
    case SubjectUnnamed => |s.subject| == 1 && TrimSpace(s.subject[0].name) == ""
    case SubjectNamedOtherwise =>
      && |s.subject| == 1 && TrimSpace(s.subject[0].name) != ""
      && TrimSpace(s.subject[0].name) != TrimSpace(t.endpoint)
    case NoDigest => |s.subject| == 1 && SubjectDigest(s) == ""
    case DigestDoesNotCover =>
      |s.subject| == 1 && SubjectDigest(s) != "" && SubjectDigest(s) != digest(Descriptor(t.transport, t.endpoint))
    case _ => false
  }

  ghost predicate TargetProblem(e: Evaluation, p: Problem) {
    match p
    case WrongSubjectKind => e.subjectKind != SUBJECT_KIND_DESCRIPTOR
    case NoEndpoint => TrimSpace(e.target.endpoint) == ""
    case NoTransport => e.target.transport == ""
    case UnknownTransport => e.target.transport != "" && !KnownTransport(e.target.transport)
    case _ => false
  }

  ghost predicate RunProblem(e: Evaluation, p: Problem) {
    match p
    case NoInstrument => e.instrument.name == "" || e.instrument.version == ""
    case NoRunTime => e.ranAt.isZero
    case NoVerdicts => e.verdicts == []
    case NoCheckInventory => e.judgedAgainst.checkInventory == ""
    case ScoreWithoutRubric => e.score.Some? && e.judgedAgainst.rubric == ""
    case _ => false
  }

  ghost predicate VerdictProblem(e: Evaluation, p: Problem) {
    match p
    case VerdictWithoutId(i) => i < |e.verdicts| && e.verdicts[i].id == ""
    case UnknownStatus(i) => i < |e.verdicts| && e.verdicts[i].id != "" && !KnownStatus(e.verdicts[i].status)
    case CountsDisagree => e.verdicts != [] && e.counts != Tally(e.verdicts)
    case _ => false
  }

  ghost predicate HasProblem(digest: Digest, s: Statement, p: Problem) {
    EnvelopeProblem(s, p) || SubjectProblem(digest, s, p) ||
    TargetProblem(s.evaluation, p) || RunProblem(s.evaluation, p) || VerdictProblem(s.evaluation, p)
  }

  // The statements the verifier accepts: the guarantees of the format, stated positively.

  ghost predicate AcceptedEnvelope(s: Statement) {
    s.typ == STATEMENT_TYPE && s.predicateType == PREDICATE_TYPE
  }

  ghost predicate AcceptedSubject(digest: Digest, s: Statement) {
    var t := s.evaluation.target;
    && |s.subject| == 1
    && TrimSpace(s.subject[0].name) == TrimSpace(t.endpoint)
    && TrimSpace(s.subject[0].name) != ""
    && SubjectDigest(s) == digest(Descriptor(t.transport, t.endpoint))
    && SubjectDigest(s) != ""
  }

  ghost predicate AcceptedTarget(e: Evaluation) {
    && e.subjectKind == SUBJECT_KIND_DESCRIPTOR
    && TrimSpace(e.target.endpoint) != ""
    && KnownTransport(e.target.transport)
  }

  ghost predicate AcceptedRun(e: Evaluation) {
    && e.instrument.name != "" && e.instrument.version != ""
    && !e.ranAt.isZero
    && e.verdicts != []
    && e.judgedAgainst.checkInventory != ""
    && (e.score.Some? ==> e.judgedAgainst.rubric != "")
  }

  ghost predicate AcceptedVerdicts(e: Evaluation) {
    && (forall i :: 0 <= i < |e.verdicts| ==> e.verdicts[i].id != "" && KnownStatus(e.verdicts[i].status))
    && (e.verdicts != [] ==> e.counts == Tally(e.verdicts))
  }

  ghost predicate Accepted(digest: Digest, s: Statement) {
    AcceptedEnvelope(s) && AcceptedSubject(digest, s) && AcceptedTarget(s.evaluation) &&
    AcceptedRun(s.evaluation) && AcceptedVerdicts(s.evaluation)
  }

  lemma SubjectProblemsExact(digest: Digest, s: Statement)
    ensures AcceptedSubject(digest, s) <==> forall p :: !SubjectProblem(digest, s, p)
  {
    if forall p :: !SubjectProblem(digest, s, p) {
      assert !SubjectProblem(digest, s, NoSubject) && !SubjectProblem(digest, s, SeveralSubjects);
      assert !SubjectProblem(digest, s, SubjectUnnamed) && !SubjectProblem(digest, s, SubjectNamedOtherwise);
      assert !SubjectProblem(digest, s, NoDigest) && !SubjectProblem(digest, s, DigestDoesNotCover);
    }
  }

  /** Which digest is looked at: the one named sha256, of the only subject. */
  lemma NoDigestExact(digest: Digest, s: Statement)
    ensures SubjectProblem(digest, s, NoDigest) <==>
            && |s.subject| == 1
            && ("sha256" in s.subject[0].digest ==> s.subject[0].digest["sha256"] == "")
    ensures SubjectProblem(digest, s, DigestDoesNotCover) ==>
            "sha256" in s.subject[0].digest && s.subject[0].digest["sha256"] != ""
  {
  }

  lemma EnvelopeProblemsExact(s: Statement)
    ensures AcceptedEnvelope(s) <==> forall p :: !EnvelopeProblem(s, p)
  {
    if forall p :: !EnvelopeProblem(s, p) {
      assert !EnvelopeProblem(s, WrongType) && !EnvelopeProblem(s, WrongPredicateType);
    }
  }

  lemma TargetProblemsExact(e: Evaluation)
    ensures AcceptedTarget(e) <==> forall p :: !TargetProblem(e, p)
  {
    if forall p :: !TargetProblem(e, p) {
      assert !TargetProblem(e, WrongSubjectKind) && !TargetProblem(e, NoEndpoint);
      assert !TargetProblem(e, NoTransport) && !TargetProblem(e, UnknownTransport);
    }
  }

  lemma RunProblemsExact(e: Evaluation)
    ensures AcceptedRun(e) <==> forall p :: !RunProblem(e, p)
  {
    if forall p :: !RunProblem(e, p) {
      assert !RunProblem(e, NoInstrument) && !RunProblem(e, NoRunTime) && !RunProblem(e, NoVerdicts);
      assert !RunProblem(e, NoCheckInventory) && !RunProblem(e, ScoreWithoutRubric);
    }
  }

  lemma VerdictProblemsExact(e: Evaluation)
    ensures AcceptedVerdicts(e) <==> forall p :: !VerdictProblem(e, p)
  {
    if forall p :: !VerdictProblem(e, p) {
      forall i: nat | i < |e.verdicts| ensures e.verdicts[i].id != "" && KnownStatus(e.verdicts[i].status) {
        assert !VerdictProblem(e, VerdictWithoutId(i)) && !VerdictProblem(e, UnknownStatus(i));
      }
      assert !VerdictProblem(e, CountsDisagree);
    }
  }

  /** Accepting is having none of the problems. */
  lemma AcceptedIffNoProblem(digest: Digest, s: Statement)
    ensures Accepted(digest, s) <==> forall p :: !HasProblem(digest, s, p)
  {
    SubjectProblemsExact(digest, s);
    EnvelopeProblemsExact(s);
    TargetProblemsExact(s.evaluation);
    RunProblemsExact(s.evaluation);
    VerdictProblemsExact(s.evaluation);
    if forall p :: !HasProblem(digest, s, p) {
      forall p
        ensures !EnvelopeProblem(s, p) && !SubjectProblem(digest, s, p)
        ensures !TargetProblem(s.evaluation, p) && !RunProblem(s.evaluation, p) && !VerdictProblem(s.evaluation, p)
      {
        assert !HasProblem(digest, s, p);
      }
    }
  }

  lemma TallyStep(verdicts: seq<Verdict>, n: nat, status: string)
    requires n < |verdicts|
    ensures |WithStatus(verdicts[..n + 1], status)| ==
            |WithStatus(verdicts[..n], status)| +
            if verdicts[n].id != "" && verdicts[n].status == status then 1 else 0
  {
    var old', new' := WithStatus(verdicts[..n], status), WithStatus(verdicts[..n + 1], status);
    assert n !in old';
    assert new' == old' + if verdicts[n].id != "" && verdicts[n].status == status then {n} else {};
  }

  lemma TallyEmpty()
    ensures Tally([]) == Counts(0, 0, 0, 0, 0)
  {
  }

  lemma TallySteps(verdicts: seq<Verdict>, n: nat)
    requires n < |verdicts|
    ensures Tally(verdicts[..n + 1]) ==
            if verdicts[n].id == "" then Tally(verdicts[..n]) else Count(Tally(verdicts[..n]), verdicts[n].status)
  {
    TallyStep(verdicts, n, "pass");
    TallyStep(verdicts, n, "warn");
    TallyStep(verdicts, n, "fail");
    TallyStep(verdicts, n, "skip");
    TallyStep(verdicts, n, "info");
  }

  /** One more verdict of a status in the counts. */
  function Count(c: Counts, status: string): Counts {
    match status
    case "pass" => c.(pass := c.pass + 1)
    case "warn" => c.(warn := c.warn + 1)
    case "fail" => c.(fail := c.fail + 1)
    case "skip" => c.(skip := c.skip + 1)
    case "info" => c.(info := c.info + 1)
    case _ => c
  }

  /** Records a problem when its condition holds. */
  method Note(problems: seq<Problem>, flawed: bool, p: Problem) returns (r: seq<Problem>)
    ensures forall q :: q in r <==> q in problems || (flawed && q == p)
  {
    r := if flawed then problems + [p] else problems;
  }

  /** The statement and predicate types. */
  method ValidateEnvelope(s: Statement) returns (problems: seq<Problem>)
    ensures forall p :: p in problems <==> EnvelopeProblem(s, p)
  {
    problems := [];
    problems := Note(problems, s.typ != STATEMENT_TYPE, WrongType);
    problems := Note(problems, s.predicateType != PREDICATE_TYPE, WrongPredicateType);
  }

  /** The name of the one subject: there, and the target's. */
  method ValidateName(digest: Digest, s: Statement) returns (problems: seq<Problem>)
    requires |s.subject| == 1
    ensures forall p :: p in problems <==>
      (p.SubjectUnnamed? || p.SubjectNamedOtherwise?) && SubjectProblem(digest, s, p)
  {
    hide TrimSpace;
    var name := TrimSpace(s.subject[0].name);
    var want := TrimSpace(s.evaluation.target.endpoint);
    problems := Note([], name == "", SubjectUnnamed);
    problems := Note(problems, name != "" && name != want, SubjectNamedOtherwise);
  }

  /** The digest of the one subject: there, and the target's. */
  method ValidateDigest(digest: Digest, s: Statement) returns (problems: seq<Problem>)
    requires |s.subject| == 1
    ensures forall p :: p in problems <==>
      (p.NoDigest? || p.DigestDoesNotCover?) && SubjectProblem(digest, s, p)
  {
    hide TrimSpace, Descriptor;
    var target := s.evaluation.target;
    var got := Lookup(s.subject[0].digest, "sha256");
    var expected := digest(Descriptor(target.transport, target.endpoint));
    problems := Note([], got == "", NoDigest);
    problems := Note(problems, got != "" && got != expected, DigestDoesNotCover);
  }

  /** The one subject: its name, and the digest that ties it to the target. */
  method ValidateSubject(digest: Digest, s: Statement) returns (problems: seq<Problem>)
    ensures forall p :: p in problems <==> SubjectProblem(digest, s, p)
  {
    hide TrimSpace, Descriptor;
    if |s.subject| == 1 {
      var named := ValidateName(digest, s);
      var digested := ValidateDigest(digest, s);
      problems := named + digested;
    } else {
      problems := Note([], |s.subject| == 0, NoSubject);
      problems := Note(problems, |s.subject| != 0, SeveralSubjects);
    }
  }

  /** The kind of subject and the target. */
  method ValidateTarget(e: Evaluation) returns (problems: seq<Problem>)
    ensures forall p :: p in problems <==> TargetProblem(e, p)
  {
    var target := e.target;
    problems := [];
    problems := Note(problems, e.subjectKind != SUBJECT_KIND_DESCRIPTOR, WrongSubjectKind);
    problems := Note(problems, TrimSpace(target.endpoint) == "", NoEndpoint);
    problems := Note(problems, target.transport == "", NoTransport);
    problems := Note(problems, target.transport != "" && !KnownTransport(target.transport), UnknownTransport);
  }

  /** The instrument, the moment, and the basis that gives a verdict a shelf life. */
  method ValidateRun(e: Evaluation) returns (problems: seq<Problem>)
    ensures forall p :: p in problems <==> RunProblem(e, p)
  {
    problems := [];
    problems := Note(problems, e.instrument.name == "" || e.instrument.version == "", NoInstrument);
    problems := Note(problems, e.ranAt.isZero, NoRunTime);
    problems := Note(problems, |e.verdicts| == 0, NoVerdicts);
    problems := Note(problems, e.judgedAgainst.checkInventory == "", NoCheckInventory);
    problems := Note(problems, e.score.Some? && e.judgedAgainst.rubric == "", ScoreWithoutRubric);
  }

  /** The verdict loop: identifiers, statuses and the counts they add up to. */
  method ValidateVerdicts(e: Evaluation) returns (problems: seq<Problem>)
    ensures forall p :: p in problems <==> VerdictProblem(e, p)
  {
    hide Tally, Count;
    var counted := Counts(0, 0, 0, 0, 0);
    problems := [];
    TallyEmpty();
    assert e.verdicts[..0] == [];
    for i := 0 to |e.verdicts|
      invariant forall p :: p in problems <==> !p.CountsDisagree? && VerdictProblem(e, p) && p.i < i
      invariant counted == Tally(e.verdicts[..i])
    {
      var v := e.verdicts[i];
      TallySteps(e.verdicts, i);
      if v.id == "" {
        problems := Note(problems, true, VerdictWithoutId(i));
        continue;
      }
      problems := Note(problems, !KnownStatus(v.status), UnknownStatus(i));
      counted := Count(counted, v.status);
    }
    assert e.verdicts[..|e.verdicts|] == e.verdicts;
    problems := Note(problems, |e.verdicts| > 0 && counted != e.counts, CountsDisagree);
  }

  /** Lists every problem of the statement and nothing else; a statement with none is accepted. */
  method Validate(digest: Digest, s: Statement) returns (problems: seq<Problem>)
    ensures forall p :: p in problems <==> HasProblem(digest, s, p)
    ensures problems == [] <==> Accepted(digest, s)
  {
    var envelope := ValidateEnvelope(s);
    var subject := ValidateSubject(digest, s);
    var target := ValidateTarget(s.evaluation);
    var run := ValidateRun(s.evaluation);
    var verdicts := ValidateVerdicts(s.evaluation);
    problems := envelope + subject + target + run + verdicts;
    AcceptedIffNoProblem(digest, s);
    if problems != [] {
      assert HasProblem(digest, s, problems[0]);
    }
  }

  /** Searches for the outcome recorded for a check id, the first when there are several. */
  method VerdictFor(s: Statement, id: string) returns (v: Option<Verdict>)
    ensures v == FirstVerdict(s.evaluation.verdicts, id)
    ensures v == None <==> forall w <- s.evaluation.verdicts :: w.id != id
  {
    var verdicts := s.evaluation.verdicts;
    for i := 0 to |verdicts|
      invariant forall k :: 0 <= k < i ==> verdicts[k].id != id
    {
      if verdicts[i].id == id {
        FirstVerdictAt(verdicts, i);
        return Some(verdicts[i]);
      }
    }
    FirstVerdictNone(verdicts, id);
    return None;
  }

  /** Nothing an accepted statement must have can be spared: whichever one part is taken away or made
      to disagree, the statement is refused. */
  lemma NothingSpared(digest: Digest, s: Statement, other: string)
    requires Accepted(digest, s)
    ensures other != STATEMENT_TYPE ==> !Accepted(digest, s.(typ := other))
    ensures other != PREDICATE_TYPE ==> !Accepted(digest, s.(predicateType := other))
    ensures !Accepted(digest, s.(subject := [])) && !Accepted(digest, s.(subject := s.subject + s.subject))
    ensures TrimSpace(other) != TrimSpace(s.subject[0].name) ==>
      !Accepted(digest, s.(subject := [s.subject[0].(name := other)]))
    ensures other != s.subject[0].digest["sha256"] ==>
      !Accepted(digest, s.(subject := [s.subject[0].(digest := map["sha256" := other])]))
    ensures var e := s.evaluation;
      && (other != SUBJECT_KIND_DESCRIPTOR ==> !Accepted(digest, s.(evaluation := e.(subjectKind := other))))
      && (TrimSpace(other) != TrimSpace(e.target.endpoint) ==>
            !Accepted(digest, s.(evaluation := e.(target := e.target.(endpoint := other)))))
      && (other !in ["http", "stdio"] ==>
            !Accepted(digest, s.(evaluation := e.(target := e.target.(transport := other)))))
      && !Accepted(digest, s.(evaluation := e.(instrument := e.instrument.(name := ""))))
      && !Accepted(digest, s.(evaluation := e.(instrument := e.instrument.(version := ""))))
      && !Accepted(digest, s.(evaluation := e.(ranAt := e.ranAt.(isZero := true))))
      && !Accepted(digest, s.(evaluation := e.(judgedAgainst := e.judgedAgainst.(checkInventory := ""))))
      && (e.score.Some? ==> !Accepted(digest, s.(evaluation := e.(judgedAgainst := e.judgedAgainst.(rubric := "")))))
      && !Accepted(digest, s.(evaluation := e.(verdicts := [], counts := Counts(0, 0, 0, 0, 0))))
      && forall c :: c != e.counts ==> !Accepted(digest, s.(evaluation := e.(counts := c)))
  {
    hide TrimSpace, Descriptor, Tally;
    assert "http" in ["http", "stdio"] && "stdio" in ["http", "stdio"] by {
      assert ["http", "stdio"][0] == "http" && ["http", "stdio"][1] == "stdio";
    }
  }

  /** The statement with one more verdict and other counts. */
  function Appended(s: Statement, v: Verdict, counts: Counts): Statement {
    s.(evaluation := s.evaluation.(verdicts := s.evaluation.verdicts + [v], counts := counts))
  }

  /** One more verdict needs one more in the count of its own status, and in no other. */
  lemma AppendedAccepted(digest: Digest, s: Statement, v: Verdict, counts: Counts)
    requires Accepted(digest, s)
    ensures var c := s.evaluation.counts;
      Accepted(digest, Appended(s, v, counts)) <==>
      && v.id != ""
      && (|| (v.status == "pass" && counts == c.(pass := c.pass + 1))
          || (v.status == "warn" && counts == c.(warn := c.warn + 1))
          || (v.status == "fail" && counts == c.(fail := c.fail + 1))
          || (v.status == "skip" && counts == c.(skip := c.skip + 1))
          || (v.status == "info" && counts == c.(info := c.info + 1)))
  {
    hide Tally, AcceptedSubject;
    var verdicts := s.evaluation.verdicts + [v];
    var n := |s.evaluation.verdicts|;
    assert verdicts[..n] == s.evaluation.verdicts && verdicts[..n + 1] == verdicts && verdicts[n] == v;
    TallySteps(verdicts, n);
    assert AcceptedSubject(digest, Appended(s, v, counts)) by { SameSubject(digest, s, Appended(s, v, counts)); }
    assert forall i :: 0 <= i < n ==> verdicts[i] == s.evaluation.verdicts[i];
  }

  lemma SameSubject(digest: Digest, s: Statement, t: Statement)
    requires AcceptedSubject(digest, s) && t.subject == s.subject && t.evaluation.target == s.evaluation.target
    ensures AcceptedSubject(digest, t)
  {
  }

  // ---------------------------------------------------------------- which target it is about

  /** Whether the statement is about the given target, by digest. */
  predicate Covers(digest: Digest, s: Statement, transport: string, endpoint: string) {
    |s.subject| == 1 && SubjectDigest(s) == digest(Descriptor(transport, endpoint))
  }

  /** Two different strings with one digest. */
  ghost predicate Collision(digest: Digest, x: string, y: string) {
    x != y && digest(x) == digest(y)
  }

  /** The same server, as the descriptor sees it: one transport, and endpoints equal but for
      surrounding white space. */
  predicate SameTarget(t: Target, transport: string, endpoint: string) {
    t.transport == transport && TrimSpace(t.endpoint) == TrimSpace(endpoint)
  }

  lemma NewlineFreePrefix(a: string, x: string, b: string, y: string)
    requires '\n' !in a && '\n' !in b
    requires a + "\n" + x == b + "\n" + y
    ensures a == b && x == y
  {
    var s := a + "\n" + x;
    assert s[|a|] == '\n' && s[|b|] == '\n';
    assert forall k :: 0 <= k < |a| ==> s[k] == a[k] && a[k] in a;
    assert forall k :: 0 <= k < |b| ==> s[k] == b[k] && b[k] in b;
    assert a == s[..|a|] && b == s[..|b|];
    assert x == s[|a| + 1..] && y == s[|b| + 1..];
  }

  /** Descriptors of targets with newline-free transports agree exactly for the same server. */
  lemma DescriptorInjective(t: Target, transport: string, endpoint: string)
    requires '\n' !in t.transport && '\n' !in transport
    ensures Descriptor(t.transport, t.endpoint) == Descriptor(transport, endpoint)
        <==> SameTarget(t, transport, endpoint)
  {
    if Descriptor(t.transport, t.endpoint) == Descriptor(transport, endpoint) {
      NewlineFreePrefix(t.transport, TrimSpace(t.endpoint), transport, TrimSpace(endpoint));
    }
  }

  /** The restriction on transports is needed: a newline can move from one part to the other. */
  lemma DescriptorAmbiguousWithNewline()
    ensures Descriptor("http\nx", "y") == Descriptor("http", "x\ny")
    ensures !SameTarget(Target("http\nx", "y", None), "http", "x\ny")
  {
    assert TrimSpace("y") == "y" by { TrimSpaceIs("", "y", ""); assert "" + "y" + "" == "y"; }
    assert TrimSpace("x\ny") == "x\ny" by { TrimSpaceIs("", "x\ny", ""); assert "" + "x\ny" + "" == "x\ny"; }
    assert "http\nx" + "\n" + "y" == "http" + "\n" + "x\ny";
  }

  /** What coverage of an accepted statement means, in both directions: it is about that very
      server, or the digest has been shown to collide. */
  lemma CoversIdentifiesTarget(digest: Digest, s: Statement, transport: string, endpoint: string)
    requires Accepted(digest, s) && '\n' !in transport
    ensures var t := s.evaluation.target;
      Covers(digest, s, transport, endpoint) <==>
      || SameTarget(t, transport, endpoint)
      || Collision(digest, Descriptor(t.transport, t.endpoint), Descriptor(transport, endpoint))
  {
    DescriptorInjective(s.evaluation.target, transport, endpoint);
  }

  /** A trailing slash makes a different server: a statement that covers its own endpoint with a slash
      after it exhibits a digest collision. */
  lemma TrailingSlashMatters(digest: Digest, s: Statement)
    requires Accepted(digest, s)
    ensures var t := s.evaluation.target;
      Covers(digest, s, t.transport, TrimSpace(t.endpoint) + "/") <==>
      Collision(digest, Descriptor(t.transport, t.endpoint), Descriptor(t.transport, TrimSpace(t.endpoint) + "/"))
  {
    var t := s.evaluation.target;
    var core := TrimSpace(t.endpoint);
    var l, r := TrimSpaceSplits(t.endpoint);
    TrimSpaceIs("", core + "/", "");
    assert "" + (core + "/") + "" == core + "/";
    assert |core + "/"| == |core| + 1;
    CoversIdentifiesTarget(digest, s, t.transport, core + "/");
  }

  lemma PaddedTrim(l: string, s: string, r: string)
    requires Blank(l) && Blank(r)
    ensures TrimSpace(l + s + r) == TrimSpace(s)
  {
    var a, b := TrimSpaceSplits(s);
    assert l + s + r == (l + a) + TrimSpace(s) + (b + r);
    TrimSpaceIs(l + a, TrimSpace(s), b + r);
  }

  /** A producer that names its subject with SubjectFor is covered for its own target, however the
      endpoint is padded, and its subject passes every check that Validate makes of a subject. */
  lemma SubjectForVerifies(digest: Digest, s: Statement, l: string, r: string)
    requires s.subject == [SubjectFor(digest, s.evaluation.target)]
    requires Blank(l) && Blank(r)
    ensures var t := s.evaluation.target; Covers(digest, s, t.transport, l + t.endpoint + r)
    ensures forall p | SubjectProblem(digest, s, p) ::
              p == SubjectUnnamed || p == NoDigest
    ensures SubjectProblem(digest, s, SubjectUnnamed) <==> TargetProblem(s.evaluation, NoEndpoint)
  {
    hide TrimSpace, Blank;
    PaddedTrim(l, s.evaluation.target.endpoint, r);
  }

  // ---------------------------------------------------------------- statements there are

  /** A statement about one server and the outcome of one check. */
  function Example(digest: Digest, phase: string, status: string): Statement {
    var target := Target("http", "x", None);
    Statement(STATEMENT_TYPE, [SubjectFor(digest, target)], PREDICATE_TYPE, Evaluation(
      SUBJECT_KIND_DESCRIPTOR, target, Basis("", "", "1"), Instrument("scout", "1", 1),
      Timestamp(false, "2026-01-01T00:00:00Z"), "1s", [Verdict("x", phase, status, "", [], "")],
      Count(Counts(0, 0, 0, 0, 0), status), None, "", "", None))
  }

  lemma ExampleAccepted(digest: Digest, phase: string, status: string)
    requires digest(Descriptor("http", "x")) != "" && KnownStatus(status)
    ensures Accepted(digest, Example(digest, phase, status))
  {
    assert TrimSpace("x") == "x" by { TrimSpaceIs("", "x", ""); assert "" + "x" + "" == "x"; }
    hide Count;
    var verdicts := Example(digest, phase, status).evaluation.verdicts;
    assert verdicts[..0] == [] && verdicts[..1] == verdicts;
    TallyEmpty();
    TallySteps(verdicts, 0);
  }

  /** A statement with other verdicts and another score, and all that goes with them. */
  ghost function Rejudged(s: Statement, total: Option<real>, verdicts: seq<Verdict>): Statement {
    s.(evaluation := s.evaluation.(
      verdicts := verdicts, counts := Tally(verdicts),
      judgedAgainst := s.evaluation.judgedAgainst.(rubric := "1"),
      score := if total.Some? then Some(Score(total.value, "", 0, 0, map[])) else None))
  }

  lemma RejudgedAccepted(digest: Digest, s: Statement, total: Option<real>, verdicts: seq<Verdict>)
    requires Accepted(digest, s) && verdicts != []
    requires forall v <- verdicts :: v.id != "" && KnownStatus(v.status)
    ensures Accepted(digest, Rejudged(s, total, verdicts))
  {
    assert "1" != "";
  }
}
