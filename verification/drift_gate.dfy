/** What comparing two statements says about the gate, and what it cannot. */
module DriftGate {
  import opened Text
  import opened Statements
  import opened Verifier
  import opened Drift
  import opened DriftLaws
  import opened GateConfig
  import opened Deciding

  /** A check keeps its category from one statement to the next. */
  ghost predicate StablePhases(before: Statement, after: Statement) {
    forall v <- before.evaluation.verdicts, w <- after.evaluation.verdicts :: v.id == w.id ==> v.phase == w.phase
  }

  ghost predicate NothingDisqualifies(p: Policy, s: Statement) {
    forall v <- s.evaluation.verdicts :: !Disqualifies(p.denyFailIn, v)
  }

  /** A later verdict of an id already recorded, which the comparison does not see. */
  ghost predicate Shadowed(s: Statement, i: nat) {
    i < |s.evaluation.verdicts| && exists k :: 0 <= k < i && s.evaluation.verdicts[k].id == s.evaluation.verdicts[i].id
  }

  ghost predicate ShadowsClear(p: Policy, s: Statement) {
    forall i: nat | Shadowed(s, i) :: !Disqualifies(p.denyFailIn, s.evaluation.verdicts[i])
  }

  /** Nothing got worse or came in new. */
  ghost predicate NothingWorse(before: Statement, after: Statement) {
    DeltaOf(before, after).regressed == [] && DeltaOf(before, after).added == []
  }

  /** A first verdict that fails was failing before. */
  lemma FailedBefore(before: Statement, after: Statement, i: nat)
    requires NothingWorse(before, after) && i < |after.evaluation.verdicts| && !Shadowed(after, i)
    requires after.evaluation.verdicts[i].status == "fail"
    ensures exists v <- before.evaluation.verdicts :: v.id == after.evaluation.verdicts[i].id && v.status == "fail"
  {
    var w := after.evaluation.verdicts[i];
    FirstVerdictAt(after.evaluation.verdicts, i);
    NamedByExact(before, after, Regressed, w.id);
    NamedByExact(before, after, Added, w.id);
    var k := FirstVerdictSome(before.evaluation.verdicts, w.id);
    assert before.evaluation.verdicts[k] in before.evaluation.verdicts;
  }

  /** A check that fails in both, and moved from a category that is not denied into one that is. */
  ghost predicate MovedInto(p: Policy, before: Statement, after: Statement) {
    exists v <- before.evaluation.verdicts, w <- after.evaluation.verdicts ::
      v.id == w.id && v.status == w.status == "fail" && v.phase !in p.denyFailIn && w.phase in p.denyFailIn
  }

  /** Drift bounds the gate. If the earlier statement has no disqualifying verdict and the comparison
      reports nothing regressed and nothing added, the later one has none exactly when none of its
      repeated verdicts disqualifies and no failing check moved into a denied category. */
  lemma DriftBoundsGate(p: Policy, before: Statement, after: Statement)
    requires NothingWorse(before, after) && NothingDisqualifies(p, before)
    ensures NothingDisqualifies(p, after) <==> ShadowsClear(p, after) && !MovedInto(p, before, after)
  {
    var verdicts := after.evaluation.verdicts;
    if ShadowsClear(p, after) && !MovedInto(p, before, after) {
      forall i: nat | i < |verdicts| ensures !Disqualifies(p.denyFailIn, verdicts[i]) {
        if !Shadowed(after, i) && verdicts[i].status == "fail" {
          FailedBefore(before, after, i);
        }
      }
    }
  }

  /** With distinct ids and every check kept in its category, there is nothing left to look at. */
  lemma DriftBoundsGateAlone(p: Policy, before: Statement, after: Statement)
    requires NothingWorse(before, after) && NothingDisqualifies(p, before)
    requires StablePhases(before, after) && forall i: nat :: !Shadowed(after, i)
    ensures NothingDisqualifies(p, after)
  {
    DriftBoundsGate(p, before, after);
  }

  /** The same for the whole decision. On one basis, an entry that was allowed stays allowed exactly
      when no repeated verdict disqualifies, no failing check moved into a denied category, and the
      score reported after still meets the minimum, which it does if it has not fallen. */
  lemma DriftBoundsDecision(p: Policy, before: Statement, after: Statement)
    requires NothingWorse(before, after)
    requires DecisionFor(p, Some(Verified(before))).allow
    ensures var d := DeltaOf(before, after);
      && (d.comparable ==>
            (DecisionFor(p, Some(Verified(after))).allow <==>
             ShadowsClear(p, after) && !MovedInto(p, before, after) &&
             (p.minScore > 0.0 ==> d.scoreTo.Some? && d.scoreTo.value >= p.minScore)))
      && (p.minScore > 0.0 && d.scoreTo.Some? ==>
            d.scoreFrom.Some? && (d.scoreTo.value >= d.scoreFrom.value ==> d.scoreTo.value >= p.minScore))
  {
    AllowExact(p, Some(Verified(before)));
    AllowExact(p, Some(Verified(after)));
    DriftBoundsGate(p, before, after);
  }

  lemma SameMeasuredSameView(s: Statement, t: Statement)
    requires forall id :: MeasuredAt(s, id) == MeasuredAt(t, id)
    ensures ViewOf(s) == ViewOf(t)
  {
    forall id ensures id in ViewOf(s) <==> id in ViewOf(t) {
      ViewAt(s, id);
      ViewAt(t, id);
    }
    forall id <- ViewOf(s) ensures ViewOf(s)[id] == ViewOf(t)[id] {
      ViewAt(s, id);
      ViewAt(t, id);
    }
  }

  // ---------------------------------------------------------------- repeated ids

  /** The statement with the verdict's check recorded once more, as failing. */
  function Repeated(s: Statement, v: Verdict): Statement {
    s.(evaluation := s.evaluation.(
      verdicts := s.evaluation.verdicts + [v.(status := "fail")], counts := Count(s.evaluation.counts, "fail")))
  }

  lemma RepeatedAccepted(digest: Digest, s: Statement, v: Verdict)
    requires Accepted(digest, s) && v in s.evaluation.verdicts
    ensures Accepted(digest, Repeated(s, v))
  {
    var verdicts := Repeated(s, v).evaluation.verdicts;
    var n := |s.evaluation.verdicts|;
    assert verdicts[..n] == s.evaluation.verdicts && verdicts[..n + 1] == verdicts;
    TallySteps(verdicts, n);
  }

  lemma RepeatedMeasuresTheSame(s: Statement, v: Verdict)
    requires v in s.evaluation.verdicts
    ensures ViewOf(Repeated(s, v)) == ViewOf(s)
  {
    forall id ensures MeasuredAt(Repeated(s, v), id) == MeasuredAt(s, id) {
      FirstVerdictAppend(s.evaluation.verdicts, v.(status := "fail"), id);
      FirstVerdictNone(s.evaluation.verdicts, id);
    }
    SameMeasuredSameView(Repeated(s, v), s);
  }

  /** Repeated verdicts have to be looked at: any accepted statement with a check in a denied category
      can record that check once more, as failing, and stay accepted. The comparison then lists
      nothing, and the gate, which sees every verdict, denies. */
  lemma RepeatedIdEscapesComparison(digest: Digest, p: Policy, s: Statement, v: Verdict)
    requires Accepted(digest, s) && v in s.evaluation.verdicts && v.phase in p.denyFailIn
    ensures var after := Repeated(s, v);
      && Accepted(digest, after) && NoChange(DeltaOf(s, after))
      && (StablePhases(s, s) ==> StablePhases(s, after))
      && !NothingDisqualifies(p, after) && !DecisionFor(p, Some(Verified(after))).allow
  {
    var after := Repeated(s, v);
    RepeatedAccepted(digest, s, v);
    RepeatedMeasuresTheSame(s, v);
    EmptyDeltaExact(s, after);
    var n := |s.evaluation.verdicts|;
    assert after.evaluation.verdicts[n] in after.evaluation.verdicts;
    assert Disqualifies(p.denyFailIn, after.evaluation.verdicts[n]);
    AllowExact(p, Some(Verified(after)));
  }

  /** One such input: a statement the gate allows, and its repetition. Every check keeps its
      category. */
  lemma RepeatedIdExample(digest: Digest)
    requires digest(Descriptor("http", "x")) != ""
    ensures var p, s := Policy(0.0, ["auth"], None), Example(digest, "auth", "pass");
      var after := Repeated(s, s.evaluation.verdicts[0]);
      && Accepted(digest, s) && Accepted(digest, after) && StablePhases(s, after)
      && DecisionFor(p, Some(Verified(s))).allow && !DecisionFor(p, Some(Verified(after))).allow
      && NoChange(DeltaOf(s, after))
  {
    var p, s := Policy(0.0, ["auth"], None), Example(digest, "auth", "pass");
    ExampleAccepted(digest, "auth", "pass");
    assert "auth" in p.denyFailIn by { assert p.denyFailIn[0] == "auth"; }
    AllowExact(p, Some(Verified(s)));
    RepeatedIdEscapesComparison(digest, p, s, s.evaluation.verdicts[0]);
  }

  // ---------------------------------------------------------------- checks that change category

  /** The statement with one verdict filed under another category. */
  function Refiled(s: Statement, i: nat, phase: string): Statement
    requires i < |s.evaluation.verdicts|
  {
    var v := s.evaluation.verdicts[i];
    s.(evaluation := s.evaluation.(verdicts := s.evaluation.verdicts[i := v.(phase := phase)]))
  }

  lemma RefiledAccepted(digest: Digest, s: Statement, i: nat, phase: string)
    requires Accepted(digest, s) && i < |s.evaluation.verdicts|
    ensures Accepted(digest, Refiled(s, i, phase))
  {
    var verdicts, refiled := s.evaluation.verdicts, Refiled(s, i, phase).evaluation.verdicts;
    forall status ensures WithStatus(refiled, status) == WithStatus(verdicts, status) {
    }
  }

  lemma {:induction false} FirstVerdictRefiled(verdicts: seq<Verdict>, i: nat, phase: string, id: string)
    requires i < |verdicts|
    ensures var first := FirstVerdict(verdicts, id);
      var refiled := FirstVerdict(verdicts[i := verdicts[i].(phase := phase)], id);
      && (first.None? <==> refiled.None?)
      && (first.Some? ==> first.value.status == refiled.value.status && first.value.severity == refiled.value.severity)
  {
    var after := verdicts[i := verdicts[i].(phase := phase)];
    if i == 0 {
      assert after[1..] == verdicts[1..];
    } else {
      assert after[1..] == verdicts[1..][i - 1 := verdicts[i].(phase := phase)];
      FirstVerdictRefiled(verdicts[1..], i - 1, phase, id);
    }
  }

  /** Nor is looking at repeated verdicts enough: any accepted statement with a failing check can file
      it under a denied category and stay accepted. The comparison does not look at categories, and
      lists nothing; the gate denies. */
  lemma RefiledEscapesComparison(digest: Digest, p: Policy, s: Statement, i: nat, phase: string)
    requires Accepted(digest, s) && i < |s.evaluation.verdicts|
    requires s.evaluation.verdicts[i].status == "fail" && phase in p.denyFailIn
    ensures var after := Refiled(s, i, phase);
      && Accepted(digest, after) && NoChange(DeltaOf(s, after))
      && (ShadowsClear(p, s) && !Shadowed(s, i) ==> ShadowsClear(p, after))
      && !NothingDisqualifies(p, after) && !DecisionFor(p, Some(Verified(after))).allow
  {
    var after := Refiled(s, i, phase);
    RefiledAccepted(digest, s, i, phase);
    forall id ensures MeasuredAt(s, id) == MeasuredAt(after, id) {
      FirstVerdictRefiled(s.evaluation.verdicts, i, phase, id);
    }
    SameMeasuredSameView(s, after);
    EmptyDeltaExact(s, after);
    if ShadowsClear(p, s) && !Shadowed(s, i) {
      RefiledShadows(p, s, i, phase);
    }
    assert after.evaluation.verdicts[i] in after.evaluation.verdicts;
    assert Disqualifies(p.denyFailIn, after.evaluation.verdicts[i]);
    AllowExact(p, Some(Verified(after)));
  }

  lemma RefiledShadows(p: Policy, s: Statement, i: nat, phase: string)
    requires i < |s.evaluation.verdicts| && ShadowsClear(p, s) && !Shadowed(s, i)
    ensures ShadowsClear(p, Refiled(s, i, phase))
  {
    forall j: nat | Shadowed(Refiled(s, i, phase), j)
      ensures !Disqualifies(p.denyFailIn, Refiled(s, i, phase).evaluation.verdicts[j])
    {
      assert Shadowed(s, j);
    }
  }

  /** One such input: a statement the gate allows, and the same with its check filed elsewhere. No id
      is repeated. */
  lemma RefiledExample(digest: Digest)
    requires digest(Descriptor("http", "x")) != ""
    ensures var p, s := Policy(0.0, ["auth"], None), Example(digest, "protocol", "fail");
      var after := Refiled(s, 0, "auth");
      && Accepted(digest, s) && Accepted(digest, after) && (forall i: nat :: !Shadowed(after, i))
      && DecisionFor(p, Some(Verified(s))).allow && !DecisionFor(p, Some(Verified(after))).allow
      && NoChange(DeltaOf(s, after))
  {
    var p, s := Policy(0.0, ["auth"], None), Example(digest, "protocol", "fail");
    ExampleAccepted(digest, "protocol", "fail");
    assert "auth" in p.denyFailIn by { assert p.denyFailIn[0] == "auth"; }
    AllowExact(p, Some(Verified(s)));
    RefiledEscapesComparison(digest, p, s, 0, "auth");
  }
}
