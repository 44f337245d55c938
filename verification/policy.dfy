/** Deciding one backend against the policy. */
module Deciding {
  import opened Text
  import opened Statements
  import opened Verifier
  import opened GateConfig

  /** Why a backend has no usable statement. */
  datatype Reason = Unreadable | Invalid | DoesNotCover

  /** What the table holds for a configured backend: a verified statement, or why there is none. */
  datatype Entry = Verified(statement: Statement) | Unusable(reason: Reason)

  /** What a decision rests on. Failing checks are listed by category, in order of category, each
      with the ids that fail in it, in order of verdict. */
  datatype Cause =
    | NotConfigured
    | NoStatement(reason: Reason)
    | NoScore
    | BelowMinimum(total: real)
    | FailingChecks(parts: seq<(string, seq<string>)>)
    | MeetsPolicy

  datatype Decision = Decision(allow: bool, cause: Cause, statement: Option<Statement>)

  // ---------------------------------------------------------------- failing checks

  /** The ids that fail in a category, in order. */
  function FailingIds(category: string, verdicts: seq<Verdict>): seq<string> {
    if verdicts == [] then []
    else
      var n := |verdicts| - 1;
      FailingIds(category, verdicts[..n]) +
      if verdicts[n].status == "fail" && verdicts[n].phase == category then [verdicts[n].id] else []
  }

  /** A verdict fails in a denied category. */
  predicate Disqualifies(denyFailIn: seq<string>, v: Verdict) {
    v.status == "fail" && v.phase in denyFailIn
  }

  /** The denied categories with failing checks, each with those checks. */
  ghost predicate IsFailing(out: map<string, seq<string>>, denyFailIn: seq<string>, verdicts: seq<Verdict>) {
    && (forall cat :: cat in out <==> cat in denyFailIn && FailingIds(cat, verdicts) != [])
    && (forall cat <- out :: out[cat] == FailingIds(cat, verdicts))
  }

  lemma {:induction false} FailingIdsExact(category: string, verdicts: seq<Verdict>)
    ensures FailingIds(category, verdicts) == [] <==>
            forall v <- verdicts :: !(v.status == "fail" && v.phase == category)
  {
    if verdicts == [] {
    } else {
      var n := |verdicts| - 1;
      FailingIdsExact(category, verdicts[..n]);
      assert verdicts == verdicts[..n] + [verdicts[n]];
    }
  }

  lemma FailingNone(denyFailIn: seq<string>, verdicts: seq<Verdict>)
    ensures IsFailing(map[], denyFailIn, [])
    ensures denyFailIn == [] ==> IsFailing(map[], denyFailIn, verdicts)
  {
  }

  lemma FailingStep(out: map<string, seq<string>>, denyFailIn: seq<string>, verdicts: seq<Verdict>, v: Verdict)
    requires IsFailing(out, denyFailIn, verdicts)
    ensures IsFailing(
              if Disqualifies(denyFailIn, v)
              then out[v.phase := (if v.phase in out then out[v.phase] else []) + [v.id]] else out,
              denyFailIn, verdicts + [v])
  {
    var longer := verdicts + [v];
    assert longer[..|longer| - 1] == verdicts;
  }

  method FailingIn(p: Policy, verdicts: seq<Verdict>) returns (out: map<string, seq<string>>)
    ensures IsFailing(out, p.denyFailIn, verdicts)
  {
    hide IsFailing, FailingIds;
    out := map[];
    FailingNone(p.denyFailIn, verdicts);
    if |p.denyFailIn| == 0 {
      return;
    }
    var denied: set<string> := {};
    for i := 0 to |p.denyFailIn|
      invariant denied == set cat | cat in p.denyFailIn[..i]
    {
      denied := denied + {p.denyFailIn[i]};
    }
    assert p.denyFailIn[..|p.denyFailIn|] == p.denyFailIn;
    assert verdicts[..0] == [];
    for i := 0 to |verdicts|
      invariant IsFailing(out, p.denyFailIn, verdicts[..i])
    {
      var v := verdicts[i];
      assert verdicts[..i + 1] == verdicts[..i] + [v];
      FailingStep(out, p.denyFailIn, verdicts[..i], v);
      if v.status != "fail" || v.phase !in denied {
        continue;
      }
      var ids := if v.phase in out then out[v.phase] else [];
      out := out[v.phase := ids + [v.id]];
    }
    assert verdicts[..|verdicts|] == verdicts;
  }

  // ---------------------------------------------------------------- the decision

  /** Denied categories with failing checks. */
  ghost function FailingCategories(p: Policy, verdicts: seq<Verdict>): set<string> {
    set cat | cat in p.denyFailIn && FailingIds(cat, verdicts) != []
  }

  ghost function FailingParts(p: Policy, verdicts: seq<Verdict>): seq<(string, seq<string>)> {
    var cats := SortedSeq(FailingCategories(p, verdicts));
    seq(|cats|, i requires 0 <= i < |cats| => (cats[i], FailingIds(cats[i], verdicts)))
  }

  /** What the policy says of one backend. */
  ghost function DecisionFor(p: Policy, e: Option<Entry>): Decision {
    if e.None? then Decision(!p.Requires(), NotConfigured, None)
    else if e.value.Unusable? then Decision(!p.Requires(), NoStatement(e.value.reason), None)
    else
      var st := e.value.statement;
      var score := st.evaluation.score;
      if p.minScore > 0.0 && score.None? then Decision(false, NoScore, Some(st))
      else if p.minScore > 0.0 && score.value.total < p.minScore then
        Decision(false, BelowMinimum(score.value.total), Some(st))
      else if FailingCategories(p, st.evaluation.verdicts) != {} then
        Decision(false, FailingChecks(FailingParts(p, st.evaluation.verdicts)), Some(st))
      else Decision(true, MeetsPolicy, Some(st))
  }

  method Evaluate(p: Policy, e: Option<Entry>) returns (d: Decision)
    ensures d == DecisionFor(p, e)
  {
    if e.None? {
      return Decision(!p.Requires(), NotConfigured, None);
    }
    if e.value.Unusable? {
      return Decision(!p.Requires(), NoStatement(e.value.reason), None);
    }
    var st := e.value.statement;
    var score := st.evaluation.score;
    if p.minScore > 0.0 {
      if score.None? {
        return Decision(false, NoScore, Some(st));
      }
      if score.value.total < p.minScore {
        return Decision(false, BelowMinimum(score.value.total), Some(st));
      }
    }
    var verdicts := st.evaluation.verdicts;
    var failing := FailingIn(p, verdicts);
    assert failing.Keys == FailingCategories(p, verdicts);
    if |failing| > 0 {
      var parts := DescribeFailing(failing);
      assert parts == FailingParts(p, verdicts);
      return Decision(false, FailingChecks(parts), Some(st));
    }
    assert failing.Keys == {};
    return Decision(true, MeetsPolicy, Some(st));
  }

  /** The failing categories in order, whatever order the map yields them in. */
  method DescribeFailing(failing: map<string, seq<string>>) returns (parts: seq<(string, seq<string>)>)
    ensures var cats := SortedSeq(failing.Keys);
      |parts| == |cats| && forall i :: 0 <= i < |cats| ==> cats[i] in failing && parts[i] == (cats[i], failing[cats[i]])
  {
    var cats := SortedKeys(failing.Keys);
    parts := [];
    for i := 0 to |cats|
      invariant |parts| == i
      invariant forall k :: 0 <= k < i ==> cats[k] in failing && parts[k] == (cats[k], failing[cats[k]])
    {
      assert cats[i] in Elements(cats);
      parts := parts + [(cats[i], failing[cats[i]])];
    }
  }

  // ---------------------------------------------------------------- what a decision means

  /** A statement is good enough: scored high enough if a minimum is set, with no disqualifying
      verdict. Every verdict counts here, not only the first for its id. */
  ghost predicate Suffices(p: Policy, s: Statement) {
    && (p.minScore > 0.0 ==> s.evaluation.score.Some? && s.evaluation.score.value.total >= p.minScore)
    && (forall v <- s.evaluation.verdicts :: !Disqualifies(p.denyFailIn, v))
  }

  lemma NoFailingCategories(p: Policy, verdicts: seq<Verdict>)
    ensures FailingCategories(p, verdicts) == {} <==> forall v <- verdicts :: !Disqualifies(p.denyFailIn, v)
  {
    if FailingCategories(p, verdicts) == {} {
      forall v <- verdicts ensures !Disqualifies(p.denyFailIn, v) {
        FailingIdsExact(v.phase, verdicts);
        assert v.phase !in FailingCategories(p, verdicts);
      }
    } else {
      var cat :| cat in FailingCategories(p, verdicts);
      FailingIdsExact(cat, verdicts);
    }
  }

  /** A backend is allowed exactly when it has a sufficient statement, or has none and the policy says
      that none is required; where it says nothing, one is. */
  lemma AllowExact(p: Policy, e: Option<Entry>)
    ensures DecisionFor(p, e).allow <==>
      if e.Some? && e.value.Verified? then Suffices(p, e.value.statement) else p.requireAttestation == Some(false)
  {
    if e.Some? && e.value.Verified? {
      NoFailingCategories(p, e.value.statement.evaluation.verdicts);
    }
  }

  /** The score meets a minimum above zero, if there is one. */
  predicate ScoredEnough(p: Policy, s: Statement) {
    p.minScore > 0.0 ==> s.evaluation.score.Some? && s.evaluation.score.value.total >= p.minScore
  }

  predicate HasDisqualifying(p: Policy, s: Statement) {
    exists v <- s.evaluation.verdicts :: v.status == "fail" && v.phase in p.denyFailIn
  }

  /** What each cause means, and that every decision about a statement carries it. */
  lemma CauseExact(p: Policy, e: Option<Entry>)
    ensures var d := DecisionFor(p, e);
      && (d.cause == NotConfigured <==> e == None)
      && (forall r :: d.cause == NoStatement(r) <==> e == Some(Unusable(r)))
      && (e.Some? && e.value.Verified? ==>
            var s := e.value.statement;
            && d.statement == Some(s)
            && (d.cause == NoScore <==> p.minScore > 0.0 && s.evaluation.score == None)
            && (forall x :: d.cause == BelowMinimum(x) <==>
                  p.minScore > 0.0 && s.evaluation.score.Some? && s.evaluation.score.value.total == x < p.minScore)
            && (d.cause.FailingChecks? <==> ScoredEnough(p, s) && HasDisqualifying(p, s))
            && (d.cause == MeetsPolicy <==> ScoredEnough(p, s) && !HasDisqualifying(p, s)))
      && ((e == None || e.value.Unusable?) ==> d.statement == None)
  {
    if e.Some? && e.value.Verified? {
      NoFailingCategories(p, e.value.statement.evaluation.verdicts);
    }
  }

  ghost predicate InOrder(parts: seq<(string, seq<string>)>) {
    forall i, j :: 0 <= i < j < |parts| ==> Less(parts[i].0, parts[j].0)
  }

  ghost predicate NamesCategory(parts: seq<(string, seq<string>)>, cat: string) {
    exists i :: 0 <= i < |parts| && parts[i].0 == cat
  }

  /** The category is denied, and some check fails in it. */
  ghost predicate FailsIn(p: Policy, verdicts: seq<Verdict>, cat: string) {
    cat in p.denyFailIn && exists v <- verdicts :: v.status == "fail" && v.phase == cat
  }

  ghost predicate ListsIds(parts: seq<(string, seq<string>)>, verdicts: seq<Verdict>) {
    forall i :: 0 <= i < |parts| ==> parts[i].1 == FailingIds(parts[i].0, verdicts)
  }

  lemma PartsInOrder(p: Policy, verdicts: seq<Verdict>)
    ensures InOrder(FailingParts(p, verdicts)) && ListsIds(FailingParts(p, verdicts), verdicts)
  {
    hide FailingCategories, FailingIds, Less;
    var cats := SortedSeq(FailingCategories(p, verdicts));
    assert StrictlySorted(cats);
  }

  lemma PartNamed(p: Policy, verdicts: seq<Verdict>, cat: string)
    ensures NamesCategory(FailingParts(p, verdicts), cat) <==> cat in FailingCategories(p, verdicts)
  {
    hide FailingCategories;
    var cats := SortedSeq(FailingCategories(p, verdicts));
    var parts := FailingParts(p, verdicts);
    if cat in FailingCategories(p, verdicts) {
      assert cat in Elements(cats);
      var i :| 0 <= i < |cats| && cats[i] == cat;
      assert parts[i].0 == cat;
    }
    if i :| 0 <= i < |parts| && parts[i].0 == cat {
      assert cats[i] in Elements(cats);
    }
  }

  lemma FailingCategoryExact(p: Policy, verdicts: seq<Verdict>, cat: string)
    ensures cat in FailingCategories(p, verdicts) <==> FailsIn(p, verdicts, cat)
  {
    FailingIdsExact(cat, verdicts);
  }

  /** A denial for failing checks lists the denied categories they are in, each once and in order, with
      the ids that fail in it. */
  lemma FailingPartsExact(p: Policy, s: Statement)
    requires DecisionFor(p, Some(Verified(s))).cause.FailingChecks?
    ensures var parts := DecisionFor(p, Some(Verified(s))).cause.parts;
      && InOrder(parts) && ListsIds(parts, s.evaluation.verdicts)
      && (forall cat :: NamesCategory(parts, cat) <==> FailsIn(p, s.evaluation.verdicts, cat))
  {
    hide InOrder, ListsIds, NamesCategory, FailsIn, FailingParts, FailingCategories;
    var verdicts := s.evaluation.verdicts;
    PartsInOrder(p, verdicts);
    forall cat ensures NamesCategory(FailingParts(p, verdicts), cat) <==> FailsIn(p, verdicts, cat) {
      PartNamed(p, verdicts, cat);
      FailingCategoryExact(p, verdicts, cat);
    }
  }

  lemma FailingIdsOne(cat: string, v: Verdict)
    ensures FailingIds(cat, []) == []
    ensures FailingIds(cat, [v]) == if v.status == "fail" && v.phase == cat then [v.id] else []
  {
    assert [v][..0] == [];
  }

  /** The ids listed for a category are those of its failing verdicts, one for each, in their order:
      with what `FailingIdsOne` says of one verdict, this fixes the list. */
  lemma {:induction false} FailingIdsJoin(cat: string, a: seq<Verdict>, b: seq<Verdict>)
    ensures FailingIds(cat, a + b) == FailingIds(cat, a) + FailingIds(cat, b)
  {
    if b == [] {
      assert a + b == a;
    } else {
      var n := |b| - 1;
      FailingIdsJoin(cat, a, b[..n]);
      var whole := a + b;
      assert whole[..|whole| - 1] == a + b[..n] && whole[|whole| - 1] == b[n];
    }
  }

  /** `q` asks for no more than `p` in any of the three dimensions. */
  ghost predicate Looser(q: Policy, p: Policy) {
    && (q.minScore <= 0.0 || q.minScore <= p.minScore)
    && (forall cat <- q.denyFailIn :: cat in p.denyFailIn)
    && (p.requireAttestation == Some(false) ==> q.requireAttestation == Some(false))
  }

  /** Loosening a policy never turns an allowed backend into a denied one. */
  lemma LooserAllows(p: Policy, q: Policy, e: Option<Entry>)
    requires Looser(q, p) && DecisionFor(p, e).allow
    ensures DecisionFor(q, e).allow
  {
    AllowExact(p, e);
    AllowExact(q, e);
  }

  /** An entry the table can hold: a statement only if the verifier accepts it. */
  ghost predicate Holdable(digest: Digest, e: Option<Entry>) {
    e.Some? && e.value.Verified? ==> Accepted(digest, e.value.statement)
  }

  /** `q` allows whatever the table can hold and `p` allows. */
  ghost predicate AllowsMore(digest: Digest, q: Policy, p: Policy) {
    forall e | Holdable(digest, e) && DecisionFor(p, e).allow :: DecisionFor(q, e).allow
  }

  lemma AllowedSample(digest: Digest, s: Statement, p: Policy, q: Policy, total: Option<real>, v: Verdict)
    requires AllowsMore(digest, q, p) && Accepted(digest, s) && v.id != "" && KnownStatus(v.status)
    ensures Suffices(p, Rejudged(s, total, [v])) ==> Suffices(q, Rejudged(s, total, [v]))
  {
    var e := Some(Verified(Rejudged(s, total, [v])));
    RejudgedAccepted(digest, s, total, [v]);
    AllowExact(p, e);
    AllowExact(q, e);
    assert Holdable(digest, e);
  }

  /** And only loosening does: as soon as any statement at all is accepted, a policy that allows
      whatever another allows, among entries the table can hold, is looser than it. */
  lemma AllowsMoreIsLooser(digest: Digest, s: Statement, p: Policy, q: Policy)
    requires Accepted(digest, s) && AllowsMore(digest, q, p)
    ensures Looser(q, p)
  {
    AllowExact(p, None);
    AllowExact(q, None);
    assert Holdable(digest, None);
    var passing := Verdict("x", "", "pass", "", [], "");
    AllowedSample(digest, s, p, q, if p.minScore > 0.0 then Some(p.minScore) else None, passing);
    forall cat <- q.denyFailIn ensures cat in p.denyFailIn {
      var failing := Verdict("x", cat, "fail", "", [], "");
      AllowedSample(digest, s, p, q, Some(if p.minScore > q.minScore then p.minScore else q.minScore), failing);
      assert failing in [failing];
    }
  }

  /** The order on policies is exactly the order on what they allow. */
  lemma LooserExact(digest: Digest, s: Statement, p: Policy, q: Policy)
    requires Accepted(digest, s)
    ensures Looser(q, p) <==> AllowsMore(digest, q, p)
  {
    if Looser(q, p) {
      forall e | DecisionFor(p, e).allow ensures DecisionFor(q, e).allow {
        LooserAllows(p, q, e);
      }
    }
    if AllowsMore(digest, q, p) {
      AllowsMoreIsLooser(digest, s, p, q);
    }
  }
}
