/** Answering a request from one snapshot. */
module Gate {
  import opened Text
  import opened Statements
  import opened GateConfig
  import opened Deciding
  import opened Table

  /** The score and grade that ride along with a pass. */
  datatype Rating = Rating(score: real, grade: string)

  /** No decision, a pass with the ratings of the backends that have one, or a denial with the
      backend and the cause. */
  datatype Answer = Unavailable | Pass(ratings: map<string, Rating>) | Denied(target: string, cause: Cause)

  ghost function DecisionOn(snap: Snapshot, name: string): Decision {
    DecisionFor(snap.config.policy, EntryOf(snap.entries, name))
  }

  ghost predicate Allowed(snap: Snapshot, name: string) {
    DecisionOn(snap, name).allow
  }

  ghost function RatingOn(snap: Snapshot, name: string): Option<Rating> {
    var d := DecisionOn(snap, name);
    if d.statement.Some? && d.statement.value.evaluation.score.Some?
    then Some(Rating(d.statement.value.evaluation.score.value.total, d.statement.value.evaluation.score.value.grade))
    else None
  }

  /** The ratings of the named backends that have one. */
  ghost function RatingsOf(snap: Snapshot, targets: seq<string>): map<string, Rating> {
    map name | name in targets && RatingOn(snap, name).Some? :: RatingOn(snap, name).value
  }

  /** The first `i` backends are allowed and the next is not. */
  ghost predicate FirstDenied(snap: Snapshot, targets: seq<string>, i: nat) {
    i < |targets| && !Allowed(snap, targets[i]) && forall k :: 0 <= k < i ==> Allowed(snap, targets[k])
  }

  /** What a request must be answered from a snapshot. */
  ghost predicate Answers(snap: Option<Snapshot>, m: string, targets: seq<string>, a: Answer) {
    match snap
    case None => a == Unavailable
    case Some(s) =>
      if m in s.passthrough then a == Pass(map[])
      else if forall name <- targets :: Allowed(s, name) then a == Pass(RatingsOf(s, targets))
      else exists i: nat :: FirstDenied(s, targets, i) && a == Denied(targets[i], DecisionOn(s, targets[i]).cause)
  }

  /** The ratings after one more allowed backend. */
  function Rated(ratings: map<string, Rating>, name: string, d: Decision): map<string, Rating> {
    if d.statement.Some? && d.statement.value.evaluation.score.Some?
    then
      var score := d.statement.value.evaluation.score.value;
      ratings[name := Rating(score.total, score.grade)]
    else ratings
  }

  lemma RatedStep(snap: Snapshot, targets: seq<string>, k: nat)
    requires k < |targets|
    ensures Rated(RatingsOf(snap, targets[..k]), targets[k], DecisionOn(snap, targets[k])) ==
            RatingsOf(snap, targets[..k + 1])
  {
    assert targets[..k + 1] == targets[..k] + [targets[k]];
  }

  class Server {
    const store: Store

    constructor (store: Store)
      ensures this.store == store
    {
      this.store := store;
    }

    /** Gates one call: every named backend must pass, and the first that does not denies it. */
    method CheckRequest(m: string, targets: seq<string>) returns (a: Answer)
      ensures Answers(store.snap, m, targets, a)
    {
      var current := store.snap;
      if current.None? {
        return Unavailable;
      }
      var snap := current.value;
      if m in snap.passthrough {
        return Pass(map[]);
      }
      var ratings: map<string, Rating> := map[];
      for k := 0 to |targets|
        invariant forall i :: 0 <= i < k ==> Allowed(snap, targets[i])
        invariant ratings == RatingsOf(snap, targets[..k])
      {
        var d := Decide(snap, targets[k]);
        if !d.allow {
          assert FirstDenied(snap, targets, k) && targets[k] in targets;
          return Denied(targets[k], d.cause);
        }
        RatedStep(snap, targets, k);
        ratings := Rated(ratings, targets[k], d);
      }
      assert targets[..|targets|] == targets;
      return Pass(ratings);
    }
  }

  // ---------------------------------------------------------------- fan-out

  /** A request has one answer. */
  lemma AnswerUnique(snap: Option<Snapshot>, m: string, targets: seq<string>, a: Answer, b: Answer)
    requires Answers(snap, m, targets, a) && Answers(snap, m, targets, b)
    ensures a == b
  {
    if snap.Some? && m !in snap.value.passthrough && !(forall name <- targets :: Allowed(snap.value, name)) {
      var i: nat :| FirstDenied(snap.value, targets, i) &&
                    a == Denied(targets[i], DecisionOn(snap.value, targets[i]).cause);
      var j: nat :| FirstDenied(snap.value, targets, j) &&
                    b == Denied(targets[j], DecisionOn(snap.value, targets[j]).cause);
      assert i == j;
    }
  }

  /** A gated request passes exactly when each named backend does, so neither order nor repeats
      matter, and concatenating two requests is asking for both. */
  lemma PassIsConjunction(snap: Snapshot, m: string, targets: seq<string>, a: Answer)
    requires m !in snap.passthrough && Answers(Some(snap), m, targets, a)
    ensures a.Pass? <==> forall name <- targets :: Allowed(snap, name)
    ensures a.Pass? || a.Denied?
  {
  }

  lemma DeniedByFirst(snap: Snapshot, m: string, s: seq<string>, t: seq<string>, a: Answer, c: Answer)
    requires m !in snap.passthrough && Answers(Some(snap), m, s, a) && Answers(Some(snap), m, s + t, c)
    requires a.Denied?
    ensures c == a
  {
    hide Allowed, RatingOn;
    PassIsConjunction(snap, m, s, a);
    var i: nat :| FirstDenied(snap, s, i) && a == Denied(s[i], DecisionOn(snap, s[i]).cause);
    DeniedAt(snap, m, s + t, i, c);
  }

  lemma DeniedBySecond(snap: Snapshot, m: string, s: seq<string>, t: seq<string>, a: Answer, b: Answer, c: Answer)
    requires m !in snap.passthrough && Answers(Some(snap), m, s, a)
    requires Answers(Some(snap), m, t, b) && Answers(Some(snap), m, s + t, c)
    requires a.Pass? && b.Denied?
    ensures c == b
  {
    hide Allowed, RatingOn;
    PassIsConjunction(snap, m, s, a);
    PassIsConjunction(snap, m, t, b);
    var i: nat :| FirstDenied(snap, t, i) && b == Denied(t[i], DecisionOn(snap, t[i]).cause);
    forall k | 0 <= k < |s| + i ensures Allowed(snap, (s + t)[k]) {
      assert k < |s| ==> s[k] in s;
    }
    DeniedAt(snap, m, s + t, |s| + i, c);
  }

  lemma BothPass(snap: Snapshot, m: string, s: seq<string>, t: seq<string>, a: Answer, b: Answer, c: Answer)
    requires m !in snap.passthrough && Answers(Some(snap), m, s, a)
    requires Answers(Some(snap), m, t, b) && Answers(Some(snap), m, s + t, c)
    requires a.Pass? && b.Pass?
    ensures c.Pass? && c.ratings == a.ratings + b.ratings
  {
    hide Allowed, RatingOn;
    PassIsConjunction(snap, m, s, a);
    PassIsConjunction(snap, m, t, b);
    PassIsConjunction(snap, m, s + t, c);
    assert RatingsOf(snap, s + t) == RatingsOf(snap, s) + RatingsOf(snap, t);
  }

  /** No decision is made without a table, and one always is with it. */
  lemma UnavailableExact(snap: Option<Snapshot>, m: string, targets: seq<string>, a: Answer)
    requires Answers(snap, m, targets, a)
    ensures a == Unavailable <==> snap == None
  {
  }

  /** What rides along with a pass: the total and grade of every named backend whose statement is
      scored, and nothing else. A call that is not gated carries nothing. */
  lemma PassRates(snap: Snapshot, m: string, targets: seq<string>, a: Answer)
    requires Answers(Some(snap), m, targets, a) && a.Pass?
    ensures m in snap.passthrough ==> a.ratings == map[]
    ensures m !in snap.passthrough ==> forall name ::
      && (name in a.ratings <==>
            && name in targets && name in snap.entries && snap.entries[name].Verified?
            && snap.entries[name].statement.evaluation.score.Some?)
      && (name in a.ratings ==>
            var score := snap.entries[name].statement.evaluation.score.value;
            a.ratings[name].score == score.total && a.ratings[name].grade == score.grade)
  {
  }

  lemma FanOutConcatenates(snap: Snapshot, m: string, s: seq<string>, t: seq<string>, a: Answer, b: Answer, c: Answer)
    requires m !in snap.passthrough
    requires Answers(Some(snap), m, s, a) && Answers(Some(snap), m, t, b) && Answers(Some(snap), m, s + t, c)
    ensures c.Pass? <==> a.Pass? && b.Pass?
    ensures c.Pass? ==> c.ratings == a.ratings + b.ratings
    ensures a.Denied? ==> c == a
    ensures a.Pass? && b.Denied? ==> c == b
  {
    hide Allowed, RatingsOf, FirstDenied;
    PassIsConjunction(snap, m, s, a);
    PassIsConjunction(snap, m, t, b);
    if a.Denied? {
      DeniedByFirst(snap, m, s, t, a, c);
    } else if b.Denied? {
      DeniedBySecond(snap, m, s, t, a, b, c);
    } else {
      BothPass(snap, m, s, t, a, b, c);
    }
  }

  lemma DeniedAt(snap: Snapshot, m: string, targets: seq<string>, i: nat, a: Answer)
    requires m !in snap.passthrough && Answers(Some(snap), m, targets, a) && FirstDenied(snap, targets, i)
    ensures a == Denied(targets[i], DecisionOn(snap, targets[i]).cause)
  {
    assert targets[i] in targets;
    assert Answers(Some(snap), m, targets, Denied(targets[i], DecisionOn(snap, targets[i]).cause));
    AnswerUnique(Some(snap), m, targets, a, Denied(targets[i], DecisionOn(snap, targets[i]).cause));
  }

  /** Loosening the policy of a table never turns a pass into a denial. */
  lemma LooserPasses(snap: Snapshot, q: Policy, m: string, targets: seq<string>, a: Answer, b: Answer)
    requires Looser(q, snap.config.policy)
    requires Answers(Some(snap), m, targets, a)
    requires Answers(Some(snap.(config := snap.config.(policy := q))), m, targets, b)
    requires a.Pass?
    ensures b.Pass?
  {
    var looser := snap.(config := snap.config.(policy := q));
    if m !in snap.passthrough {
      PassIsConjunction(snap, m, targets, a);
      PassIsConjunction(looser, m, targets, b);
      forall name <- targets ensures Allowed(looser, name) {
        LooserAllows(snap.config.policy, q, EntryOf(snap.entries, name));
      }
    }
  }
}
