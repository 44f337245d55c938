/** Laws of the comparison: what each bucket holds, and how deltas behave along a history. */
module DriftLaws {
  import opened Text
  import opened Statements
  import opened Drift

  // ---------------------------------------------------------------- what the buckets hold

  function BucketOf(d: Delta, kind: Kind): seq<Change> {
    match kind
    case Regressed => d.regressed
    case Improved => d.improved
    case SeverityChanged => d.severityChanged
    case Unassessed => d.unassessed
    case Added => d.added
    case Unchanged => []
  }

  ghost function Named(cs: seq<Change>): seq<string> {
    seq(|cs|, i requires 0 <= i < |cs| => cs[i].id)
  }

  lemma MeasuredIsRecorded(s: Statement, id: string)
    ensures MeasuredAt(s, id).Some? ==> id in Ids(s)
  {
    FirstVerdictNone(s.evaluation.verdicts, id);
  }

  lemma {:induction false} BucketContents(kind: Kind, before: Statement, after: Statement, ids: seq<string>)
    ensures forall c :: c in Bucket(kind, before, after, ids) <==>
              c.id in ids && KindAt(before, after, c.id) == kind && c == ChangeAt(before, after, c.id)
  {
    if ids == [] {
    } else {
      var n := |ids| - 1;
      BucketContents(kind, before, after, ids[..n]);
      assert ids == ids[..n] + [ids[n]];
    }
  }

  lemma {:induction false} BucketSorted(kind: Kind, before: Statement, after: Statement, ids: seq<string>)
    requires StrictlySorted(ids)
    ensures StrictlySorted(Named(Bucket(kind, before, after, ids)))
  {
    hide KindAt, Recorded;
    if ids == [] {
    } else {
      var n := |ids| - 1;
      BucketSorted(kind, before, after, ids[..n]);
      BucketContents(kind, before, after, ids[..n]);
      var head := Bucket(kind, before, after, ids[..n]);
      forall i | 0 <= i < |head| ensures Less(Named(head)[i], ids[n]) {
        assert head[i] in head && head[i].id in ids[..n];
      }
      var all := Bucket(kind, before, after, ids);
      forall i, j | 0 <= i < j < |all| ensures Less(Named(all)[i], Named(all)[j]) {
        assert Named(all)[i] == Named(head)[i];
        if j < |head| {
          assert Named(all)[j] == Named(head)[j];
        }
      }
    }
  }

  /** Every bucket holds exactly the checks of its kind, each with what both statements record for
      it, in strictly increasing order of id. */
  lemma BucketExact(before: Statement, after: Statement, kind: Kind)
    requires kind != Unchanged
    ensures var cs := BucketOf(DeltaOf(before, after), kind);
      && StrictlySorted(Named(cs))
      && forall c :: c in cs <==> KindAt(before, after, c.id) == kind && c == ChangeAt(before, after, c.id)
  {
    var ids := AllIds(before, after);
    BucketContents(kind, before, after, ids);
    BucketSorted(kind, before, after, ids);
    forall c: Change | KindAt(before, after, c.id) == kind ensures c.id in ids {
      MeasuredIsRecorded(before, c.id);
      MeasuredIsRecorded(after, c.id);
      assert c.id in Elements(ids);
    }
  }

  /** No check is in two buckets, or twice in one. */
  lemma BucketsDisjoint(before: Statement, after: Statement, k: Kind, l: Kind, c: Change, e: Change)
    requires c in BucketOf(DeltaOf(before, after), k) && e in BucketOf(DeltaOf(before, after), l)
    requires c.id == e.id
    ensures k == l && c == e
  {
    BucketExact(before, after, k);
    BucketExact(before, after, l);
  }

  // ---------------------------------------------------------------- by status

  /** A status that says something about the server. */
  predicate Tells(status: string) {
    status == "pass" || status == "info" || status == "warn" || status == "fail"
  }

  /** From pass or info to warn or fail, or from warn to fail. */
  predicate WorseStatus(before: string, after: string) {
    || ((before == "pass" || before == "info") && (after == "warn" || after == "fail"))
    || (before == "warn" && after == "fail")
  }

  /** The statement measured the check: the first verdict with its id tells something. */
  predicate Measures(s: Statement, id: string) {
    FirstVerdict(s.evaluation.verdicts, id).Some? && Tells(FirstVerdict(s.evaluation.verdicts, id).value.status)
  }

  ghost predicate Worse(before: Statement, after: Statement, id: string) {
    && FirstVerdict(before.evaluation.verdicts, id).Some? && FirstVerdict(after.evaluation.verdicts, id).Some?
    && WorseStatus(FirstVerdict(before.evaluation.verdicts, id).value.status,
                   FirstVerdict(after.evaluation.verdicts, id).value.status)
  }

  /** Failing in both, with another severity. */
  ghost predicate OtherSeverity(before: Statement, after: Statement, id: string) {
    var b, a := FirstVerdict(before.evaluation.verdicts, id), FirstVerdict(after.evaluation.verdicts, id);
    b.Some? && a.Some? && b.value.status == a.value.status == "fail" && b.value.severity != a.value.severity
  }

  lemma KindByStatus(before: Statement, after: Statement, id: string)
    ensures KindAt(before, after, id) == Regressed <==> Worse(before, after, id)
    ensures KindAt(before, after, id) == Improved <==> Worse(after, before, id)
    ensures KindAt(before, after, id) == SeverityChanged <==> OtherSeverity(before, after, id)
    ensures KindAt(before, after, id) == Unassessed <==> Measures(before, id) && !Measures(after, id)
    ensures KindAt(before, after, id) == Added <==> !Measures(before, id) && Measures(after, id)
  {
  }

  /** Which checks each bucket lists, in the words of the format: by what the first verdicts with their
      ids say. */
  lemma BucketsByStatus(before: Statement, after: Statement, id: string)
    ensures id in Gone(DeltaOf(before, after).regressed) <==> Worse(before, after, id)
    ensures id in Gone(DeltaOf(before, after).improved) <==> Worse(after, before, id)
    ensures id in Gone(DeltaOf(before, after).severityChanged) <==> OtherSeverity(before, after, id)
    ensures id in Gone(DeltaOf(before, after).unassessed) <==> Measures(before, id) && !Measures(after, id)
    ensures id in Gone(DeltaOf(before, after).added) <==> !Measures(before, id) && Measures(after, id)
  {
    hide KindAt, DeltaOf, Worse, Measures, OtherSeverity;
    KindByStatus(before, after, id);
    NamedByExact(before, after, Regressed, id);
    NamedByExact(before, after, Improved, id);
    NamedByExact(before, after, SeverityChanged, id);
    NamedByExact(before, after, Unassessed, id);
    NamedByExact(before, after, Added, id);
  }

  /** Every change listed carries the statuses and severities of both first verdicts, and nothing where
      there is none. */
  lemma ChangeAsRecorded(before: Statement, after: Statement, kind: Kind, c: Change)
    requires c in BucketOf(DeltaOf(before, after), kind)
    ensures var b, a := FirstVerdict(before.evaluation.verdicts, c.id), FirstVerdict(after.evaluation.verdicts, c.id);
      && (b.Some? ==> c.from == b.value.status && c.fromSeverity == b.value.severity)
      && (a.Some? ==> c.to == a.value.status && c.toSeverity == a.value.severity)
      && (b.None? ==> c.from == "" && c.fromSeverity == "") && (a.None? ==> c.to == "" && c.toSeverity == "")
  {
    BucketExact(before, after, kind);
  }

  /** The two compare exactly on one rubric and one check inventory, and then, if both are scored,
      their totals are reported, the earlier one first. */
  lemma ScoresReported(before: Statement, after: Statement)
    ensures var d, e, f := DeltaOf(before, after), before.evaluation, after.evaluation;
      && (d.comparable <==> e.judgedAgainst.rubric == f.judgedAgainst.rubric &&
                            e.judgedAgainst.checkInventory == f.judgedAgainst.checkInventory)
      && (d.scoreFrom.Some? <==> d.comparable && e.score.Some? && f.score.Some?)
      && (d.scoreTo.Some? <==> d.scoreFrom.Some?)
      && (d.scoreFrom.Some? ==> d.scoreFrom.value == e.score.value.total && d.scoreTo.value == f.score.value.total)
  {
  }

  /** The gate on drift: a regression is reported exactly when some check measured on both sides
      came out strictly worse. */
  lemma RegressionExact(before: Statement, after: Statement)
    ensures DeltaOf(before, after).Regression() <==> exists id :: Worse(before, after, id)
  {
    hide DeltaOf, Worse;
    var cs := DeltaOf(before, after).regressed;
    if cs != [] {
      assert cs[0] in cs && cs[0].id in Gone(cs);
      BucketsByStatus(before, after, cs[0].id);
    }
    if id :| Worse(before, after, id) {
      BucketsByStatus(before, after, id);
    }
  }

  // ---------------------------------------------------------------- swap duality

  function MirrorKind(kind: Kind): Kind {
    match kind
    case Regressed => Improved
    case Improved => Regressed
    case Added => Unassessed
    case Unassessed => Added
    case SeverityChanged => SeverityChanged
    case Unchanged => Unchanged
  }

  function MirrorChange(c: Change): Change {
    Change(c.id, c.to, c.from, c.toSeverity, c.fromSeverity)
  }

  function MirrorAll(cs: seq<Change>): seq<Change> {
    seq(|cs|, i requires 0 <= i < |cs| => MirrorChange(cs[i]))
  }

  function Mirror(d: Delta): Delta {
    Delta(d.comparable, MirrorAll(d.improved), MirrorAll(d.regressed), MirrorAll(d.severityChanged),
          MirrorAll(d.added), MirrorAll(d.unassessed), d.scoreTo, d.scoreFrom)
  }

  lemma KindMirrored(before: Statement, after: Statement, id: string)
    ensures KindAt(after, before, id) == MirrorKind(KindAt(before, after, id))
    ensures ChangeAt(after, before, id) == MirrorChange(ChangeAt(before, after, id))
  {
  }

  lemma {:induction false} MirrorBucket(kind: Kind, before: Statement, after: Statement, ids: seq<string>)
    ensures MirrorAll(Bucket(kind, before, after, ids)) == Bucket(MirrorKind(kind), after, before, ids)
  {
    hide KindAt, ChangeAt, MirrorChange;
    if ids == [] {
    } else {
      var n := |ids| - 1;
      MirrorBucket(kind, before, after, ids[..n]);
      KindMirrored(before, after, ids[n]);
    }
  }

  /** Comparing the other way round gives the mirror image, list by list in the same order. */
  lemma SwapDuality(before: Statement, after: Statement)
    ensures DeltaOf(after, before) == Mirror(DeltaOf(before, after))
  {
    assert Ids(before) + Ids(after) == Ids(after) + Ids(before);
    var ids := AllIds(before, after);
    assert ids == AllIds(after, before);
    MirrorBucket(Regressed, before, after, ids);
    MirrorBucket(Improved, before, after, ids);
    MirrorBucket(SeverityChanged, before, after, ids);
    MirrorBucket(Unassessed, before, after, ids);
    MirrorBucket(Added, before, after, ids);
  }

  // ---------------------------------------------------------------- a delta is a faithful patch

  type View = map<string, Outcome>

  /** Everything a statement measured. */
  ghost function ViewOf(s: Statement): View {
    map id | id in Ids(s) && MeasuredAt(s, id).Some? :: MeasuredAt(s, id).value
  }

  lemma ViewAt(s: Statement, id: string)
    ensures MeasuredAt(s, id) == if id in ViewOf(s) then Some(ViewOf(s)[id]) else None
  {
    MeasuredIsRecorded(s, id);
  }

  function OutcomeTo(c: Change): Outcome {
    Outcome(Rank(c.to), if c.to == "fail" then c.toSeverity else "")
  }

  function Overwrite(view: View, cs: seq<Change>): View {
    if cs == [] then view
    else
      var n := |cs| - 1;
      Overwrite(view, cs[..n])[cs[n].id := OutcomeTo(cs[n])]
  }

  ghost function Gone(cs: seq<Change>): set<string> {
    set c <- cs :: c.id
  }

  /** Applies a delta to a view, knowing nothing of the statements it came from: lost checks go,
      and every other listed check takes the outcome the delta says it has now. */
  ghost function Apply(d: Delta, view: View): View {
    Overwrite(view - Gone(d.unassessed), d.added + d.regressed + d.improved + d.severityChanged)
  }

  lemma {:induction false} OverwriteAt(view: View, cs: seq<Change>, target: View)
    requires forall c <- cs :: c.id in target && OutcomeTo(c) == target[c.id]
    ensures Overwrite(view, cs).Keys == view.Keys + Gone(cs)
    ensures forall id <- Gone(cs) :: Overwrite(view, cs)[id] == target[id]
    ensures forall id <- view.Keys - Gone(cs) :: Overwrite(view, cs)[id] == view[id]
  {
    if cs == [] {
    } else {
      var n := |cs| - 1;
      assert cs == cs[..n] + [cs[n]];
      OverwriteAt(view, cs[..n], target);
      assert Gone(cs) == Gone(cs[..n]) + {cs[n].id};
    }
  }

  ghost function NamedBy(before: Statement, after: Statement, kind: Kind): set<string> {
    Gone(BucketOf(DeltaOf(before, after), kind))
  }

  lemma NamedByExact(before: Statement, after: Statement, kind: Kind, id: string)
    requires kind != Unchanged
    ensures id in NamedBy(before, after, kind) <==> KindAt(before, after, id) == kind
  {
    BucketExact(before, after, kind);
    if KindAt(before, after, id) == kind {
      assert ChangeAt(before, after, id) in BucketOf(DeltaOf(before, after), kind);
      assert ChangeAt(before, after, id).id == id;
    }
  }

  lemma StatedOutcomes(before: Statement, after: Statement, kind: Kind)
    requires kind != Unchanged && kind != Unassessed
    ensures forall c <- BucketOf(DeltaOf(before, after), kind) ::
              c.id in ViewOf(after) && OutcomeTo(c) == ViewOf(after)[c.id]
  {
    BucketExact(before, after, kind);
    forall c <- BucketOf(DeltaOf(before, after), kind)
      ensures c.id in ViewOf(after) && OutcomeTo(c) == ViewOf(after)[c.id]
    {
      ViewAt(after, c.id);
    }
  }

  ghost function Stated(d: Delta): seq<Change> {
    d.added + d.regressed + d.improved + d.severityChanged
  }

  /** A delta that names what was lost and states the new outcome of everything else that moved. */
  ghost predicate Describes(d: Delta, b: View, a: View) {
    && (forall id :: id in Gone(d.unassessed) <==> id in b && id !in a)
    && (forall c <- Stated(d) :: c.id in a && OutcomeTo(c) == a[c.id])
    && (forall id <- a :: id !in Gone(Stated(d)) ==> id in b && b[id] == a[id])
  }

  lemma DescribedPatch(d: Delta, b: View, a: View)
    requires Describes(d, b, a)
    ensures Apply(d, b) == a
  {
    OverwriteAt(b - Gone(d.unassessed), Stated(d), a);
  }

  lemma DeltaDescribes(before: Statement, after: Statement)
    ensures Describes(DeltaOf(before, after), ViewOf(before), ViewOf(after))
  {
    var d := DeltaOf(before, after);
    var b, a := ViewOf(before), ViewOf(after);
    forall id ensures id in Gone(d.unassessed) <==> id in b && id !in a {
      NamedByExact(before, after, Unassessed, id);
      ViewAt(before, id);
      ViewAt(after, id);
    }
    StatedOutcomes(before, after, Added);
    StatedOutcomes(before, after, Regressed);
    StatedOutcomes(before, after, Improved);
    StatedOutcomes(before, after, SeverityChanged);
    forall id <- a | id !in Gone(Stated(d)) ensures id in b && b[id] == a[id] {
      StatedNames(before, after, id);
      ViewAt(before, id);
      ViewAt(after, id);
    }
  }

  lemma StatedNames(before: Statement, after: Statement, id: string)
    ensures var kind := KindAt(before, after, id);
      id in Gone(Stated(DeltaOf(before, after))) <==> kind != Unchanged && kind != Unassessed
  {
    var d := DeltaOf(before, after);
    assert Gone(Stated(d)) == Gone(d.added) + Gone(d.regressed) + Gone(d.improved) + Gone(d.severityChanged);
    NamedByExact(before, after, Added, id);
    NamedByExact(before, after, Regressed, id);
    NamedByExact(before, after, Improved, id);
    NamedByExact(before, after, SeverityChanged, id);
  }

  /** Applying the delta to what was measured before gives what is measured after. */
  lemma PatchRoundTrip(before: Statement, after: Statement)
    ensures Apply(DeltaOf(before, after), ViewOf(before)) == ViewOf(after)
  {
    DeltaDescribes(before, after);
    DescribedPatch(DeltaOf(before, after), ViewOf(before), ViewOf(after));
  }

  ghost predicate NoChange(d: Delta) {
    d.regressed == d.improved == d.severityChanged == d.unassessed == d.added == []
  }

  lemma SameViewListsNothing(before: Statement, after: Statement, kind: Kind)
    requires ViewOf(before) == ViewOf(after) && kind != Unchanged
    ensures BucketOf(DeltaOf(before, after), kind) == []
  {
    BucketExact(before, after, kind);
    var cs := BucketOf(DeltaOf(before, after), kind);
    if cs != [] {
      assert cs[0] in cs;
      ViewAt(before, cs[0].id);
      ViewAt(after, cs[0].id);
    }
  }

  /** A delta lists nothing exactly when the two statements measured the same. */
  lemma EmptyDeltaExact(before: Statement, after: Statement)
    ensures NoChange(DeltaOf(before, after)) <==> ViewOf(before) == ViewOf(after)
  {
    var d := DeltaOf(before, after);
    if ViewOf(before) == ViewOf(after) {
      SameViewListsNothing(before, after, Regressed);
      SameViewListsNothing(before, after, Improved);
      SameViewListsNothing(before, after, SeverityChanged);
      SameViewListsNothing(before, after, Unassessed);
      SameViewListsNothing(before, after, Added);
    }
    if NoChange(d) {
      PatchRoundTrip(before, after);
      assert Gone(d.unassessed) == {} && Stated(d) == [];
    }
  }

  // ---------------------------------------------------------------- conservation

  lemma {:induction false} DistinctNames(cs: seq<Change>)
    requires StrictlySorted(Named(cs))
    ensures |Gone(cs)| == |cs|
  {
    if cs == [] {
    } else {
      var n := |cs| - 1;
      assert Named(cs[..n]) == Named(cs)[..n];
      DistinctNames(cs[..n]);
      StrictlySortedDistinct(Named(cs));
      assert cs == cs[..n] + [cs[n]];
      assert Gone(cs) == Gone(cs[..n]) + {cs[n].id};
      assert cs[n].id !in Gone(cs[..n]) by {
        forall c <- cs[..n] ensures c.id != cs[n].id {
          var i :| 0 <= i < n && cs[i] == c;
          assert Named(cs)[i] != Named(cs)[n];
        }
      }
    }
  }

  lemma DifferencesBalance(b: set<string>, a: set<string>)
    ensures |a| + |b - a| == |b| + |a - b|
  {
    assert b == (b - a) + (a * b) && a == (a - b) + (a * b);
    assert |b| == |b - a| + |a * b| && |a| == |a - b| + |a * b|;
  }

  lemma BucketSize(before: Statement, after: Statement, kind: Kind)
    requires kind != Unchanged
    ensures |BucketOf(DeltaOf(before, after), kind)| == |NamedBy(before, after, kind)|
  {
    BucketExact(before, after, kind);
    DistinctNames(BucketOf(DeltaOf(before, after), kind));
  }

  lemma LostAndGained(before: Statement, after: Statement)
    ensures NamedBy(before, after, Unassessed) == ViewOf(before).Keys - ViewOf(after).Keys
    ensures NamedBy(before, after, Added) == ViewOf(after).Keys - ViewOf(before).Keys
  {
    hide DeltaOf, MeasuredAt;
    forall id
      ensures id in NamedBy(before, after, Unassessed) <==> id in ViewOf(before) && id !in ViewOf(after)
      ensures id in NamedBy(before, after, Added) <==> id in ViewOf(after) && id !in ViewOf(before)
    {
      ViewAt(before, id);
      ViewAt(after, id);
      NamedByExact(before, after, Unassessed, id);
      NamedByExact(before, after, Added, id);
    }
  }

  /** What is measured after, plus what was lost, is what was measured before plus what was gained. */
  lemma Conservation(before: Statement, after: Statement)
    ensures |ViewOf(after)| + |DeltaOf(before, after).unassessed| ==
            |ViewOf(before)| + |DeltaOf(before, after).added|
  {
    hide ViewOf, DeltaOf;
    LostAndGained(before, after);
    BucketSize(before, after, Unassessed);
    BucketSize(before, after, Added);
    DifferencesBalance(ViewOf(before).Keys, ViewOf(after).Keys);
  }

  // ---------------------------------------------------------------- histories

  /** The view reached by applying, in order, the delta of every adjacent pair of a history. */
  ghost function Replay(history: seq<Statement>, view: View): View {
    if |history| <= 1 then view
    else
      var n := |history| - 1;
      Apply(DeltaOf(history[n - 1], history[n]), Replay(history[..n], view))
  }

  /** Replaying every step of a history is applying one delta between its ends. */
  lemma {:induction false} ReplayIsOneDelta(history: seq<Statement>)
    requires history != []
    ensures var first, last := history[0], history[|history| - 1];
      Replay(history, ViewOf(first)) == ViewOf(last) == Apply(DeltaOf(first, last), ViewOf(first))
  {
    hide ViewOf, DeltaOf, Apply;
    var n := |history| - 1;
    PatchRoundTrip(history[0], history[n]);
    if n == 0 {
    } else {
      ReplayIsOneDelta(history[..n]);
      PatchRoundTrip(history[n - 1], history[n]);
    }
  }

  ghost function TotalLost(history: seq<Statement>): nat {
    if |history| <= 1 then 0
    else
      var n := |history| - 1;
      TotalLost(history[..n]) + |DeltaOf(history[n - 1], history[n]).unassessed|
  }

  ghost function TotalGained(history: seq<Statement>): nat {
    if |history| <= 1 then 0
    else
      var n := |history| - 1;
      TotalGained(history[..n]) + |DeltaOf(history[n - 1], history[n]).added|
  }

  lemma {:induction false} HistoryConserves(history: seq<Statement>)
    requires history != []
    ensures |ViewOf(history[|history| - 1])| + TotalLost(history) == |ViewOf(history[0])| + TotalGained(history)
  {
    hide ViewOf, DeltaOf;
    var n := |history| - 1;
    if n == 0 {
    } else {
      HistoryConserves(history[..n]);
      Conservation(history[n - 1], history[n]);
    }
  }

  /** How one check fared along a history, with the kind of each step between. */
  ghost function Track(history: seq<Statement>, id: string): seq<Option<Outcome>> {
    seq(|history|, i requires 0 <= i < |history| => MeasuredAt(history[i], id))
  }

  ghost predicate StepIs(track: seq<Option<Outcome>>, i: int, kind: Kind) {
    0 <= i && i + 1 < |track| && KindOf(track[i], track[i + 1]) == kind
  }

  lemma {:induction false} LossOnTrack(track: seq<Option<Outcome>>) returns (i: nat)
    requires track != [] && track[0].Some? && track[|track| - 1].None?
    ensures StepIs(track, i, Unassessed)
  {
    var n := |track| - 1;
    if track[n - 1].Some? {
      i := n - 1;
    } else {
      i := LossOnTrack(track[..n]);
    }
  }

  lemma {:induction false} DriftOnTrack(track: seq<Option<Outcome>>)
    requires track != [] && track[0].Some? && track[|track| - 1].Some?
    requires track[|track| - 1].value.rank > track[0].value.rank
    ensures (exists i :: StepIs(track, i, Regressed)) ||
            (exists i, j :: i < j && StepIs(track, i, Unassessed) && StepIs(track, j, Added))
  {
    var n := |track| - 1;
    var prefix := track[..n];
    if track[n - 1].None? {
      var i := LossOnTrack(prefix);
      assert StepIs(track, i, Unassessed) && StepIs(track, n - 1, Added);
    } else if track[n].value.rank > track[n - 1].value.rank {
      assert StepIs(track, n - 1, Regressed);
    } else {
      DriftOnTrack(prefix);
      if i :| StepIs(prefix, i, Regressed) {
        assert StepIs(track, i, Regressed);
      } else {
        var i, j :| i < j && StepIs(prefix, i, Unassessed) && StepIs(prefix, j, Added);
        assert StepIs(track, i, Unassessed) && StepIs(track, j, Added);
      }
    }
  }

  /** Step `i` of the history lists the check in the bucket of that kind. */
  ghost predicate ListedAt(history: seq<Statement>, i: int, kind: Kind, id: string) {
    0 <= i && i + 1 < |history| && id in NamedBy(history[i], history[i + 1], kind)
  }

  lemma StepIsListed(history: seq<Statement>, i: int, kind: Kind, id: string)
    requires kind != Unchanged
    ensures StepIs(Track(history, id), i, kind) <==> ListedAt(history, i, kind, id)
  {
    if 0 <= i && i + 1 < |history| {
      NamedByExact(history[i], history[i + 1], kind, id);
    }
  }

  /** Nothing gets worse unseen. A check measured at both ends of a history and strictly worse at
      the last was listed on the way: as regressed, or as lost and, later, as added again. */
  lemma DriftIsListed(history: seq<Statement>, id: string)
    requires history != [] && Worse(history[0], history[|history| - 1], id)
    ensures (exists i :: ListedAt(history, i, Regressed, id)) ||
            (exists i, j :: i < j && ListedAt(history, i, Unassessed, id) && ListedAt(history, j, Added, id))
  {
    var track := Track(history, id);
    KindByStatus(history[0], history[|history| - 1], id);
    DriftOnTrack(track);
    if i :| StepIs(track, i, Regressed) {
      StepIsListed(history, i, Regressed, id);
    } else {
      var i, j :| i < j && StepIs(track, i, Unassessed) && StepIs(track, j, Added);
      StepIsListed(history, i, Unassessed, id);
      StepIsListed(history, j, Added, id);
    }
  }
}
