/** How a later statement differs from an earlier one about the same target, check by check. */
module Drift {
  import opened Text
  import opened Statements

  /** One check whose outcome differs. `from` or `to` is empty when only one statement has it. */
  datatype Change = Change(id: string, from: string, to: string, fromSeverity: string, toSeverity: string)

  datatype Delta = Delta(
    comparable: bool, regressed: seq<Change>, improved: seq<Change>, severityChanged: seq<Change>,
    unassessed: seq<Change>, added: seq<Change>, scoreFrom: Option<real>, scoreTo: Option<real>)
  {
    predicate Regression() {
      |regressed| > 0
    }
  }

  /** How bad an outcome is; zero when it says nothing about the server. */
  function Rank(status: string): nat {
    if status == "pass" || status == "info" then 1
    else if status == "warn" then 2
    else if status == "fail" then 3
    else 0
  }

  // ---------------------------------------------------------------- what was measured

  /** What one measured check amounts to: its rank and, when it failed, how severely. */
  datatype Outcome = Outcome(rank: nat, severity: string)

  function OutcomeOf(status: string, severity: string): Option<Outcome> {
    if Rank(status) == 0 then None
    else Some(Outcome(Rank(status), if status == "fail" then severity else ""))
  }

  /** What a statement measured for an id, judged by the first verdict that carries it. */
  function MeasuredAt(s: Statement, id: string): Option<Outcome> {
    match FirstVerdict(s.evaluation.verdicts, id)
    case None => None
    case Some(v) => OutcomeOf(v.status, v.severity)
  }

  function Ids(s: Statement): set<string> {
    set v <- s.evaluation.verdicts :: v.id
  }

  // ---------------------------------------------------------------- what a delta is

  datatype Kind = Regressed | Improved | SeverityChanged | Unassessed | Added | Unchanged

  /** The kind of change between two measurements of one check. */
  function KindOf(before: Option<Outcome>, after: Option<Outcome>): Kind {
    match (before, after)
    case (None, None) => Unchanged
    case (None, Some(_)) => Added
    case (Some(_), None) => Unassessed
    case (Some(b), Some(a)) =>
      if a.rank > b.rank then Regressed
      else if a.rank < b.rank then Improved
      else if a.severity != b.severity then SeverityChanged
      else Unchanged
  }

  function KindAt(before: Statement, after: Statement, id: string): Kind {
    KindOf(MeasuredAt(before, id), MeasuredAt(after, id))
  }

  /** The status and severity recorded for an id, empty when there is no verdict. */
  function Recorded(s: Statement, id: string): (string, string) {
    match FirstVerdict(s.evaluation.verdicts, id)
    case None => ("", "")
    case Some(v) => (v.status, v.severity)
  }

  function ChangeAt(before: Statement, after: Statement, id: string): Change {
    var (from, fromSeverity) := Recorded(before, id);
    var (to, toSeverity) := Recorded(after, id);
    Change(id, from, to, fromSeverity, toSeverity)
  }

  /** The changes of one kind among `ids`, in their order. */
  function Bucket(kind: Kind, before: Statement, after: Statement, ids: seq<string>): seq<Change> {
    if ids == [] then []
    else
      var n := |ids| - 1;
      Bucket(kind, before, after, ids[..n]) +
      if KindAt(before, after, ids[n]) == kind then [ChangeAt(before, after, ids[n])] else []
  }

  predicate SameBasis(before: Statement, after: Statement) {
    var b, a := before.evaluation.judgedAgainst, after.evaluation.judgedAgainst;
    b.rubric == a.rubric && b.checkInventory == a.checkInventory
  }

  /** The total of one statement's score, when both statements carry one on the same basis. */
  function ComparedScore(of: Statement, other: Statement): Option<real> {
    if SameBasis(of, other) && of.evaluation.score.Some? && other.evaluation.score.Some?
    then Some(of.evaluation.score.value.total)
    else None
  }

  ghost function AllIds(before: Statement, after: Statement): seq<string> {
    SortedSeq(Ids(before) + Ids(after))
  }

  ghost function DeltaOf(before: Statement, after: Statement): Delta {
    var ids := AllIds(before, after);
    Delta(
      SameBasis(before, after),
      Bucket(Regressed, before, after, ids), Bucket(Improved, before, after, ids),
      Bucket(SeverityChanged, before, after, ids), Bucket(Unassessed, before, after, ids),
      Bucket(Added, before, after, ids),
      ComparedScore(before, after), ComparedScore(after, before))
  }

  // ---------------------------------------------------------------- the comparison

  /** A map that answers for every id what the first verdict with that id answers. */
  ghost predicate IsIndex(m: map<string, Verdict>, verdicts: seq<Verdict>) {
    forall id :: FirstVerdict(verdicts, id) == if id in m then Some(m[id]) else None
  }

  lemma {:induction false} FirstVerdictAppend(verdicts: seq<Verdict>, v: Verdict, id: string)
    ensures FirstVerdict(verdicts + [v], id) ==
            if FirstVerdict(verdicts, id).Some? then FirstVerdict(verdicts, id)
            else if v.id == id then Some(v) else None
  {
    if verdicts == [] {
      assert (verdicts + [v])[1..] == [];
    } else {
      assert (verdicts + [v])[1..] == verdicts[1..] + [v];
      FirstVerdictAppend(verdicts[1..], v, id);
    }
  }

  /** Keeps the first verdict per id. */
  method VerdictIndex(s: Statement) returns (out: map<string, Verdict>)
    ensures IsIndex(out, s.evaluation.verdicts)
    ensures out.Keys == Ids(s)
  {
    var verdicts := s.evaluation.verdicts;
    out := map[];
    for i := 0 to |verdicts|
      invariant IsIndex(out, verdicts[..i])
      invariant out.Keys == set v <- verdicts[..i] :: v.id
    {
      var v := verdicts[i];
      assert verdicts[..i + 1] == verdicts[..i] + [v];
      forall id ensures FirstVerdict(verdicts[..i + 1], id) ==
                        if FirstVerdict(verdicts[..i], id).Some? then FirstVerdict(verdicts[..i], id)
                        else if v.id == id then Some(v) else None
      {
        FirstVerdictAppend(verdicts[..i], v, id);
      }
      if v.id !in out {
        out := out[v.id := v];
      }
    }
    assert verdicts[..|verdicts|] == verdicts;
  }

  /** The delta with one more change in the bucket of its kind. */
  function Placed(d: Delta, kind: Kind, c: Change): Delta {
    match kind
    case Regressed => d.(regressed := d.regressed + [c])
    case Improved => d.(improved := d.improved + [c])
    case SeverityChanged => d.(severityChanged := d.severityChanged + [c])
    case Unassessed => d.(unassessed := d.unassessed + [c])
    case Added => d.(added := d.added + [c])
    case Unchanged => d
  }

  /** Compares one check and appends its change, if any, to the bucket it belongs in. */
  method CompareCheck(before: Statement, after: Statement, d: Delta,
                      b: map<string, Verdict>, a: map<string, Verdict>, id: string)
    returns (r: Delta)
    requires IsIndex(b, before.evaluation.verdicts) && IsIndex(a, after.evaluation.verdicts)
    ensures r == Placed(d, KindAt(before, after, id), ChangeAt(before, after, id))
  {
    var none := Verdict("", "", "", "", [], "");
    var was := if id in b then b[id] else none;
    var now := if id in a then a[id] else none;
    assert FirstVerdict(before.evaluation.verdicts, id) == if id in b then Some(was) else None;
    assert FirstVerdict(after.evaluation.verdicts, id) == if id in a then Some(now) else None;
    var c := Change(id, was.status, now.status, was.severity, now.severity);
    var wasRanked, nowRanked := Rank(was.status) > 0, Rank(now.status) > 0;
    r := d;
    if id !in b || !wasRanked {
      if nowRanked {
        r := d.(added := d.added + [c]);
      }
    } else if id !in a || !nowRanked {
      r := d.(unassessed := d.unassessed + [c]);
    } else if Rank(now.status) > Rank(was.status) {
      r := d.(regressed := d.regressed + [c]);
    } else if Rank(now.status) < Rank(was.status) {
      r := d.(improved := d.improved + [c]);
    } else if was.status == "fail" && was.severity != now.severity {
      r := d.(severityChanged := d.severityChanged + [c]);
    }
  }

  /** The five buckets of a delta hold exactly the changes among `ids`. */
  ghost predicate HoldsBuckets(d: Delta, before: Statement, after: Statement, ids: seq<string>) {
    && d.regressed == Bucket(Regressed, before, after, ids)
    && d.improved == Bucket(Improved, before, after, ids)
    && d.severityChanged == Bucket(SeverityChanged, before, after, ids)
    && d.unassessed == Bucket(Unassessed, before, after, ids)
    && d.added == Bucket(Added, before, after, ids)
  }

  lemma PlacedHolds(d: Delta, before: Statement, after: Statement, ids: seq<string>, id: string)
    requires HoldsBuckets(d, before, after, ids)
    ensures HoldsBuckets(
              Placed(d, KindAt(before, after, id), ChangeAt(before, after, id)), before, after, ids + [id])
  {
    assert (ids + [id])[..|ids + [id]| - 1] == ids;
  }

  /** The ids of both indexes, each once, in order. */
  method UnionIds(b: map<string, Verdict>, a: map<string, Verdict>) returns (ids: seq<string>)
    ensures ids == SortedSeq(b.Keys + a.Keys)
  {
    ids := Enumerate(b.Keys);
    var more := Enumerate(a.Keys - b.Keys);
    assert forall k :: 0 <= k < |more| ==> more[k] in Elements(more);
    assert forall k :: 0 <= k < |ids| ==> ids[k] in Elements(ids);
    assert Elements(ids + more) == Elements(ids) + Elements(more);
    ids := SortStrings(ids + more);
    SortedUnique(ids, SortedSeq(b.Keys + a.Keys));
  }

  /** Places every change among `ids` into an empty delta. */
  method CompareChecks(before: Statement, after: Statement, empty: Delta,
                       b: map<string, Verdict>, a: map<string, Verdict>, ids: seq<string>)
    returns (d: Delta)
    requires IsIndex(b, before.evaluation.verdicts) && IsIndex(a, after.evaluation.verdicts)
    requires HoldsBuckets(empty, before, after, [])
    ensures HoldsBuckets(d, before, after, ids)
    ensures d.comparable == empty.comparable && d.scoreFrom == empty.scoreFrom && d.scoreTo == empty.scoreTo
  {
    d := empty;
    for i := 0 to |ids|
      invariant HoldsBuckets(d, before, after, ids[..i])
      invariant d.comparable == empty.comparable && d.scoreFrom == empty.scoreFrom && d.scoreTo == empty.scoreTo
    {
      PlacedHolds(d, before, after, ids[..i], ids[i]);
      assert ids[..i + 1] == ids[..i] + [ids[i]];
      d := CompareCheck(before, after, d, b, a, ids[i]);
    }
    assert ids[..|ids|] == ids;
  }

  /** Compares two statements about the same target. */
  method Compare(before: Statement, after: Statement) returns (d: Delta)
    ensures d == DeltaOf(before, after)
  {
    var b := VerdictIndex(before);
    var a := VerdictIndex(after);
    d := Delta(
      before.evaluation.judgedAgainst.rubric == after.evaluation.judgedAgainst.rubric &&
      before.evaluation.judgedAgainst.checkInventory == after.evaluation.judgedAgainst.checkInventory,
      [], [], [], [], [], None, None);
    var ids := UnionIds(b, a);
    d := CompareChecks(before, after, d, b, a, ids);
    if d.comparable && before.evaluation.score.Some? && after.evaluation.score.Some? {
      d := d.(scoreFrom := Some(before.evaluation.score.value.total),
              scoreTo := Some(after.evaluation.score.value.total));
    }
  }
}
