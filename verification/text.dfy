/** Strings as the attestation code uses them: optional values, whitespace trimming and the
    ordering behind sorted identifiers. */
module Text {

  datatype Option<+T> = None | Some(value: T)

  // ---------------------------------------------------------------- trimming

  /** Unicode white space, the set that trimming removes. */
  predicate IsSpace(c: char) {
    '\t' <= c <= '\r' || c == ' ' || c == '\U{85}' || c == '\U{A0}' || c == '\U{1680}' ||
    '\U{2000}' <= c <= '\U{200A}' || c == '\U{2028}' || c == '\U{2029}' || c == '\U{202F}' ||
    c == '\U{205F}' || c == '\U{3000}'
  }

  /** The table of the 25 characters with the Unicode property White_Space. */
  lemma SpaceTable(c: char)
    ensures IsSpace(c) <==>
      c in {'\t', '\n', '\U{B}', '\U{C}', '\r', ' ', '\U{85}', '\U{A0}', '\U{1680}',
            '\U{2000}', '\U{2001}', '\U{2002}', '\U{2003}', '\U{2004}', '\U{2005}', '\U{2006}', '\U{2007}',
            '\U{2008}', '\U{2009}', '\U{200A}', '\U{2028}', '\U{2029}', '\U{202F}', '\U{205F}', '\U{3000}'}
  {
  }

  predicate Blank(s: string) {
    forall c <- s :: IsSpace(c)
  }

  /** Neither end is white space. */
  predicate Trimmed(s: string) {
    s == "" || (!IsSpace(s[0]) && !IsSpace(s[|s| - 1]))
  }

  function TrimLeft(s: string): string {
    if s != "" && IsSpace(s[0]) then TrimLeft(s[1..]) else s
  }

  function TrimRight(s: string): string {
    if s != "" && IsSpace(s[|s| - 1]) then TrimRight(s[..|s| - 1]) else s
  }

  function TrimSpace(s: string): string {
    TrimRight(TrimLeft(s))
  }

  lemma {:induction false} TrimLeftDrops(l: string, s: string)
    requires Blank(l)
    requires s == "" || !IsSpace(s[0])
    ensures TrimLeft(l + s) == s
  {
    if l == "" {
      assert l + s == s;
    } else {
      assert (l + s)[0] == l[0] && l[0] in l;
      assert (l + s)[1..] == l[1..] + s;
      TrimLeftDrops(l[1..], s);
    }
  }

  lemma {:induction false} TrimRightDrops(s: string, r: string)
    requires Blank(r)
    requires s == "" || !IsSpace(s[|s| - 1])
    ensures TrimRight(s + r) == s
  {
    if r == "" {
      assert s + r == s;
    } else {
      var n := |r| - 1;
      assert (s + r)[|s + r| - 1] == r[n] && r[n] in r;
      assert (s + r)[..|s + r| - 1] == s + r[..n];
      TrimRightDrops(s, r[..n]);
    }
  }

  /** Trimming is determined by its meaning: whatever core remains between blank margins. */
  lemma TrimSpaceIs(l: string, core: string, r: string)
    requires Blank(l) && Blank(r) && Trimmed(core)
    ensures TrimSpace(l + core + r) == core
  {
    if core == "" {
      assert l + core + r == (l + r) + "";
      TrimLeftDrops(l + r, "");
    } else {
      assert l + core + r == l + (core + r);
      TrimLeftDrops(l, core + r);
      TrimRightDrops(core, r);
    }
  }

  lemma {:induction false} TrimLeftSplits(s: string) returns (l: string)
    ensures Blank(l) && s == l + TrimLeft(s)
    ensures TrimLeft(s) == "" || !IsSpace(TrimLeft(s)[0])
  {
    if s != "" && IsSpace(s[0]) {
      var l' := TrimLeftSplits(s[1..]);
      l := [s[0]] + l';
    } else {
      l := "";
    }
  }

  lemma {:induction false} TrimRightSplits(s: string) returns (r: string)
    ensures Blank(r) && s == TrimRight(s) + r
    ensures TrimRight(s) == "" || !IsSpace(TrimRight(s)[|TrimRight(s)| - 1])
  {
    if s != "" && IsSpace(s[|s| - 1]) {
      var r' := TrimRightSplits(s[..|s| - 1]);
      r := r' + [s[|s| - 1]];
    } else {
      r := "";
    }
  }

  /** Every string is its trimmed core between two blank margins. */
  lemma TrimSpaceSplits(s: string) returns (l: string, r: string)
    ensures Blank(l) && Blank(r) && Trimmed(TrimSpace(s))
    ensures s == l + TrimSpace(s) + r
  {
    hide IsSpace, TrimLeft, TrimRight;
    l := TrimLeftSplits(s);
    r := TrimRightSplits(TrimLeft(s));
    var core := TrimSpace(s);
    if core != "" {
      assert TrimLeft(s)[0] == core[0];
    }
  }

  lemma TrimSpaceIdempotent(s: string)
    ensures TrimSpace(TrimSpace(s)) == TrimSpace(s)
  {
    var l, r := TrimSpaceSplits(s);
    var core := TrimSpace(s);
    assert "" + core + "" == core;
    TrimSpaceIs("", core, "");
  }

  // ---------------------------------------------------------------- searching

  /** `part` occurs in `s` at position `i`. */
  predicate OccursAt(s: string, part: string, i: int) {
    0 <= i && i + |part| <= |s| && s[i..i + |part|] == part
  }

  predicate Contains(s: string, part: string) {
    exists i :: 0 <= i <= |s| && OccursAt(s, part, i)
  }

  lemma ContainsStart(s: string, part: string)
    requires part != "" && Contains(s, part)
    ensures part[0] in s
  {
    var i :| 0 <= i <= |s| && OccursAt(s, part, i);
    assert s[i] == s[i..i + |part|][0];
  }

  // ---------------------------------------------------------------- ordering

  /** The order of sorted identifiers: first differing character decides, a prefix comes first. */
  predicate Less(a: string, b: string) {
    b != "" && (a == "" || a[0] < b[0] || (a[0] == b[0] && Less(a[1..], b[1..])))
  }

  lemma {:induction false} LessTotal(a: string, b: string)
    ensures Less(a, b) || a == b || Less(b, a)
    ensures !(Less(a, b) && Less(b, a)) && !Less(a, a)
  {
    if a != "" && b != "" {
      LessTotal(a[1..], b[1..]);
      if a[0] == b[0] && a[1..] == b[1..] {
        assert a == [a[0]] + a[1..] && b == [b[0]] + b[1..];
      }
    }
    if a != "" {
      LessTotal(a[1..], a[1..]);
    }
  }

  lemma {:induction false} LessTransitive(a: string, b: string, c: string)
    requires Less(a, b) && Less(b, c)
    ensures Less(a, c)
  {
    if a != "" && a[0] == b[0] == c[0] {
      LessTransitive(a[1..], b[1..], c[1..]);
    }
  }

  /** What comes first: a proper prefix, or the smaller character where two strings first differ. */
  lemma {:induction false} LessExact(a: string, b: string)
    ensures Less(a, b) <==> exists k :: 0 <= k <= |a| && DifferFrom(a, b, k) && (k == |a| || a[k] < b[k])
  {
    if a == "" || b == "" {
      assert DifferFrom(a, b, 0) <==> b != "";
    } else if a[0] != b[0] {
      assert DifferFrom(a, b, 0);
    } else {
      LessExact(a[1..], b[1..]);
      if k :| 0 <= k <= |a[1..]| && DifferFrom(a[1..], b[1..], k) && (k == |a[1..]| || a[1..][k] < b[1..][k]) {
        assert a[..k + 1] == [a[0]] + a[1..][..k] && b[..k + 1] == [b[0]] + b[1..][..k];
        assert DifferFrom(a, b, k + 1);
      }
      if k :| 0 <= k <= |a| && DifferFrom(a, b, k) && (k == |a| || a[k] < b[k]) {
        assert a[..k][1..] == a[1..][..k - 1] && b[..k][1..] == b[1..][..k - 1];
        assert DifferFrom(a[1..], b[1..], k - 1);
      }
    }
  }

  /** The strings agree before position `k`, where the second goes on and the first ends or differs. */
  predicate DifferFrom(a: string, b: string, k: nat) {
    k <= |a| && k < |b| && a[..k] == b[..k] && (k == |a| || a[k] != b[k])
  }

  ghost predicate StrictlySorted(s: seq<string>) {
    forall i, j :: 0 <= i < j < |s| ==> Less(s[i], s[j])
  }

  ghost function Elements(s: seq<string>): set<string> {
    set x | x in s
  }

  predicate Distinct(s: seq<string>) {
    forall i, j :: 0 <= i < j < |s| ==> s[i] != s[j]
  }

  lemma StrictlySortedDistinct(s: seq<string>)
    requires StrictlySorted(s)
    ensures Distinct(s)
  {
    forall i, j | 0 <= i < j < |s| ensures s[i] != s[j] {
      LessTotal(s[i], s[j]);
    }
  }

  lemma SmallestFirst(s: seq<string>, x: string)
    requires StrictlySorted(s) && x in s
    ensures x == s[0] || Less(s[0], x)
  {
  }

  lemma EmptyElements(s: seq<string>)
    ensures Elements(s) == {} <==> s == []
  {
    if s != [] {
      assert s[0] in Elements(s);
    }
  }

  /** A set has one strictly sorted enumeration, so no iteration order can show in a sorted result. */
  lemma {:induction false} SortedUnique(s: seq<string>, t: seq<string>)
    requires StrictlySorted(s) && StrictlySorted(t) && Elements(s) == Elements(t)
    ensures s == t
  {
    if s == [] || t == [] {
      EmptyElements(s);
      EmptyElements(t);
    } else {
      assert s[0] in Elements(t) && t[0] in Elements(s);
      SmallestFirst(s, t[0]);
      SmallestFirst(t, s[0]);
      LessTotal(s[0], t[0]);
      StrictlySortedDistinct(s);
      StrictlySortedDistinct(t);
      assert Elements(s[1..]) == Elements(s) - {s[0]} by { ElementsTail(s); }
      assert Elements(t[1..]) == Elements(t) - {t[0]} by { ElementsTail(t); }
      SortedUnique(s[1..], t[1..]);
      assert s == [s[0]] + s[1..] && t == [t[0]] + t[1..];
    }
  }

  lemma ElementsTail(s: seq<string>)
    requires s != [] && StrictlySorted(s)
    ensures Elements(s[1..]) == Elements(s) - {s[0]}
  {
    StrictlySortedDistinct(s);
    assert s == [s[0]] + s[1..];
    assert s[0] !in s[1..];
  }

  function InsertSorted(s: seq<string>, x: string): (r: seq<string>)
    requires StrictlySorted(s) && x !in s
    ensures StrictlySorted(r) && Elements(r) == Elements(s) + {x}
  {
    if s == [] then [x]
    else if Less(x, s[0]) then
      assert forall k :: 1 <= k < |s| ==> Less(x, s[k]) by {
        forall k | 1 <= k < |s| ensures Less(x, s[k]) { LessTransitive(x, s[0], s[k]); }
      }
      [x] + s
    else
      LessTotal(x, s[0]);
      assert s == [s[0]] + s[1..];
      var r := InsertSorted(s[1..], x);
      assert forall k :: 0 <= k < |r| ==> r[k] in Elements(s[1..]) + {x} by {
        assert forall k :: 0 <= k < |r| ==> r[k] in Elements(r);
      }
      [s[0]] + r
  }

  /** Sorts distinct strings: the one strictly sorted list of the same elements. */
  function SortStrings(s: seq<string>): (r: seq<string>)
    requires Distinct(s)
    ensures StrictlySorted(r) && Elements(r) == Elements(s)
  {
    if s == [] then [] else
      assert s == [s[0]] + s[1..];
      assert s[0] !in Elements(s[1..]);
      InsertSorted(SortStrings(s[1..]), s[0])
  }

  /** The strictly sorted enumeration of a set. */
  ghost function SortedSeq(s: set<string>): (r: seq<string>)
    ensures StrictlySorted(r) && Elements(r) == s
  {
    if s == {} then [] else
      var x :| x in s;
      InsertSorted(SortedSeq(s - {x}), x)
  }

  /** Ranges over a set of keys, as over a map, in some order, nothing being known about which. */
  method Enumerate(keys: set<string>) returns (r: seq<string>)
    ensures Distinct(r) && Elements(r) == keys
  {
    r := [];
    var todo := keys;
    while todo != {}
      invariant Distinct(r) && Elements(r) !! todo && Elements(r) + todo == keys
    {
      var key :| key in todo;
      assert key !in Elements(r);
      r := r + [key];
      todo := todo - {key};
    }
  }

  /** The keys in order, whatever order they were ranged over in. */
  method SortedKeys(keys: set<string>) returns (r: seq<string>)
    ensures r == SortedSeq(keys)
  {
    r := Enumerate(keys);
    r := SortStrings(r);
    SortedUnique(r, SortedSeq(keys));
  }

  /** The value a Go string map yields: the empty string for an absent key. */
  function Lookup(m: map<string, string>, k: string): string {
    if k in m then m[k] else ""
  }
}
