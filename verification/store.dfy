/** The table of verified statements: built from a configuration, replaced as a whole. */
module Table {
  import opened Text
  import opened Statements
  import opened Verifier
  import opened GateConfig
  import opened Deciding

  /** What loading and decoding a source yields. */
  datatype Loaded = CannotRead | NotAStatement | Decoded(statement: Statement)

  /** The entry a backend deserves for what was loaded: the statement itself only if the verifier
      accepts it and it is about the configured server. */
  ghost function EntryFor(digest: Digest, loaded: Loaded, t: Backend): Entry {
    match loaded
    case CannotRead => Unusable(Unreadable)
    case NotAStatement => Unusable(Invalid)
    case Decoded(s) =>
      if !Accepted(digest, s) then Unusable(Invalid)
      else if !Covers(digest, s, t.Transport(), t.endpoint) then Unusable(DoesNotCover)
      else Verified(s)
  }

  /** What becomes of a source, stage by stage: exactly what makes it unreadable, invalid, about another
      server, or usable. A backend without a transport is matched against http. */
  lemma EntryExact(digest: Digest, loaded: Loaded, t: Backend)
    ensures var e := EntryFor(digest, loaded, t); var transport := if t.transport == "" then "http" else t.transport;
      && (e == Unusable(Unreadable) <==> loaded == CannotRead)
      && (e == Unusable(Invalid) <==>
            || loaded == NotAStatement
            || (loaded.Decoded? && !Accepted(digest, loaded.statement)))
      && (e == Unusable(DoesNotCover) <==>
            && loaded.Decoded? && Accepted(digest, loaded.statement)
            && !Covers(digest, loaded.statement, transport, t.endpoint))
      && (e.Verified? <==>
            && loaded.Decoded? && Accepted(digest, loaded.statement)
            && Covers(digest, loaded.statement, transport, t.endpoint))
      && (e.Verified? ==> e.statement == loaded.statement)
  {
  }

  /** Decodes and validates, as one step that either yields a statement or does not. */
  method Parse(digest: Digest, loaded: Loaded) returns (s: Option<Statement>)
    ensures s.Some? <==> loaded.Decoded? && Accepted(digest, loaded.statement)
    ensures s.Some? ==> s.value == loaded.statement
  {
    if !loaded.Decoded? {
      return None;
    }
    var problems := Verifier.Validate(digest, loaded.statement);
    return if problems == [] then Some(loaded.statement) else None;
  }

  /** Checks what was loaded for a backend, stage by stage. */
  method Verify(digest: Digest, loaded: Loaded, t: Backend) returns (e: Entry)
    ensures e == EntryFor(digest, loaded, t)
  {
    if loaded.CannotRead? {
      return Unusable(Unreadable);
    }
    var st := Parse(digest, loaded);
    if st.None? {
      return Unusable(Invalid);
    }
    var problems := Verifier.Validate(digest, st.value);
    if problems != [] {
      return Unusable(Invalid);
    }
    if !Covers(digest, st.value, t.Transport(), t.endpoint) {
      return Unusable(DoesNotCover);
    }
    return Verified(st.value);
  }

  /** One loaded configuration with its verified statements. */
  datatype Snapshot = Snapshot(
    config: Config, statements: map<string, Statement>, unusable: map<string, Reason>,
    entries: map<string, Entry>, passthrough: set<string>)

  /** The snapshot that a configuration and its entries amount to. */
  ghost function SnapshotOf(c: Config, entries: map<string, Entry>): Snapshot {
    Snapshot(c,
      map name | name in entries && entries[name].Verified? :: entries[name].statement,
      map name | name in entries && entries[name].Unusable? :: entries[name].reason,
      entries, set m <- c.passthroughMethods)
  }

  ghost function EntryOf(entries: map<string, Entry>, name: string): Option<Entry> {
    if name in entries then Some(entries[name]) else None
  }

  method Decide(snap: Snapshot, name: string) returns (d: Decision)
    ensures d == DecisionFor(snap.config.policy, EntryOf(snap.entries, name))
  {
    d := Evaluate(snap.config.policy, if name in snap.entries then Some(snap.entries[name]) else None);
  }

  // ---------------------------------------------------------------- building

  ghost function NamesOf(c: Config): seq<string> {
    SortedSeq(c.targets.Keys)
  }

  lemma NameIsTarget(c: Config, i: nat)
    requires i < |NamesOf(c)|
    ensures NamesOf(c)[i] in c.targets
  {
    assert NamesOf(c)[i] in Elements(NamesOf(c));
  }

  /** The entry of the `i`th name, from what its source held when the build came to it. */
  ghost predicate EntryFetched(digest: Digest, c: Config, fetch: (nat, string) -> Loaded,
                               entries: map<string, Entry>, i: nat)
  {
    && i < |NamesOf(c)|
    && var name := NamesOf(c)[i];
       name in entries && name in c.targets &&
       entries[name] == EntryFor(digest, fetch(i, c.targets[name].attestation), c.targets[name])
  }

  /** The entries of the first `k` names and no others, each as fetched. */
  ghost predicate BuiltUpTo(digest: Digest, c: Config, fetch: (nat, string) -> Loaded,
                            entries: map<string, Entry>, k: nat)
  {
    && k <= |NamesOf(c)| && entries.Keys == Elements(NamesOf(c)[..k])
    && forall i: nat | i < k :: EntryFetched(digest, c, fetch, entries, i)
  }

  ghost predicate Built(digest: Digest, c: Config, fetch: (nat, string) -> Loaded, snap: Snapshot) {
    BuiltUpTo(digest, c, fetch, snap.entries, |NamesOf(c)|) && snap == SnapshotOf(c, snap.entries)
  }

  lemma BuiltStep(digest: Digest, c: Config, fetch: (nat, string) -> Loaded, entries: map<string, Entry>, k: nat)
    requires BuiltUpTo(digest, c, fetch, entries, k) && k < |NamesOf(c)| && NamesOf(c)[k] in c.targets
    ensures NamesOf(c)[k] !in entries
    ensures var name := NamesOf(c)[k];
      BuiltUpTo(digest, c, fetch,
                entries[name := EntryFor(digest, fetch(k, c.targets[name].attestation), c.targets[name])], k + 1)
  {
    hide EntryFor, SortedSeq;
    var names := NamesOf(c);
    StrictlySortedDistinct(names);
    assert names[..k + 1] == names[..k] + [names[k]];
    assert names[k] !in names[..k];
    var t := c.targets[names[k]];
    var after := entries[names[k] := EntryFor(digest, fetch(k, t.attestation), t)];
    forall i: nat | i < k + 1 ensures EntryFetched(digest, c, fetch, after, i) {
      assert i < k ==> EntryFetched(digest, c, fetch, entries, i);
    }
  }

  method PassthroughSet(c: Config) returns (passthrough: set<string>)
    ensures passthrough == set m <- c.passthroughMethods
  {
    passthrough := {};
    for i := 0 to |c.passthroughMethods|
      invariant passthrough == set m <- c.passthroughMethods[..i]
    {
      passthrough := passthrough + {c.passthroughMethods[i]};
    }
    assert c.passthroughMethods[..|c.passthroughMethods|] == c.passthroughMethods;
  }

  /** Records one more entry in a snapshot, in the index and in the public map it belongs to. */
  method Record(snap: Snapshot, name: string, e: Entry) returns (r: Snapshot)
    requires snap == SnapshotOf(snap.config, snap.entries) && name !in snap.entries
    ensures r == SnapshotOf(snap.config, snap.entries[name := e])
  {
    r := snap.(entries := snap.entries[name := e]);
    if e.Unusable? {
      r := r.(unusable := snap.unusable[name := e.reason]);
    } else {
      r := r.(statements := snap.statements[name := e.statement]);
    }
  }

  /** Loads and verifies every statement the configuration names. It gives up only when the context
      is found done as it comes to a name; a backend's own problems are recorded, not returned. */
  method Build(digest: Digest, c: Config, done: nat -> bool, fetch: (nat, string) -> Loaded)
    returns (r: Option<Snapshot>)
    ensures r.None? <==> exists k: nat :: k < |NamesOf(c)| && done(k)
    ensures r.Some? ==> Built(digest, c, fetch, r.value) && r.value.config == c
    ensures r.Some? ==> forall m :: m in r.value.passthrough <==> m in c.passthroughMethods
  {
    hide EntryFor, SortedSeq;
    var passthrough := PassthroughSet(c);
    var snap := Snapshot(c, map[], map[], map[], passthrough);
    var names := SortedNames(c);
    for k := 0 to |names|
      invariant forall i: nat | i < k :: !done(i)
      invariant BuiltUpTo(digest, c, fetch, snap.entries, k)
      invariant snap == SnapshotOf(c, snap.entries)
    {
      if done(k) {
        return None;
      }
      NameIsTarget(c, k);
      BuiltStep(digest, c, fetch, snap.entries, k);
      var t := c.targets[names[k]];
      var e := Verify(digest, fetch(k, t.attestation), t);
      snap := Record(snap, names[k], e);
    }
    r := Some(snap);
  }

  // ---------------------------------------------------------------- what the table says

  /** A table keeps its configuration, and lets pass exactly the methods it names. */
  lemma TablePasses(c: Config, entries: map<string, Entry>, m: string)
    ensures SnapshotOf(c, entries).config == c
    ensures m in SnapshotOf(c, entries).passthrough <==> m in c.passthroughMethods
  {
  }

  /** What was fetched determines the whole table. */
  lemma BuiltUnique(digest: Digest, c: Config, fetch: (nat, string) -> Loaded, a: Snapshot, b: Snapshot)
    requires Built(digest, c, fetch, a) && Built(digest, c, fetch, b)
    ensures a == b
  {
    var names := NamesOf(c);
    assert names[..|names|] == names;
    forall name <- a.entries ensures a.entries[name] == b.entries[name] {
      assert name in Elements(names);
      var i: nat :| i < |names| && names[i] == name;
      assert EntryFetched(digest, c, fetch, a.entries, i) && EntryFetched(digest, c, fetch, b.entries, i);
    }
    assert a.entries == b.entries;
  }

  /** Deciding from the table is deciding from the backend's own statement: the name's entry is
      what verifying that one backend gives, and an unconfigured name has none. */
  lemma TableAgrees(digest: Digest, c: Config, fetch: (nat, string) -> Loaded, snap: Snapshot, name: string)
    requires Built(digest, c, fetch, snap)
    ensures name !in c.targets ==> EntryOf(snap.entries, name) == None
    ensures name in c.targets ==> exists i: nat ::
      (i < |NamesOf(c)| && NamesOf(c)[i] == name &&
       EntryOf(snap.entries, name) ==
         Some(EntryFor(digest, fetch(i, c.targets[name].attestation), c.targets[name])))
  {
    var names := NamesOf(c);
    assert names[..|names|] == names;
    assert name in snap.entries <==> name in Elements(names);
    if name in c.targets {
      assert name in Elements(names);
      var i: nat :| i < |names| && names[i] == name;
      assert EntryFetched(digest, c, fetch, snap.entries, i);
    }
  }

  /** Every configured name is in exactly one of the two public maps, and the index has exactly the
      configured names. */
  lemma TablePartitions(digest: Digest, c: Config, fetch: (nat, string) -> Loaded, snap: Snapshot)
    requires Built(digest, c, fetch, snap)
    ensures snap.entries.Keys == c.targets.Keys
    ensures snap.statements.Keys + snap.unusable.Keys == c.targets.Keys
    ensures snap.statements.Keys !! snap.unusable.Keys
    ensures forall name <- snap.statements :: snap.entries[name] == Verified(snap.statements[name])
    ensures forall name <- snap.unusable :: snap.entries[name] == Unusable(snap.unusable[name])
  {
    assert NamesOf(c)[..|NamesOf(c)|] == NamesOf(c);
  }

  /** One backend's trouble is its own: two builds that fetch the same for a name decide it alike,
      whatever they fetch for the others. */
  lemma TableIsolates(digest: Digest, c: Config, f: (nat, string) -> Loaded, g: (nat, string) -> Loaded,
                      snap: Snapshot, other: Snapshot, j: nat)
    requires Built(digest, c, f, snap) && Built(digest, c, g, other)
    requires j < |NamesOf(c)| && NamesOf(c)[j] in c.targets
    requires var source := c.targets[NamesOf(c)[j]].attestation; f(j, source) == g(j, source)
    ensures var name := NamesOf(c)[j];
      DecisionFor(snap.config.policy, EntryOf(snap.entries, name)) ==
      DecisionFor(other.config.policy, EntryOf(other.entries, name))
  {
    assert EntryFetched(digest, c, f, snap.entries, j) && EntryFetched(digest, c, g, other.entries, j);
  }

  /** An entry vouches for a backend only with an accepted statement about that very server, or a
      digest collision. */
  lemma VerifiedIsAbout(digest: Digest, loaded: Loaded, t: Backend)
    requires EntryFor(digest, loaded, t).Verified? && '\n' !in t.Transport()
    ensures loaded.Decoded? && Accepted(digest, loaded.statement)
    ensures var target := loaded.statement.evaluation.target;
      || SameTarget(target, t.Transport(), t.endpoint)
      || Collision(digest, Descriptor(target.transport, target.endpoint), Descriptor(t.Transport(), t.endpoint))
  {
    CoversIdentifiesTarget(digest, loaded.statement, t.Transport(), t.endpoint);
  }

  // ---------------------------------------------------------------- the store

  class Store {
    const digest: Digest
    var snap: Option<Snapshot>

    constructor (digest: Digest)
      ensures this.digest == digest && snap == None
    {
      this.digest := digest;
      snap := None;
    }

    /** Re-reads the configuration, given as it was decoded, and every statement it names. The table
        is replaced as a whole or not at all. */
    method Reload(decoded: Option<Config>, done: nat -> bool, fetch: (nat, string) -> Loaded)
      returns (ok: bool)
      modifies this`snap
      ensures ok <==> decoded.Some? && Usable(decoded.value) &&
                      forall k: nat :: k < |NamesOf(decoded.value)| ==> !done(k)
      ensures ok ==> snap.Some? && Built(digest, decoded.value, fetch, snap.value) && snap.value.config == decoded.value
      ensures ok ==> forall m :: m in snap.value.passthrough <==> m in decoded.value.passthroughMethods
      ensures !ok ==> snap == old(snap)
    {
      if decoded.None? {
        return false;
      }
      var errs := GateConfig.Validate(decoded.value);
      if errs != [] {
        return false;
      }
      var built := Build(digest, decoded.value, done, fetch);
      if built.None? {
        return false;
      }
      snap := built;
      return true;
    }
  }
}
