/** The gate's configuration, and what makes one usable. */
module GateConfig {
  import opened Text
  import opened Verifier

  /** One gated backend: where its statement comes from, and the server it must be about. */
  datatype Backend = Backend(attestation: string, endpoint: string, transport: string)
  {
    function Transport(): string {
      if transport == "" then "http" else transport
    }
  }

  datatype Policy = Policy(minScore: real, denyFailIn: seq<string>, requireAttestation: Option<bool>)
  {
    /** Whether a backend without a usable statement is denied; so unless said otherwise. */
    predicate Requires() {
      requireAttestation.None? || requireAttestation.value
    }
  }

  datatype Config = Config(targets: map<string, Backend>, policy: Policy, passthroughMethods: seq<string>)

  datatype ConfigError =
    | NoTargets
    | UnnamedTarget(name: string)
    | NoAttestation(name: string)
    | RefusedSource(name: string)
    | NoEndpointFor(name: string)
    | BadTransport(name: string)
    | BadMinimum
    | EmptyCategory(i: nat)

  /** A scheme other than https. */
  predicate Refused(source: string) {
    Contains(source, "://") && !("https://" <= source)
  }

  ghost predicate TargetError(name: string, t: Backend, e: ConfigError) {
    match e
    case UnnamedTarget(n) => n == name && TrimSpace(name) == ""
    case NoAttestation(n) => n == name && t.attestation == ""
    case RefusedSource(n) => n == name && t.attestation != "" && Refused(t.attestation)
    case NoEndpointFor(n) => n == name && t.endpoint == ""
    case BadTransport(n) => n == name && t.transport != "" && !KnownTransport(t.transport)
    case _ => false
  }

  /** The error is about one of these targets. */
  ghost predicate ErrorAmong(c: Config, names: set<string>, e: ConfigError) {
    exists name <- names :: name in c.targets && TargetError(name, c.targets[name], e)
  }

  ghost predicate HasError(c: Config, e: ConfigError) {
    || (e.NoTargets? && c.targets == map[])
    || ErrorAmong(c, c.targets.Keys, e)
    || (e.BadMinimum? && (c.policy.minScore < 0.0 || c.policy.minScore > 100.0))
    || (e.EmptyCategory? && e.i < |c.policy.denyFailIn| && TrimSpace(c.policy.denyFailIn[e.i]) == "")
  }

  predicate UsableBackend(name: string, t: Backend) {
    && TrimSpace(name) != ""
    && t.attestation != "" && !Refused(t.attestation)
    && t.endpoint != ""
    && KnownTransport(t.Transport())
  }

  /** A configuration the gate can run on. */
  ghost predicate Usable(c: Config) {
    && c.targets != map[]
    && (forall name <- c.targets :: UsableBackend(name, c.targets[name]))
    && 0.0 <= c.policy.minScore <= 100.0
    && (forall i :: 0 <= i < |c.policy.denyFailIn| ==> TrimSpace(c.policy.denyFailIn[i]) != "")
  }

  /** What is refused as a source: what has a scheme written out, unless it starts as https does. */
  lemma SourcesRefused(source: string)
    ensures Refused(source) <==> (exists l, r :: source == l + "://" + r) && !(exists r :: source == "https://" + r)
  {
    if Contains(source, "://") {
      var i :| 0 <= i <= |source| && OccursAt(source, "://", i);
      assert source == source[..i] + "://" + source[i + 3..];
    }
    if l, r :| source == l + "://" + r {
      assert source[|l|..|l| + 3] == "://" && OccursAt(source, "://", |l|);
    }
    if "https://" <= source {
      assert source == "https://" + source[8..];
    }
  }

  lemma UsableBackendExact(name: string, t: Backend)
    ensures UsableBackend(name, t) <==> forall e :: !TargetError(name, t, e)
  {
    if forall e :: !TargetError(name, t, e) {
      assert !TargetError(name, t, UnnamedTarget(name)) && !TargetError(name, t, NoAttestation(name));
      assert !TargetError(name, t, RefusedSource(name)) && !TargetError(name, t, NoEndpointFor(name));
      assert !TargetError(name, t, BadTransport(name));
    }
  }

  lemma UsableIffNoError(c: Config)
    ensures Usable(c) <==> forall e :: !HasError(c, e)
  {
    forall name <- c.targets
      ensures UsableBackend(name, c.targets[name]) <==> forall e :: !TargetError(name, c.targets[name], e)
    {
      UsableBackendExact(name, c.targets[name]);
    }
    if forall e :: !HasError(c, e) {
      assert !HasError(c, NoTargets) && !HasError(c, BadMinimum);
      forall i: nat | i < |c.policy.denyFailIn| ensures TrimSpace(c.policy.denyFailIn[i]) != "" {
        assert !HasError(c, EmptyCategory(i));
      }
      forall name <- c.targets, e ensures !TargetError(name, c.targets[name], e) {
        assert !HasError(c, e);
      }
    }
  }

  lemma NoScheme(source: string)
    ensures Refused(source) ==> ':' in source
  {
    if Refused(source) {
      ContainsStart(source, "://");
    }
  }

  /** There are usable configurations, and any minimum from 0 to 100 will do. */
  lemma ExampleUsable(minScore: real)
    requires 0.0 <= minScore <= 100.0
    ensures Usable(Config(map["b" := Backend("a.json", "x", "")], Policy(minScore, [], None), []))
  {
    var c := Config(map["b" := Backend("a.json", "x", "")], Policy(minScore, [], None), []);
    assert "b" in c.targets;
    assert TrimSpace("b") == "b" by {
      TrimSpaceIs("", "b", "");
      assert "" + "b" + "" == "b";
    }
    assert ':' !in "a.json";
    NoScheme("a.json");
  }

  /** Nothing a usable configuration must have can be spared: whichever one part is broken, it is no
      longer usable. */
  lemma NothingSpared(c: Config, name: string, other: string, x: real)
    requires Usable(c) && name in c.targets
    ensures !Usable(c.(targets := map[]))
    ensures TrimSpace(other) == "" ==> !Usable(c.(targets := c.targets[other := c.targets[name]]))
    ensures !Usable(c.(targets := c.targets[name := c.targets[name].(attestation := "")]))
    ensures Refused(other) ==> !Usable(c.(targets := c.targets[name := c.targets[name].(attestation := other)]))
    ensures !Usable(c.(targets := c.targets[name := c.targets[name].(endpoint := "")]))
    ensures other !in ["", "http", "stdio"] ==>
      !Usable(c.(targets := c.targets[name := c.targets[name].(transport := other)]))
    ensures x < 0.0 || x > 100.0 ==> !Usable(c.(policy := c.policy.(minScore := x)))
    ensures TrimSpace(other) == "" ==> !Usable(c.(policy := c.policy.(denyFailIn := c.policy.denyFailIn + [other])))
  {
    hide TrimSpace, Refused;
    OneBroken(c, name, c.targets[name].(attestation := ""));
    OneBroken(c, name, c.targets[name].(attestation := other));
    OneBroken(c, name, c.targets[name].(endpoint := ""));
    OneBroken(c, name, c.targets[name].(transport := other));
    OneBroken(c, other, c.targets[name]);
    assert other !in ["", "http", "stdio"] ==> other != "" && !KnownTransport(other) by {
      var known := ["", "http", "stdio"];
      assert known[0] == "" && known[1] == "http" && known[2] == "stdio";
    }
    var longer := c.policy.denyFailIn + [other];
    assert longer[|longer| - 1] == other;
  }

  lemma OneBroken(c: Config, name: string, t: Backend)
    ensures !UsableBackend(name, t) ==> !Usable(c.(targets := c.targets[name := t]))
  {
    hide UsableBackend;
    assert name in c.targets[name := t];
  }

  /** Adds an error when its condition holds. */
  method Add(errs: seq<ConfigError>, wrong: bool, e: ConfigError) returns (r: seq<ConfigError>)
    ensures forall x :: x in r <==> x in errs || (wrong && x == e)
  {
    r := if wrong then errs + [e] else errs;
  }

  method ValidateTarget(errs: seq<ConfigError>, name: string, t: Backend) returns (r: seq<ConfigError>)
    ensures forall e :: e in r <==> e in errs || TargetError(name, t, e)
  {
    r := Add(errs, TrimSpace(name) == "", UnnamedTarget(name));
    r := Add(r, t.attestation == "", NoAttestation(name));
    r := Add(r, t.attestation != "" && Refused(t.attestation), RefusedSource(name));
    r := Add(r, t.endpoint == "", NoEndpointFor(name));
    r := Add(r, t.transport != "" && !KnownTransport(t.transport), BadTransport(name));
  }

  /** The configured names in order. */
  method SortedNames(c: Config) returns (names: seq<string>)
    ensures names == SortedSeq(c.targets.Keys)
  {
    names := SortedKeys(c.targets.Keys);
  }

  lemma ErrorAmongStep(c: Config, names: set<string>, name: string, e: ConfigError)
    requires name in c.targets
    ensures ErrorAmong(c, names + {name}, e) <==> ErrorAmong(c, names, e) || TargetError(name, c.targets[name], e)
  {
  }

  lemma NoneAmong(c: Config, e: ConfigError)
    ensures !ErrorAmong(c, {}, e)
  {
  }

  method ValidateTargets(c: Config) returns (errs: seq<ConfigError>)
    ensures forall e :: e in errs <==> ErrorAmong(c, c.targets.Keys, e)
  {
    hide ErrorAmong, TargetError, SortedSeq;
    errs := [];
    var names := SortedNames(c);
    assert names[..0] == [] && Elements([]) == {};
    forall e {
      NoneAmong(c, e);
    }
    for k := 0 to |names|
      invariant forall e :: e in errs <==> ErrorAmong(c, Elements(names[..k]), e)
    {
      assert names[..k + 1] == names[..k] + [names[k]];
      assert Elements(names[..k + 1]) == Elements(names[..k]) + {names[k]};
      assert names[k] in Elements(names);
      forall e {
        ErrorAmongStep(c, Elements(names[..k]), names[k], e);
      }
      errs := ValidateTarget(errs, names[k], c.targets[names[k]]);
    }
    assert names[..|names|] == names;
  }

  method ValidateCategories(c: Config) returns (errs: seq<ConfigError>)
    ensures forall e :: e in errs <==>
      (e.EmptyCategory? && e.i < |c.policy.denyFailIn| && TrimSpace(c.policy.denyFailIn[e.i]) == "")
  {
    errs := [];
    for i := 0 to |c.policy.denyFailIn|
      invariant forall e :: e in errs <==>
        (e.EmptyCategory? && e.i < i && TrimSpace(c.policy.denyFailIn[e.i]) == "")
    {
      errs := Add(errs, TrimSpace(c.policy.denyFailIn[i]) == "", EmptyCategory(i));
    }
  }

  /** Lists every way the configuration is unusable. */
  method Validate(c: Config) returns (errs: seq<ConfigError>)
    ensures forall e :: e in errs <==> HasError(c, e)
    ensures errs == [] <==> Usable(c)
  {
    var none := Add([], |c.targets| == 0, NoTargets);
    var targets := ValidateTargets(c);
    var bounds := Add([], c.policy.minScore < 0.0 || c.policy.minScore > 100.0, BadMinimum);
    var categories := ValidateCategories(c);
    errs := none + targets + bounds + categories;
    UsableIffNoError(c);
    if errs != [] {
      assert errs[0] in errs && HasError(c, errs[0]);
    }
  }
}
