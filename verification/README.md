# scout attestations: a verified model

This project models, in Dafny, the four parts of scout-reporting that decide whether a statement about an
MCP server can be relied on, and proves what each of them promises.

- **The schema compiler** (`scripts/specgen/main.go`). A class walks a graph of Go types, cyclic or not,
  reserving a struct's name before compiling its fields and writing definitions into a shared table. The walk
  terminates (fewer undefined names, then a smaller type) and refines a declarative closure: the definitions
  are exactly those of the structs reachable from the root, each a function of its own declaration, every
  reference resolves, and generation fails exactly when a reachable struct has a followed field with no schema.
  With an encoder and the meaning of the emitted keywords (sections 8.2.3.1, 10.3.1.2, 10.3.2.1 and 10.3.2.3 of
  JSON Schema Core 2020-12, sections 6.1.1, 6.1.2, 6.1.3 and 6.5.3 of JSON Schema Validation 2020-12), the
  meaning of every emitted schema is characterised over any JSON, and the compiler is proved correct: the JSON of a
  value conforms to the schema of its type if and only if the value is clean (nothing nil where it is written, no
  byte slice, raw JSON only as an array of integers, overridden fields within their override). The result is then
  applied to the real attestation types, whose generated schema is shown to be the published file, and compared
  with the verifier in both directions.
- **The verifier** (`attestation/verify.go`, `attestation/statement.go`). Every method that notes problems is
  proved to note exactly the problems the statement has; acceptance is stated positively beside them. Coverage
  is identified with "the same server, or two strings with one digest", for any digest function at all.
- **The comparison** (`attestation/diff.go`). The loops and sorts of `Compare` are proved to compute one
  function of the two statements; about that function the laws are proved: exact, sorted, disjoint buckets,
  swap duality, the patch round trip, replaying a history, conservation, and that nothing gets worse unseen.
- **The gate** (`integrations/agentgateway-extmcp`). Configuration, policy, table, store and server are methods
  and classes proved against what they must decide. The running process is a system of interleaved steps
  (main routine, reloader, hangups and ticks, cancellation, requests), each taking one tick of a clock; what
  files and network hold is a function of time. Over every run: no hangup is lost and each is served within a
  bounded number of the reloader's own steps, after which every later answer rests on a configuration read since;
  a table is replaced whole or not at all; an answer is the
  decision of one complete table; versions never go back; and a call passes or is denied by exactly what the
  sources of its backends held when that table was built.

## Layout

| file | module | contents |
|---|---|---|
| `text.dfy` | `Text` | trimming, substring search, sorting of identifiers |
| `json.dfy` | `Json` | JSON values, schemas, conformance |
| `gotypes.dfy` | `GoTypes` | Go types and values, and their JSON encoding |
| `specgen.dfy`, `specgen_correct.dfy` | `Specgen`, `CompilerCorrectness` | the compiler, its closure, its correctness |
| `statement.dfy`, `verify.dfy` | `Statements`, `Verifier` | statements, and which are accepted |
| `statement_schema.dfy`, `statement_json.dfy` | `StatementSchema`, `StatementWriting` | the compiler and the encoder applied to the attestation types |
| `published_schema.dfy` | `PublishedSchema` | the published schema file |
| `diff.dfy`, `diff_laws.dfy` | `Drift`, `DriftLaws` | the comparison and its laws |
| `config.dfy`, `policy.dfy`, `drift_gate.dfy` | `GateConfig`, `Deciding`, `DriftGate` | configuration, policy, and what a comparison says about it |
| `store.dfy`, `server.dfy` | `Table`, `Gate` | the table of verified statements, and answering from it |
| `runtime.dfy`, `runtime_safety.dfy`, `runtime_theorems.dfy` | `Runtime`, `RuntimeSafety`, `RuntimeTheorems` | the step system, its invariant, the results over runs |

`dafny verify dfyconfig.toml` checks everything.

## Where the code and its documentation differ

- `README.md:69-72` says the schema and the verifier accept the same statements. They do not, in either
  direction. `StatementSchema.AcceptedConforms` gives the exact condition under which an accepted statement
  conforms (its plan's specification, if there is a plan, is an array of integers) and
  `StatementSchema.ConformingAccepted` the exact condition under which a conforming one is accepted.
  `StatementSchema.PlanBreaksConformance` makes accepted statements that do not conform, and
  `StatementSchema.SchemaIsWeaker` conforming statements that are refused.
- `attestation/verify.go:165-167` suggests that `Covers` looks past a trailing slash. Only white space is
  trimmed: `Verifier.TrailingSlashMatters`.
- `attestation/diff.go:107-117` compares the first verdict of each id, while
  `integrations/agentgateway-extmcp/processor/policy.go:91-99` looks at all of them.
  Nor does the comparison look at a verdict's category, which is what the gate goes by. A comparison that lists
  nothing worse therefore bounds the gate exactly when no repeated verdict of the later statement disqualifies and
  no failing check moved into a denied category (`DriftGate.DriftBoundsGate`). The verifier admits both:
  `DriftGate.RepeatedIdEscapesComparison` and `DriftGate.RefiledEscapesComparison`, each with a concrete instance,
  give accepted statements that the comparison cannot tell apart and the gate does.
- `integrations/agentgateway-extmcp/processor/store.go:89-91` says a build fails only when the context ends.
  The converse does not hold: the context is looked at only as the build comes to a name, so one that ends
  during the last fetch is not noticed (`RuntimeTheorems.ReloadFailsExactly`, `Table.Build`).

## Model

| member | source | states |
|---|---|---|
| Specgen.Compiler.TypeSchema | scripts/specgen/main.go:105-164 | The schema returned is a function of the type alone; the table only grows, what it had stays as it was, every new name is a struct reachable through followed fields with its own complete definition and everything that mentions, and giving up means some reachable field has no schema. Terminates on cyclic graphs |
| Specgen.Compiler.DefineStruct | scripts/specgen/main.go:127-159 | Reserving the name first and defining it last leaves no reserved name behind among the new ones, whatever recursion happens in between |
| Specgen.Generate | scripts/specgen/main.go:90-101 | Succeeds if and only if every struct reachable from the root can be defined; the definitions are exactly those of the reachable structs |
| Specgen.ClosedUnderReach | scripts/specgen/main.go:127-150 | A set of structs closed under mention contains everything a chain of mentions reaches from it |
| Specgen.ClosureResolves | scripts/specgen/main.go:160 | Every `$ref` in the closure, and the root's, names a definition that is present |
| CompilerCorrectness.PropertiesExact | scripts/specgen/main.go:130-149 | The properties are exactly the exported fields not named by a dash, each with its override or the schema of its type |
| CompilerCorrectness.RequiredExact | scripts/specgen/main.go:150-152 | The required names are exactly those of compiled fields in whose tag options `omitempty` occurs nowhere |
| CompilerCorrectness.RequiredIsEmitted | scripts/specgen/main.go:150-152 | The compiler's substring test errs only on the safe side: a required member is always written |
| CompilerCorrectness.FixedCorrect | scripts/specgen/main.go:82-87 | A value conforms to a const or enum override exactly when it is written as an allowed text |
| CompilerCorrectness.NullNeverConforms | scripts/specgen/main.go:105-163 | No schema the compiler emits admits null |
| CompilerCorrectness.SchemaMeans | scripts/specgen/main.go:105-164 | For every modelled type and any JSON at all, with references resolved: it conforms if and only if it has the shape of the type, written out by type: integral numbers, shaped elements and members, and for a struct every member whose tag does not let it be omitted |
| CompilerCorrectness.CompilerCorrect | scripts/specgen/main.go:105-164 | For every modelled type and value, with references resolved in the finished definitions: the encoding conforms if and only if the value is clean |
| CompilerCorrectness.StructCorrect | scripts/specgen/main.go:126-160 | The same for structs, field by field, in both directions |
| CompilerCorrectness.DocumentMeans | scripts/specgen/main.go:90-101 | The generated document accepts exactly the JSON that has the shape of its root |
| CompilerCorrectness.DocumentCorrect | scripts/specgen/main.go:90-101 | The same for the generated document as a whole |
| StatementSchema.UnitWellFormed | attestation/statement.go:70-209 | The attestation types meet the compiler's assumptions: declared structs, distinct member names, overrides of the two kinds |
| StatementWriting.StatementWritten | attestation/statement.go:70-209 | The JSON of a statement, member by member: each field under its own name with its own value, or left out when it is to be omitted |
| StatementSchema.StatementClean | attestation/statement.go:70-139 | Under any overrides of the same fields, and with any of its empty lists and maps nil, a statement is clean exactly when those fields and the plan are within them and nothing that is always written is nil |
| StatementSchema.SchemaExact | scripts/specgen/main.go:82-101 | A statement's JSON conforms to the published schema if and only if its types, subject kind, transport and statuses are the published ones, its plan's specification is an array of integers, and neither its subject list, nor its verdict list, nor the digest of a subject is nil |
| StatementSchema.AcceptedConforms | attestation/verify.go:34-144 | An accepted statement conforms exactly when its plan, if any, has an array of integers for its specification; without a plan it always does |
| StatementSchema.PlanBreaksConformance | attestation/statement.go:124-127 | Every accepted statement given a plan with an object for its specification stays accepted and stops conforming |
| StatementSchema.ConformingAccepted | attestation/verify.go:34-144 | A conforming statement is accepted if and only if it has the one subject that names and digests its target, an identified and dated run with verdicts and a basis, an id for every verdict, and counts that add up |
| StatementSchema.SchemaIsWeaker | attestation/verify.go:45-76 | Every conforming statement still conforms without its subject, and is then refused |
| StatementSchema.PublishedDefinitions | scripts/specgen/main.go:90-101 | The published definitions are the eleven structs of the attestation package |
| PublishedSchema.PublishedIsFile | spec/attestation/mcp-evaluation-v1.schema.json:3-301 | The definitions generated from the attestation types are those of the published file, property by property, with the same required members in the same order |
| StatementSchema.GeneratePublished | scripts/specgen/main.go:90-101 | Generating from the attestation types succeeds and yields the closure of Statement |
| Verifier.Validate | attestation/verify.go:34-144 | Lists every problem of the statement and no other; nothing is listed exactly for accepted statements |
| Verifier.ValidateSubject | attestation/verify.go:45-76 | Notes exactly the problems of the subject: how many, named, named for the target, with the target's digest |
| Verifier.NoDigestExact | attestation/verify.go:61-71 | The digest looked at is the one named sha256 of the only subject: absent or empty it is missing, otherwise compared |
| Verifier.ValidateTarget | attestation/verify.go:78-92 | Notes exactly the problems of the subject kind and the target |
| Verifier.ValidateRun | attestation/verify.go:93-109 | Notes exactly the problems of instrument, run time, verdict list and basis |
| Verifier.ValidateVerdicts | attestation/verify.go:111-138 | One pass notes exactly the verdicts without an id or with an unknown status, and whether the declared counts differ from the number of identified verdicts of each status |
| Verifier.AppendedAccepted | attestation/verify.go:111-138 | An accepted statement with one more verdict is accepted exactly when that verdict has an id and a known status, and the count of its own status, and no other, is one higher |
| Verifier.AcceptedIffNoProblem | attestation/verify.go:28-33 | The guarantees of the format, stated positively, hold exactly when there is no problem |
| Verifier.NothingSpared | attestation/verify.go:34-144 | Whichever one part of an accepted statement is taken away or made to disagree, it is refused |
| Verifier.VerdictFor | attestation/verify.go:153-160 | The first verdict with the id, and none exactly when no verdict has it |
| Verifier.DescriptorInjective | attestation/statement.go:224-231 | Descriptors of newline-free transports agree exactly for one transport and endpoints equal after trimming |
| Verifier.DescriptorAmbiguousWithNewline | attestation/statement.go:229-231 | Two different servers with one descriptor, when a transport may hold a newline |
| Verifier.CoversIdentifiesTarget | attestation/verify.go:162-174 | For any transport asked about that holds no newline, an accepted statement covers the target exactly when it names that very server or the two descriptors collide under the digest |
| Verifier.TrailingSlashMatters | attestation/verify.go:162-174 | An accepted statement covers its own endpoint with a slash appended exactly when the digest collides |
| Verifier.SubjectForVerifies | attestation/statement.go:211-222 | A subject made by SubjectFor is covered however the endpoint is padded, and fails no check of the subject but for a blank endpoint or an empty digest |
| Text.TrimSpaceIs | attestation/statement.go:230 | Trimming returns the core between any two blank margins |
| Text.TrimSpaceIdempotent | attestation/statement.go:230 | Trimming twice is trimming once |
| Text.SpaceTable | attestation/statement.go:230 | White space is the 25 characters with the Unicode property White_Space |
| Text.LessExact | attestation/diff.go:77 | Strings are sorted by the first character in which they differ, a proper prefix coming first |
| Drift.VerdictIndex | attestation/diff.go:107-117 | The index answers, for every id, what the first verdict with that id answers |
| Drift.UnionIds | attestation/diff.go:68-77 | The ids of both statements, each once and sorted, whatever order the maps yield them in |
| Drift.CompareCheck | attestation/diff.go:79-98 | The branches put a check in the one bucket its two measurements call for |
| Drift.Compare | attestation/diff.go:61-105 | Computes one function of the two statements, independent of map iteration order |
| DriftLaws.BucketsByStatus | attestation/diff.go:31-57 | Which checks each bucket lists, by the statuses of the first verdicts: pass or info to warn or fail, or warn to fail, is a regression, the reverse an improvement; failing twice with another severity is a severity change; told before and not after is unassessed, and the reverse added |
| DriftLaws.ChangeAsRecorded | attestation/diff.go:15-23 | Every change listed carries the statuses and severities of both first verdicts, and nothing where there is none |
| DriftLaws.ScoresReported | attestation/diff.go:64-66 | The two are comparable exactly on one rubric and one check inventory, and then both totals are reported if both are scored, the earlier one first |
| DriftLaws.BucketExact | attestation/diff.go:31-45 | Each bucket holds exactly the checks of its kind with what both statements record, strictly sorted by id |
| DriftLaws.BucketsDisjoint | attestation/diff.go:83-97 | No check is in two buckets or twice in one |
| DriftLaws.RegressionExact | attestation/diff.go:52-53 | Regression is reported exactly when some check went from pass or info to warn or fail, or from warn to fail |
| DriftLaws.SwapDuality | attestation/diff.go:61-105 | Comparing the other way round gives the mirror image, list by list in order, scores swapped |
| DriftLaws.PatchRoundTrip | attestation/diff.go:79-98 | Applying the delta to what was measured before, knowing nothing else, gives what is measured after |
| DriftLaws.EmptyDeltaExact | attestation/diff.go:79-98 | A delta lists nothing exactly when both statements measured the same |
| DriftLaws.Conservation | attestation/diff.go:40-45 | Measured after plus lost equals measured before plus gained |
| DriftLaws.HistoryConserves | attestation/diff.go:40-45 | The same along any history, with the totals of every step |
| DriftLaws.ReplayIsOneDelta | attestation/diff.go:61-105 | Applying every delta of a history in turn equals applying the one delta between its ends |
| DriftLaws.DriftIsListed | attestation/diff.go:83-97 | A check measured at both ends of a history and worse at the last was listed on the way as regressed, or as lost and later as added |
| GateConfig.Validate | integrations/agentgateway-extmcp/processor/config.go:104-143 | Lists every way the configuration is unusable and no other; nothing exactly for usable ones |
| GateConfig.UsableIffNoError | integrations/agentgateway-extmcp/processor/config.go:104-143 | A usable configuration, stated positively, is one with no error |
| GateConfig.SourcesRefused | integrations/agentgateway-extmcp/processor/config.go:120-124 | A source is refused exactly when it has a scheme written out and does not start as https does |
| GateConfig.NothingSpared | integrations/agentgateway-extmcp/processor/config.go:104-143 | Whichever one part of a usable configuration is broken, it is no longer usable |
| GateConfig.SortedNames | integrations/agentgateway-extmcp/processor/config.go:110-114 | The configured names, each once and sorted, whatever order the map yields them in |
| Deciding.FailingIn | integrations/agentgateway-extmcp/processor/policy.go:79-101 | The denied categories with failing checks, each with the ids that fail in it, in order |
| Deciding.DescribeFailing | integrations/agentgateway-extmcp/processor/policy.go:61-69 | The failing categories in order, whatever order the map yields them in |
| Deciding.Evaluate | integrations/agentgateway-extmcp/processor/policy.go:34-77 | The branches compute the decision function, cause and statement included |
| Deciding.AllowExact | integrations/agentgateway-extmcp/processor/policy.go:34-77 | A backend is allowed exactly when it has a sufficient statement, or has none and the policy's flag is set to false; where the flag is absent a statement is required |
| Deciding.CauseExact | integrations/agentgateway-extmcp/processor/policy.go:37-77 | Which cause a decision gives for which condition, both ways, and which statement it rests on |
| Deciding.FailingPartsExact | integrations/agentgateway-extmcp/processor/policy.go:60-71 | A denial for failing checks lists exactly the denied categories some check fails in, each once and in order, with the ids that fail in it |
| Deciding.FailingIdsJoin | integrations/agentgateway-extmcp/processor/policy.go:91-99 | The ids listed for a category are collected verdict by verdict, in order |
| Deciding.LooserAllows | integrations/agentgateway-extmcp/processor/policy.go:37-77 | Loosening a policy in any of its three dimensions never turns allow into deny |
| Deciding.LooserExact | integrations/agentgateway-extmcp/processor/config.go:59-79 | As soon as any statement is accepted at all, the order on policies is exactly the order on what they allow among entries the table can hold |
| DriftGate.DriftBoundsGate | integrations/agentgateway-extmcp/processor/policy.go:82-101 | If the earlier statement has no disqualifying verdict and the comparison lists nothing regressed and nothing added, the later one has none if and only if none of its repeated verdicts disqualifies and no failing check moved into a denied category |
| DriftGate.DriftBoundsGateAlone | integrations/agentgateway-extmcp/processor/policy.go:82-101 | With distinct ids and stable categories, nothing listed as regressed or added is enough |
| DriftGate.DriftBoundsDecision | integrations/agentgateway-extmcp/processor/policy.go:37-77 | The same for the whole decision on one basis: what was allowed stays allowed exactly when, besides, the later score reported by the comparison meets the minimum, which it does if it has not fallen |
| DriftGate.RepeatedIdEscapesComparison | attestation/verify.go:117-120 | Every accepted statement with a check in a denied category can record that check again as failing and stay accepted; the comparison then lists nothing and the gate denies |
| DriftGate.RepeatedIdExample | attestation/diff.go:107-117 | A concrete pair of accepted statements: the first allowed, the second denied, and nothing listed between them |
| DriftGate.RefiledEscapesComparison | attestation/diff.go:83-97 | Every accepted statement with a failing check can file it under a denied category and stay accepted; the comparison lists nothing and the gate denies |
| DriftGate.RefiledExample | attestation/diff.go:83-97 | A concrete pair of accepted statements without repeated ids: the first allowed, the second denied, and nothing listed between them |
| Table.Parse | attestation/verify.go:17-26 | A statement comes out exactly when the source decodes and the statement is accepted |
| Table.Verify | integrations/agentgateway-extmcp/processor/store.go:138-160 | The entry for a backend: its statement when loaded, accepted and covering, and otherwise the first stage that refused |
| Table.EntryExact | integrations/agentgateway-extmcp/processor/store.go:138-160 | What makes a source unreadable, invalid, about another server, or usable, each exactly; a backend without a transport is matched against http |
| Table.Record | integrations/agentgateway-extmcp/processor/store.go:119-133 | Recording an entry keeps the index and the two public maps in agreement |
| Table.PassthroughSet | integrations/agentgateway-extmcp/processor/store.go:106-108 | The set holds exactly the configured methods |
| Table.Build | integrations/agentgateway-extmcp/processor/store.go:89-136 | Fails exactly when the context is found done as the build comes to a name; otherwise every configured name has the entry its own source deserves, nothing else is in the table, and exactly the configured methods pass through |
| Table.Decide | integrations/agentgateway-extmcp/processor/store.go:165-168 | Decides from the entry of that name, or from its absence |
| Table.TableAgrees | integrations/agentgateway-extmcp/processor/store.go:163-168 | Every name's entry is what verifying that one backend gives, and an unconfigured name has none |
| Table.TablePartitions | integrations/agentgateway-extmcp/processor/store.go:30-43 | Statements and Unusable partition the configured names, and the index holds exactly both |
| Table.BuiltUnique | integrations/agentgateway-extmcp/processor/store.go:92-136 | What was fetched determines the whole table |
| Table.TableIsolates | integrations/agentgateway-extmcp/processor/store.go:89-91 | Two builds that fetch the same for a name decide it alike, whatever they fetch for the others |
| Table.VerifiedIsAbout | integrations/agentgateway-extmcp/processor/store.go:142-160 | An entry vouches only with an accepted statement about the configured server, or else the digest collides |
| Table.Store.Reload | integrations/agentgateway-extmcp/processor/store.go:65-87 | Succeeds exactly for a usable configuration with the context alive at every name; then the table is the one built, with the configured pass-through methods, and otherwise it is untouched |
| Gate.Server.CheckRequest | integrations/agentgateway-extmcp/processor/server.go:32-72 | Unavailable without a table; a pass-through method passes; otherwise the first named backend that is not allowed is denied with its cause, and a pass carries the ratings of exactly the named backends with scored statements |
| Gate.UnavailableExact | integrations/agentgateway-extmcp/processor/server.go:37-44 | No decision is made without a table, and one always is with it |
| Gate.PassRates | integrations/agentgateway-extmcp/processor/server.go:51-72 | A pass carries the total and grade of every named backend whose statement is scored and nothing else, and nothing at all when the call is not gated |
| Gate.FanOutConcatenates | integrations/agentgateway-extmcp/processor/server.go:51-72 | A call over two lists passes exactly when both do, with both sets of ratings, and is otherwise denied as the first that fails |
| Gate.LooserPasses | integrations/agentgateway-extmcp/processor/server.go:40-72 | Loosening the policy of a table never turns a pass into a denial |
| RuntimeSafety.StepTables | integrations/agentgateway-extmcp/processor/store.go:70-87 | Every step keeps each reload in progress right so far, every published table complete, and the store equal to the last one published |
| RuntimeSafety.StepLifecycle | integrations/agentgateway-extmcp/cmd/agentgateway-extmcp/main.go:49-113 | Every step keeps what each point of the main routine implies about handler, table, reloader and shutdown |
| RuntimeSafety.StepSignals | integrations/agentgateway-extmcp/cmd/agentgateway-extmcp/main.go:73-79 | A hangup is pending once it has come, and every step keeps a pending one in the slot or with a reload about to read the configuration |
| RuntimeSafety.StepOrder | integrations/agentgateway-extmcp/processor/store.go:70-87 | Every step keeps the tables in order: each was built from a configuration read after the one before it went into service, and so will be the one being built |
| RuntimeSafety.StepRequests | integrations/agentgateway-extmcp/processor/server.go:40-72 | Every step keeps each request decided so far by the one table it read, and published tables unchanged |
| RuntimeTheorems.ReachableInv | integrations/agentgateway-extmcp/cmd/agentgateway-extmcp/main.go:49-141 | All of it holds in every reachable state |
| RuntimeTheorems.GateStarts | integrations/agentgateway-extmcp/cmd/agentgateway-extmcp/main.go:73-105 | If the file holds a usable configuration as it is first read, some run brings the gate up with a table built from it |
| RuntimeTheorems.FailedStartReturns | integrations/agentgateway-extmcp/cmd/agentgateway-extmcp/main.go:59-89 | Refused flags, a first load that fails or an address that cannot be listened on end `run`, with no reloader left behind |
| RuntimeTheorems.Lifecycle | integrations/agentgateway-extmcp/cmd/agentgateway-extmcp/main.go:73-112 | With the listener open there is a table and the handler is installed; a hangup kills the process exactly before the handler goes in; after `run` returns the reloader has no step left |
| RuntimeTheorems.JoinCompletes | integrations/agentgateway-extmcp/cmd/agentgateway-extmcp/main.go:97-102 | Once the server has stopped, at most six steps of `run` and the reloader bring `run` to its return, whatever a reload in progress still has to load |
| RuntimeTheorems.ShutdownCompletes | integrations/agentgateway-extmcp/cmd/agentgateway-extmcp/main.go:106-112 | From every cancelled state with the server running, some continuation brings `run` to its return, in as many steps as the calls in progress still have to take and eight more |
| RuntimeTheorems.CancelShutsDown | integrations/agentgateway-extmcp/cmd/agentgateway-extmcp/main.go:106-112 | Cancelling a running gate can always be followed through to the return of `run` |
| RuntimeTheorems.DrainAnswersAll | integrations/agentgateway-extmcp/cmd/agentgateway-extmcp/main.go:107-109 | A drain that ends leaves no call without its answer |
| RuntimeTheorems.TableReplacedWhole | integrations/agentgateway-extmcp/processor/store.go:65-87 | Exactly the steps that finish a load publish, each the one complete table loaded; a load that fails or is still going, and every other step, leaves the store and what was published untouched |
| RuntimeTheorems.ReloadFailsExactly | integrations/agentgateway-extmcp/processor/store.go:114-117 | A reload fails exactly on an unusable configuration, or on a context found done with a backend still to load |
| RuntimeTheorems.CutShort | integrations/agentgateway-extmcp/processor/store.go:114-117 | A load whose context is done ends at the next backend: a first load ends `run`, a later one leaves the table alone |
| RuntimeTheorems.CompleteIsBuilt | integrations/agentgateway-extmcp/processor/store.go:92-136 | A table published step by step amid everything else is the one, and the only one, that a single call of `Build` returns |
| RuntimeTheorems.NoHangupLost | integrations/agentgateway-extmcp/cmd/agentgateway-extmcp/main.go:73-79 | In every reachable state with the handler in, a hangup goes into the slot and is pending; one not followed by a later read of the configuration is in the slot or about to be served; and a running reloader always has a step toward it |
| RuntimeTheorems.HangupServed | integrations/agentgateway-extmcp/cmd/agentgateway-extmcp/main.go:118-141 | From a hangup on, short of exiting, the reloader reads the configuration after it came within a number of its own steps bounded by the backends the current reload still has to load, whatever else happens |
| RuntimeTheorems.TickReads | integrations/agentgateway-extmcp/cmd/agentgateway-extmcp/main.go:127-135 | A tick, or the signal in the slot, has the configuration read by the reloader's next step |
| RuntimeTheorems.ReloadSucceeds | integrations/agentgateway-extmcp/cmd/agentgateway-extmcp/main.go:118-141 | From an idle reloader, a trigger and the reloader's own steps can publish a table built from the configuration as it is then read, if that is usable |
| RuntimeTheorems.HangupTakesEffect | integrations/agentgateway-extmcp/cmd/agentgateway-extmcp/main.go:118-141 | Once a reload that started after a hangup has put its table in service, every request that reads from then on is decided by a configuration read after the hangup |
| RuntimeTheorems.AnsweredFromOneTable | integrations/agentgateway-extmcp/processor/store.go:22-26 | Every answer is the decision of one complete table that was in service at some instant of the request |
| RuntimeTheorems.VersionsNeverGoBack | integrations/agentgateway-extmcp/processor/store.go:59-63 | A request that reads later than another reads the same table, or one built from a configuration read after that other went into service |
| RuntimeTheorems.EveryCallTaken | integrations/agentgateway-extmcp/processor/server.go:40-46 | A serving gate takes every call, and changes nothing else |
| RuntimeTheorems.RequestAnswered | integrations/agentgateway-extmcp/processor/server.go:40-72 | A request waits for nothing but itself, and has its answer within two of its own steps more than the backends it names |
| RuntimeTheorems.GateExact | integrations/agentgateway-extmcp/processor/server.go:40-72 | Over any run, a call is denied for the first backend it names that was not good to call by what its source held as the table was built, and passes if there is none |
| RuntimeTheorems.GateSound | integrations/agentgateway-extmcp/processor/server.go:40-72 | Under a policy that requires statements, a pass means each named backend is configured and its source held, between reading that configuration and the swap, an accepted and sufficient statement about that very server, or else the digest collides |

## Left out

- Reading and printing JSON text (`Parse`, `Marshal`, `ParseConfig`, `render`): `encoding/json` is not part of this model; statements and configurations appear as decoded, and values as JSON trees.
- SHA-256 and hexadecimal: the digest is a parameter, and every result about it says "or two strings with one digest".
- `integrations/agentgateway-extmcp/processor/load.go`: what a source holds is a function of time (in the step system) or of the position in the build (in `Build`).
- The transport of requests (gRPC, protobuf, `structpb`), logging, and the wording of errors and reasons; a denial keeps its backend and its cause, a pass its ratings.
- The order in which problems and configuration errors are listed, and how many times a repeated one is: they are proved as a set.
- Time values, durations and the ticker's timing: instants are compared with zero or written as text, and a tick may come at any step.
- Floating-point rounding: scores are decoded from JSON and only compared, and are reals here.
- Integer width: counts and schema versions are mathematical integers.
- Locks: `Snapshot` and the swap in `Reload` are single steps, which is what the mutex makes of them.
- The exit of the reload loop is not bounded: after cancellation its `select` may still choose a signal or a tick, so leaving needs fairness. `HangupServed` speaks of runs in which it has not left; `JoinCompletes` and `ShutdownCompletes` show that it always can.
- Types that encode themselves with their own `MarshalJSON` or `MarshalText`, other than times and raw JSON: the types of the model are those of `GoTypes.GoType`.
- Reflection features the compiler does not handle: embedded structs, `omitzero`, the `string` option, map keys other than strings, tag names the encoder would reject, self-referential pointer types, and two structs with one name. `WellFormed` states the part of this that values depend on.
- A nil `evidence`, `credentialsByValue` or `byCategory` is not told apart from an empty one: both are omitted. A nil plan specification is the JSON null it is written as.
- The `$schema`, `$id`, `$comment` and `title` members of the document, and the `-check` mode of the generator.
- `CheckResponse` (constant), `completion.go`, `scripts/apidoc`, the example verifier and the other scripts.
