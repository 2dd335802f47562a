# DDEX Suite core, modelled in Dafny

This project models the core of the DDEX Suite. The suite builds and parses
DDEX ERN (Electronic Release Notification) messages, the XML format that
labels and distributors use to deliver releases to digital service providers.

The model covers the builder crate end to end:

- the XML element tree (`ast.rs`);
- the generator, which turns a build request into that tree and numbers
  resources `A1, A2, …` and releases `R1, R2, …` from one counter;
- the XML writer, with its escaping, namespace prefixes and indentation;
- preflight validation and the `build` pipeline;
- the determinism configuration and its locked namespace-prefix table;
- the DB-C14N canonicaliser's fixed parts (declaration, ERN 4.3 prefix
  and element-order tables) and the hash of the canonical form;
- the determinism verifier, which builds several times and compares;
- the builder façade with partner presets and the preset lock.

Around the builder it models:

- the parser's conversion of internal errors into FFI errors;
- the Node binding's version detection, sanity checks and release stream;
- the WASM builder binding (its release and resource lists, statistics,
  placeholder XML and structure validation);
- the bookkeeping of the fidelity test suite;
- the XML helpers of the integration tests: normalisation, semantic
  equality and structure extraction.

Each operation is a Dafny function (pure logic) or a method (state and loops).
A method is proved against a specification function, and the lemmas prove
what the source promises about that function. The modules are:

| module | file | models |
|---|---|---|
| `Util` | util.dfy | `Option`/`Result`, substring search, trimming, line splitting, decimal rendering, UTF-8 byte length |
| `IndexMap` | index_map.dfy | insertion-ordered maps, the `indexmap` crate's `insert`/`get`/`first` |
| `Ast` | ast.dfy | `Element`, `Node`, `Comment` and their builders |
| `BuildTypes` | build_types.dfy | `BuildRequest`, `BuildOptions`, `BuildResult`, `BuildError` |
| `Determinism` | determinism.dfy | `DeterminismConfig` and its defaults |
| `XmlWriter` | xml_writer.dfy | `XmlWriter` |
| `Generator` | generator.dfy | `AstGenerator` |
| `GeneratedOutput` | generated_output.dfy | properties of the generated tree |
| `Canonical` | canonical.dfy | the `DB_C14N` canonicaliser and the ERN 4.3 rule tables |
| `Builder` | builder.dfy | `preflight` and `build` |
| `DeterminismVerifier` | determinism_verifier.dfy | `DeterminismVerifier::verify` |
| `Lib` | lib.dfy | the `Builder` façade with presets |
| `FfiError` | ffi_error.dfy | the parser's `ParseError` → `FFIError` conversion |
| `NodeParser` | node_parser.dfy | the Node binding of the parser |
| `WasmBuilder` | wasm_builder.dfy | the WASM binding of the builder |
| `Fidelity` | fidelity.dfy | `FidelityTestResult` and `FidelityTestSuite` |
| `TestUtils` | test_utils.dfy | the integration-test XML utilities |

Work that the model cannot do itself becomes a parameter. This covers the
clock, fresh UUIDs, SHA-256 with hex encoding, the crate version, and the
canonicaliser's parse/canonicalise/serialise stages (which are `todo!()`
in the source).

## Model

| member | source | states |
|---|---|---|
| Ast.New | packages/ddex-builder/src/ast.rs:35-42 | a new element has the given name, no namespace, no attributes and no children |
| Ast.WithNamespace | packages/ddex-builder/src/ast.rs:44-47 | sets the namespace and leaves name, attributes and children unchanged |
| Ast.WithAttr | packages/ddex-builder/src/ast.rs:49-52 | a new key is appended last; an existing key keeps its position and gets the new value; every other key's lookup is unchanged and keys stay distinct |
| Ast.WithText | packages/ddex-builder/src/ast.rs:54-57 | appends exactly one text node after the existing children |
| Ast.AddChild | packages/ddex-builder/src/ast.rs:59-61 | appends exactly one element node after the existing children |
| Ast.AddComment | packages/ddex-builder/src/ast.rs:68-71 | appends exactly one comment node after the existing children |
| Ast.AddSimpleComment | packages/ddex-builder/src/ast.rs:73-76 | appends exactly one simple-comment node after the existing children |
| Ast.WithComment | packages/ddex-builder/src/ast.rs:78-82 | appends one comment with the given content and position |
| Ast.ApplyAllAppendsInOrder | packages/ddex-builder/src/ast.rs:59-82 | any sequence of `add_*` calls appends its nodes in call order and keeps name, namespace and attributes |
| IndexMap.InsertFacts | packages/ddex-builder/src/ast.rs:49-52 | `insert` of a new key appends it; of an existing key keeps length and key order; the key then maps to the new value and the others are unchanged |
| IndexMap.FindKeyByValueFirst | packages/ddex-builder/src/generator/xml_writer.rs:113-116 | the prefix search returns the key of the first entry holding the URI, and none exactly when no entry holds it |
| BuildTypes.DefaultBuildOptions | packages/ddex-builder/src/builder.rs:105-115 | default options have no determinism config, preflight level `Warn` and the UUID id strategy |
| BuildTypes.TotalTracksIsAllTracks | packages/ddex-builder/src/builder.rs:251 | the track statistic summed per release equals the number of tracks across all releases |
| Builder.Preflight | packages/ddex-builder/src/builder.rs:261-304 | the loop produces the specified findings: none at level `None`, `NO_RELEASES` for an empty request, then per release a missing-title and a missing-artist warning, and in strict mode the count error |
| Builder.WarningKindsDiffer | packages/ddex-builder/src/builder.rs:269-294 | the three warning kinds never coincide; a per-release warning determines its release index |
| Builder.MissingTitleReported | packages/ddex-builder/src/builder.rs:278-285 | a missing-title warning for index i is reported iff release i exists and has no title |
| Builder.MissingArtistReported | packages/ddex-builder/src/builder.rs:287-293 | a missing-artist warning for index i is reported iff release i exists and its artist is empty |
| Builder.ReleasesWarningsKinds | packages/ddex-builder/src/builder.rs:278-294 | at most two warnings per release, each naming a release of the request |
| Builder.ReleasesWarningsInOrder | packages/ddex-builder/src/builder.rs:278-294 | release i's warnings follow those of releases 0..i-1 in the output |
| Builder.FindingsShape | packages/ddex-builder/src/builder.rs:261-294 | `NO_RELEASES` appears iff there are no releases (and then alone); at most 1 + 2·releases findings; no finding iff releases exist and all have title and artist |
| Builder.PreflightLevels | packages/ddex-builder/src/builder.rs:261-304 | strict succeeds iff there are no findings and otherwise fails with "N validation warnings in strict mode"; warn returns all findings; none returns nothing |
| Builder.Build | packages/ddex-builder/src/builder.rs:205-258 | the pipeline computes the specified result: preflight, generate, write, optional canonicalisation and hash, statistics |
| Builder.FinishShape | packages/ddex-builder/src/builder.rs:222-230 | without DB-C14N the written text is kept with no hash; with it the text is the canonical form and the hash is taken of canonicalising that form again |
| Builder.ResultOfShape | packages/ddex-builder/src/builder.rs:232-258 | the result carries the warnings, no errors, the release/track/deal counts, the elapsed time, the UTF-8 size, and the banner iff configured |
| Builder.BuildSpecOk | packages/ddex-builder/src/builder.rs:205-258 | a successful build passed preflight and generation and its result is assembled from their outputs |
| Builder.BuildPreflightFirst | packages/ddex-builder/src/builder.rs:208-209 | a preflight error is the build's error; strict mode with findings fails with the count error |
| Builder.BuildRejectsUnsupportedVersion | packages/ddex-builder/src/builder.rs:211-213 | an unsupported version fails the build with "Unsupported version: v" |
| Builder.BuildWithoutCanonicalisation | packages/ddex-builder/src/builder.rs:215-230 | without DB-C14N a supported request builds to the written XML with no hash |
| Builder.BuildWithCanonicalisation | packages/ddex-builder/src/builder.rs:215-230 | with DB-C14N the build succeeds iff both canonicaliser runs succeed; the XML is the canonical form and the hash is taken of its re-canonicalisation |
| Builder.BuildHashOfIdempotentCanonicalForm | packages/ddex-builder/src/builder.rs:223-227 | when canonicalisation is idempotent on the output, the hash is the digest of the returned XML |
| Builder.BuildResultShape | packages/ddex-builder/src/builder.rs:232-258 | every successful build reports its preflight warnings, no errors, the statistics, a hash iff DB-C14N and a banner iff configured |
| Builder.BuildStartsWithDeclaration | packages/ddex-builder/src/builder.rs:205-258 | every successful build starts with the UTF-8 XML declaration line |
| Builder.BuildIgnoresElapsedTime | packages/ddex-builder/src/builder.rs:243-258 | the elapsed time (`Instant`) only reaches the generation-time statistic: outcome, XML, warnings and hash do not depend on it; the creation time and the UUID are held fixed |
| Builder.Findings | packages/ddex-builder/src/builder.rs:268-294 | the warnings `preflight` collects: `NO_RELEASES` for an empty request, then per release a missing-title and a missing-artist warning in index order (stated by `Builder.FindingsShape`) |
| Builder.StrictError | packages/ddex-builder/src/builder.rs:296-301 | the strict-mode error: `InvalidFormat` on field `request` with "<n> validation warnings in strict mode" |
| Builder.PreflightSpec | packages/ddex-builder/src/builder.rs:261-304 | what `preflight` returns: no warnings at level None, the findings at Warn, and the strict error instead of any findings at Strict (stated by `Builder.PreflightLevels`) |
| Builder.ConfigOf | packages/ddex-builder/src/builder.rs:215-216 | the configuration a build uses: the options' determinism config, or the default when absent |
| Builder.Banner | packages/ddex-builder/src/builder.rs:232-241 | the reproducibility banner text, naming the crate version and the `DB_C14N` version |
| Builder.FinishSpec | packages/ddex-builder/src/builder.rs:222-230 | step 5 of `build`: in `DbC14n` mode the canonical form and the hash `canonical_hash` gives of it, else the written text and no hash; either canonicaliser error is passed on (stated by `Builder.FinishShape`) |
| Builder.WrittenXml | packages/ddex-builder/src/builder.rs:218-220 | the text the writer produces for the generated tree under the build's configuration |
| Builder.ResultOf | packages/ddex-builder/src/builder.rs:243-258 | the `BuildResult` record: text, warnings, no errors, counts of releases, tracks and deals, the byte size of the text, hash and banner (stated by `Builder.ResultOfShape`) |
| Builder.BuildSpec | packages/ddex-builder/src/builder.rs:205-258 | what `build` returns: the first error of preflight, generation, writing or canonicalisation, else the result record (stated by `Builder.BuildSpecOk` and the `Build*` lemmas) |
| Builder.DeclarationsAgree | packages/ddex-builder/src/generator/xml_writer.rs:21-22 | the writer's and the canonicaliser's declaration lines are the same text |
| Canonical.Canonicalizer.constructor | packages/ddex-builder/src/canonical/mod.rs:14-17 | keeps the configuration |
| Canonical.Canonicalizer.Canonicalize | packages/ddex-builder/src/canonical/mod.rs:19-35 | writes the declaration line, then the serialised canonical document |
| Canonical.Canonicalizer.CanonicalHash | packages/ddex-builder/src/canonical/mod.rs:37-45 | the hash is the digest of the canonical form, and fails exactly when canonicalisation fails |
| Canonical.CanonicalForm | packages/ddex-builder/src/canonical/mod.rs:19-35 | canonicalisation succeeds iff the stages do; the result is the declaration line followed by their output |
| Canonical.HashOfCanonicalForm | packages/ddex-builder/src/canonical/mod.rs:37-45 | texts with the same canonical form have the same hash |
| Canonical.Ern43PrefixesTable | packages/ddex-builder/src/canonical/mod.rs:90-96 | the ERN 4.3 prefix table maps the ERN, AVS and XSI URIs to `ern`, `avs`, `xsi` in that order with distinct keys |
| Canonical.Ern43PrefixesAgree | packages/ddex-builder/src/canonical/mod.rs:90-96 | each ERN 4.3 prefix is the one the default locked prefix table gives the same URI |
| Canonical.Ern43ElementOrderTable | packages/ddex-builder/src/canonical/mod.rs:99-123 | the order table lists `MessageHeader` (seven names) then `Release` (five names), each name once |
| Canonical.PositionAt | packages/ddex-builder/src/canonical/mod.rs:99-123 | in a list without duplicates a name's rank is its index |
| Canonical.FollowsOrderMeaning | packages/ddex-builder/src/canonical/mod.rs:99-123 | a name sequence follows an order iff every name is listed and ranks never decrease |
| Canonical.HeaderFollowsCanonicalOrder | packages/ddex-builder/src/generator/mod.rs:82-108 | the generator's header children follow the canonical `MessageHeader` order |
| Canonical.ReleaseFollowsCanonicalOrder | packages/ddex-builder/src/generator/mod.rs:170-219 | the generator's release children follow the canonical `Release` order up to the final `DisplayArtist`, a name the order does not list |
| Canonical.CanonicalizeSpec | packages/ddex-builder/src/canonical/mod.rs:19-35 | what `canonicalize` returns: the stages' error, or the declaration, a line feed and their output (stated by `Canonical.CanonicalForm`) |
| Canonical.CanonicalHashSpec | packages/ddex-builder/src/canonical/mod.rs:37-45 | what `canonical_hash` returns: the digest of the canonical form, or the canonicaliser's error (stated by `Canonical.HashOfCanonicalForm`) |
| Canonical.Ern43Prefixes | packages/ddex-builder/src/canonical/mod.rs:90-96 | the ERN 4.3 URI-to-prefix table, three inserts (stated by `Canonical.Ern43PrefixesTable`) |
| Canonical.Ern43ElementOrder | packages/ddex-builder/src/canonical/mod.rs:99-123 | the ERN 4.3 child-order table for `MessageHeader` and `Release` (stated by `Canonical.Ern43ElementOrderTable`) |
| Determinism.DefaultPrefixesTable | packages/ddex-builder/src/determinism.rs:71-79 | the default locked table maps the ERN 4.3, 4.2, 3.8.2, AVS and XSI URIs in that order, with distinct keys |
| Determinism.DefaultPrefixLookups | packages/ddex-builder/src/determinism.rs:71-79 | all three ERN URIs map to `ern`, AVS to `avs`, XSI to `xsi` |
| Determinism.DefaultConfig | packages/ddex-builder/src/determinism.rs:47-68 | every field of the default: DB-C14N canonicalisation and output, canonical sorting with no custom order, locked namespaces with the default locked prefixes, LF, two-space indent, NFC, escaped XML characters, double quotes, UTC, ISO 8601 with `Z`, no banner, no self-verification |
| Determinism.DefaultNamespacePrefixes | packages/ddex-builder/src/determinism.rs:71-79 | the default locked URI-to-prefix table, five inserts (stated by `Determinism.DefaultPrefixesTable`) |
| DeterminismVerifier.Verify | packages/ddex-builder/src/determinism.rs:202-228 | the loop returns the specified verdict: true below two iterations, the first build error, otherwise whether all outputs equal the first |
| DeterminismVerifier.OutputsShape | packages/ddex-builder/src/determinism.rs:211-216 | collecting succeeds iff every build does, and then holds the n outputs in order |
| DeterminismVerifier.OutputsFirstError | packages/ddex-builder/src/determinism.rs:211-216 | a failed collection reports the error of the first failing build |
| DeterminismVerifier.AllEqualFirstIffPairwise | packages/ddex-builder/src/determinism.rs:220-227 | comparing everything with the first output is the same as pairwise equality |
| DeterminismVerifier.VerifyMeaning | packages/ddex-builder/src/determinism.rs:202-228 | with two or more successful builds the verdict is true iff all outputs are pairwise equal |
| DeterminismVerifier.DeterministicBuildVerifies | packages/ddex-builder/src/determinism.rs:202-228 | a build that always gives the same result verifies (or reports its error) |
| DeterminismVerifier.SameTextsNeverFalse | packages/ddex-builder/src/determinism.rs:202-228 | builds that agree on their XML never give the verdict false |
| DeterminismVerifier.ElapsedTimeOnlyInStatistics | packages/ddex-builder/src/determinism.rs:202-228 | repeated pipeline builds whose environments differ only in elapsed time, with the creation time and the UUID held equal, never give the verdict false |
| DeterminismVerifier.OutputsSpec | packages/ddex-builder/src/determinism.rs:211-216 | the texts of the first n builds, or the first build error (stated by `DeterminismVerifier.OutputsShape`) |
| DeterminismVerifier.AllEqualFirst | packages/ddex-builder/src/determinism.rs:220-227 | every text equals the first (stated pairwise by `DeterminismVerifier.AllEqualFirstIffPairwise`) |
| DeterminismVerifier.VerifySpec | packages/ddex-builder/src/determinism.rs:202-228 | what `verify` returns: true under two iterations, else the first build error or whether all texts equal the first (stated by `DeterminismVerifier.VerifyMeaning`) |
| FfiError.SeverityRoundTrip | packages/ddex-parser/src/error/ffi.rs:65-73 | the severity conversion is a bijection |
| FfiError.LocationRoundTrip | packages/ddex-parser/src/error/ffi.rs:75-84 | the location conversion keeps every field and is a bijection |
| FfiError.IntoFfiResult | packages/ddex-parser/src/error/ffi.rs:189-193 | success values pass through; errors are converted |
| FfiError.CodeIdentifiesVariant | packages/ddex-parser/src/error/ffi.rs:86-179 | the error code determines the variant |
| FfiError.CodesDistinct | packages/ddex-parser/src/error/ffi.rs:86-179 | two errors get the same code iff they are the same variant |
| FfiError.SeverityOfConversion | packages/ddex-parser/src/error/ffi.rs:86-179 | severity is `Warning` exactly for unresolved references, otherwise `Error`, never `Info` |
| FfiError.LocationOfConversion | packages/ddex-parser/src/error/ffi.rs:89-112 | only XML errors and unresolved references carry a location, their own converted one |
| FfiError.XmlParsingCategory | packages/ddex-parser/src/error/ffi.rs:86-179 | the `XmlParsing` category covers XML errors and the five untyped variants |
| FfiError.OwnCategory | packages/ddex-parser/src/error/ffi.rs:97-136 | version, reference, security, I/O and timeout errors each have their own category and only they do |
| FfiError.HintOfConversion | packages/ddex-parser/src/error/ffi.rs:86-179 | the first six variants carry a hint and the others do not |
| FfiError.MessageOfConversion | packages/ddex-parser/src/error/ffi.rs:86-179 | XML and untyped errors pass their message through; an invalid version reads "Invalid DDEX version: v" |
| FfiError.XmlErrorExample | packages/ddex-parser/src/error/ffi.rs:200-223 | the module's own example conversion gives code, message, category and location as expected |
| FfiError.SeverityToFfi | packages/ddex-parser/src/error/ffi.rs:65-73 | severity conversion, variant for variant (stated by `FfiError.SeverityRoundTrip`) |
| FfiError.LocationToFfi | packages/ddex-parser/src/error/ffi.rs:75-84 | location conversion, keeping line, column, byte offset and path (stated by `FfiError.LocationRoundTrip`) |
| FfiError.ToFfi | packages/ddex-parser/src/error/ffi.rs:86-179 | the `FFIError` of a parse error, field by field (stated by the `FfiError.*OfConversion` lemmas and `FfiError.CodeIdentifiesVariant`) |
| FfiError.Code | packages/ddex-parser/src/error/ffi.rs:86-179 | the error code of each variant (stated by `FfiError.CodesDistinct`) |
| FfiError.Message | packages/ddex-parser/src/error/ffi.rs:86-179 | the message of each variant (stated by `FfiError.MessageOfConversion`) |
| FfiError.Location | packages/ddex-parser/src/error/ffi.rs:89-112 | the location, present only for XML and unresolved-reference errors (stated by `FfiError.LocationOfConversion`) |
| FfiError.Severity | packages/ddex-parser/src/error/ffi.rs:86-179 | Warning for an unresolved reference, Error otherwise (stated by `FfiError.SeverityOfConversion`) |
| FfiError.Hint | packages/ddex-parser/src/error/ffi.rs:86-179 | the hint of each variant (stated by `FfiError.HintOfConversion`) |
| FfiError.Category | packages/ddex-parser/src/error/ffi.rs:86-179 | the category of each variant (stated by `FfiError.XmlParsingCategory` and `FfiError.OwnCategory`) |
| Fidelity.FidelityTestResult.constructor | packages/ddx-builder/tests/fidelity/mod.rs:181-202 | all flags false, times zero, difference lists empty, no error |
| Fidelity.FidelityTestResult.MarkSuccess | packages/ddx-builder/tests/fidelity/mod.rs:204-206 | sets success and nothing else |
| Fidelity.FidelityTestResult.MarkFailure | packages/ddx-builder/tests/fidelity/mod.rs:208-211 | clears success and records the error message, nothing else |
| Fidelity.FidelityTestResult.AddTiming | packages/ddx-builder/tests/fidelity/mod.rs:213-217 | stores both times as `u64` and sets the total to their sum |
| Fidelity.FidelityTestResult.AddByteDifference | packages/ddx-builder/tests/fidelity/mod.rs:219-226 | appends one byte difference, nothing else |
| Fidelity.FidelityTestResult.AddAttributeDifference | packages/ddx-builder/tests/fidelity/mod.rs:228-230 | appends one attribute difference, nothing else |
| Fidelity.FidelityTestResult.AddStructureDifference | packages/ddx-builder/tests/fidelity/mod.rs:232-234 | appends one structure difference, nothing else |
| Fidelity.FidelityTestResult.CalculateOverallSuccess | packages/ddx-builder/tests/fidelity/mod.rs:237-246 | success iff all five category flags hold and all three difference lists are empty |
| Fidelity.FidelityTestSuite.constructor | packages/ddx-builder/tests/fidelity/mod.rs:250-265 | all counters zero, no results, no error patterns |
| Fidelity.FidelityTestSuite.AddResult | packages/ddx-builder/tests/fidelity/mod.rs:267-278 | appends the result and counts it as a success or a failure; keeps successes + failures = files tested = results, and error patterns = histogram of failure messages |
| Fidelity.Bump | packages/ddx-builder/tests/fidelity/mod.rs:272-276 | the message's count grows by one (starting at zero) and every other count is unchanged |
| Fidelity.HistogramCounts | packages/ddx-builder/tests/fidelity/mod.rs:272-276 | a message's pattern count is the number of failed results carrying it |
| Fidelity.HistogramTotal | packages/ddx-builder/tests/fidelity/mod.rs:267-278 | the pattern counts sum to the failures that carry a message, at most the failures |
| Fidelity.PatternsBoundedByFailures | packages/ddx-builder/tests/fidelity/mod.rs:267-278 | in any reachable suite the pattern counts sum to at most the failure count |
| Fidelity.BucketRange | packages/ddx-builder/tests/fidelity/mod.rs:324-330 | a size falls in bucket k iff it lies in that bucket's range, so the ranges are disjoint and cover all sizes |
| Fidelity.BucketMonotone | packages/ddx-builder/tests/fidelity/mod.rs:324-330 | a larger file never falls in a smaller bucket |
| Fidelity.BucketLabelNamesRange | packages/ddx-builder/tests/fidelity/mod.rs:324-330 | two sizes get the same label iff they fall in the same bucket |
| Fidelity.DetectErnVersionFirstMatch | packages/ddx-builder/tests/fidelity/mod.rs:429-441 | the first of ern/382, ern/42, ern/43, ern/341 found decides the label, else "Unknown" |
| Fidelity.BucketIndex | packages/ddx-builder/tests/fidelity/mod.rs:324-330 | the position of a size among the five report ranges, below 5 (stated by `Fidelity.BucketRange`) |
| Fidelity.SizeBucket | packages/ddx-builder/tests/fidelity/mod.rs:320-330 | the label of a size's range; always one of the five labels |
| Fidelity.DetectErnVersion | packages/ddx-builder/tests/fidelity/mod.rs:429-441 | the version label; always one of "ERN-3.8.2", "ERN-4.2", "ERN-4.3", "ERN-3.4.1", "Unknown" (the choice is stated by `Fidelity.DetectErnVersionFirstMatch`) |
| Fidelity.DetectorsDisagreeOnMixedDocument | packages/ddx-builder/tests/fidelity/mod.rs:429-441 | a document naming both ern/382 and ern/43 is labelled ERN-3.8.2 here but V4_3 by the Node binding's `detect_version` |
| Generator.GetSchemaLocation | packages/ddex-builder/src/generator/mod.rs:283-290 | a schema location exists exactly for the supported versions |
| Generator.GetNamespacesTable | packages/ddex-builder/src/generator/mod.rs:261-281 | a supported version maps `ern` to its URI and then `xsi`; otherwise the map is empty |
| Generator.IsSupportedVersion | packages/ddex-builder/src/generator/mod.rs:261-281 | the versions with a namespace: "4.3", "4.2", "3.8.2" |
| Generator.VersionUri | packages/ddex-builder/src/generator/mod.rs:261-281 | the ERN namespace URI of a supported version |
| Generator.GetNamespaces | packages/ddex-builder/src/generator/mod.rs:261-281 | `get_namespaces`: empty exactly for an unsupported version; the full table is stated by `Generator.GetNamespacesTable` |
| Generator.CreateRootElement | packages/ddex-builder/src/generator/mod.rs:64-80 | a supported version gives `NewReleaseMessage` with the schema-version and language attributes; any other fails with "Unsupported version" |
| Generator.DurationRoundTrip | packages/ddex-builder/src/generator/mod.rs:160 | the `PTmMsS` duration text parses back to the number of seconds |
| Generator.DurationText | packages/ddex-builder/src/generator/mod.rs:160 | the `PT<m>M<s>S` duration text (read back by `Generator.DurationRoundTrip`) |
| Generator.HeaderSpec | packages/ddex-builder/src/generator/mod.rs:82-108 | the `MessageHeader` element: message id (the requested one or `MSG_` and the UUID), creation time, sender, recipient, then the control type when present (stated by `Canonical.HeaderFollowsCanonicalOrder` and `Generator.AstGenerator.GenerateMessageHeader`) |
| Generator.PartySpec | packages/ddex-builder/src/generator/mod.rs:110-131 | a party element: its names, then its id when present (stated by `Generator.AstGenerator.GenerateParty`) |
| Generator.SoundRecordingSpec | packages/ddex-builder/src/generator/mod.rs:140-164 | a `SoundRecording` element with reference `A<n>` (stated by `Generator.AstGenerator.GenerateSoundRecording`) |
| Generator.ResourceListSpec | packages/ddex-builder/src/generator/mod.rs:133-168 | the `ResourceList` of every track of every release (stated by `Generator.AstGenerator.GenerateResourceList`) |
| Generator.ReleaseSpec | packages/ddex-builder/src/generator/mod.rs:175-216 | a `Release` element with reference `R<n>` (stated by `Generator.AstGenerator.GenerateRelease`) |
| Generator.ReleaseListSpec | packages/ddex-builder/src/generator/mod.rs:170-219 | the `ReleaseList` (stated by `Generator.AstGenerator.GenerateReleaseList`) |
| Generator.DealSpec | packages/ddex-builder/src/generator/mod.rs:226-256 | a `ReleaseDeal` element (stated by `Generator.AstGenerator.GenerateDeal`) |
| Generator.DealListSpec | packages/ddex-builder/src/generator/mod.rs:221-259 | the `DealList` (stated by `Generator.AstGenerator.GenerateDealList`) |
| Generator.GenerateSpec | packages/ddex-builder/src/generator/mod.rs:25-62 | what `generate` returns: the root element and its children in order, or the unsupported-version error (stated by `Generator.GenerateSpecParts` and `Generator.AstGenerator.Generate`) |
| Generator.GenerateSpecParts | packages/ddex-builder/src/generator/mod.rs:25-62 | generation succeeds iff the version is supported; the tree is the versioned root with the specified children, namespaces and schema location |
| Generator.ClockAndUuidReachTree | packages/ddex-builder/src/generator/mod.rs:85-92 | two generations of a supported request differing in the creation time, or (with no requested message id) in the UUID, give different trees |
| Generator.AstGenerator.constructor | packages/ddex-builder/src/generator/mod.rs:18-23 | keeps the version and starts the counter at zero |
| Generator.AstGenerator.NextId | packages/ddex-builder/src/generator/mod.rs:292-295 | increments the counter and returns the new value |
| Generator.AstGenerator.Generate | packages/ddex-builder/src/generator/mod.rs:25-62 | builds the specified tree and advances the counter by tracks + releases when there are releases |
| Generator.AstGenerator.AddReleaseLists | packages/ddex-builder/src/generator/mod.rs:37-47 | appends the resource list then the release list when there are releases; the counter grows by tracks + releases |
| Generator.AstGenerator.AddDealList | packages/ddex-builder/src/generator/mod.rs:49-52 | appends the deal list exactly when there are deals |
| Generator.AstGenerator.GenerateMessageHeader | packages/ddex-builder/src/generator/mod.rs:82-108 | message id (or `MSG_` + UUID), creation time, sender, recipient and optional control type, in that order |
| Generator.AstGenerator.GenerateParty | packages/ddex-builder/src/generator/mod.rs:110-131 | one `PartyName` per name, with its language attribute, then the optional `PartyId` |
| Generator.AstGenerator.GenerateResourceList | packages/ddex-builder/src/generator/mod.rs:133-168 | one sound recording per track of every release, in order, numbered from the counter; the counter grows by the number of tracks |
| Generator.AstGenerator.AddSoundRecordings | packages/ddex-builder/src/generator/mod.rs:138-166 | the inner loop appends one sound recording per track and advances the counter per track |
| Generator.AstGenerator.GenerateSoundRecording | packages/ddex-builder/src/generator/mod.rs:140-164 | reference `A<id>`, optional ISRC, title and duration, with one fresh id |
| Generator.AstGenerator.AddTitles | packages/ddex-builder/src/generator/mod.rs:188-196 | appends one `ReferenceTitle` per title in order |
| Generator.AstGenerator.GenerateReleaseList | packages/ddex-builder/src/generator/mod.rs:170-219 | one release per request release in order, numbered from the counter; the counter grows by the number of releases |
| Generator.AstGenerator.GenerateRelease | packages/ddex-builder/src/generator/mod.rs:175-216 | reference `R<id>`, ICPN, titles, resource references and display artist, with one fresh id |
| Generator.AstGenerator.GenerateResourceRefList | packages/ddex-builder/src/generator/mod.rs:199-205 | one reference per track, with sequence number k and reference `A<k>` counted from 1 within the release |
| Generator.AstGenerator.GenerateDealList | packages/ddex-builder/src/generator/mod.rs:221-259 | one `ReleaseDeal` per deal in order |
| Generator.AstGenerator.GenerateDeal | packages/ddex-builder/src/generator/mod.rs:226-256 | a deal refers to release `R1` and lists its territories and its validity period when a date is given |
| GeneratedOutput.RootChildOrder | packages/ddex-builder/src/generator/mod.rs:25-62 | root children are header, update indicator, resource and release lists iff there are releases, and a deal list iff there are deals |
| GeneratedOutput.RootChildUnqualified | packages/ddex-builder/src/generator/mod.rs:25-62 | no root child carries a namespace |
| GeneratedOutput.ResourceReferencesDistinct | packages/ddex-builder/src/generator/mod.rs:138-164 | two sound recordings of one resource list never share a reference |
| GeneratedOutput.ReleaseRefMatchesRecordingIff | packages/ddex-builder/src/generator/mod.rs:133-205 | a release's k-th resource reference `A<k+1>` names the sound recording generated for that track iff the release is the first and the counter started at zero |
| GeneratedOutput.DealReferenceResolvesIff | packages/ddex-builder/src/generator/mod.rs:170-259 | a deal's `R1` matches release i's reference iff i is the first release and the counter started at zero |
| GeneratedOutput.RootChildrenFull | packages/ddex-builder/src/generator/mod.rs:25-62 | with releases and deals the root has five children: header, update indicator, resource list, release list numbered after the tracks, deal list |
| GeneratedOutput.ReleaseRefIsR1Iff | packages/ddex-builder/src/generator/mod.rs:229 | `R<n+1>` is `R1` only for n = 0 |
| GeneratedOutput.GeneratedTreeWritable | packages/ddex-builder/src/generator/mod.rs:25-62 | every generated tree has no simple comments, so the writer accepts it |
| GeneratedOutput.GeneratedTagPrefixes | packages/ddex-builder/src/generator/xml_writer.rs:44-53 | the generated root opens and closes as `ern:NewReleaseMessage`; its children open without a prefix but close with `ern:` |
| GeneratedOutput.UnqualifiedTagNames | packages/ddex-builder/src/generator/xml_writer.rs:44-53 | an un-namespaced element opens with the first prefix only at the root but always closes with it |
| GeneratedOutput.NamespacesAgreeWithLockedPrefixes | packages/ddex-builder/src/generator/mod.rs:261-281 | each namespace the generator declares has the prefix the default locked table gives its URI |
| GeneratedOutput.VersionUriLocked | packages/ddex-builder/src/determinism.rs:71-79 | the URI of every supported version is locked to the prefix `ern` |
| XmlWriter.IndentShape | packages/ddex-builder/src/generator/xml_writer.rs:127-132 | the indent is depth·width spaces, or depth tabs |
| XmlWriter.UnescapeEscapeText | packages/ddex-builder/src/generator/xml_writer.rs:134-138 | unescaping the escaped text gives the original text back |
| XmlWriter.UnescapeEscapeAttribute | packages/ddex-builder/src/generator/xml_writer.rs:140-146 | unescaping the escaped attribute value gives the original value back |
| XmlWriter.EscapeTextIsEscapeEach | packages/ddex-builder/src/generator/xml_writer.rs:134-138 | the chained replaces equal escaping each character on its own (`&` first, so no double escaping) |
| XmlWriter.EscapeAttributeIsEscapeEach | packages/ddex-builder/src/generator/xml_writer.rs:140-146 | the same for attribute values with the five entities |
| XmlWriter.EscapeTextSafe | packages/ddex-builder/src/generator/xml_writer.rs:134-138 | escaped text contains no `<` or `>`; text without `&`, `<`, `>` is unchanged |
| XmlWriter.EscapeAttributeSafe | packages/ddex-builder/src/generator/xml_writer.rs:140-146 | an escaped attribute value contains no `<`, `>`, `"` or `'` |
| XmlWriter.ElementNameRules | packages/ddex-builder/src/generator/xml_writer.rs:113-125 | the closing name uses the first prefix bound to the element's URI, none when unbound, and the map's first prefix for an un-namespaced element |
| XmlWriter.TagNamesAgreeIff | packages/ddex-builder/src/generator/xml_writer.rs:44-53 | start and end tag names agree iff the element is the root, has a namespace, or the map is empty |
| XmlWriter.DocumentStart | packages/ddex-builder/src/generator/xml_writer.rs:18-28 | the document starts with the declaration line and then the root's start tag |
| XmlWriter.RootStartTag | packages/ddex-builder/src/generator/xml_writer.rs:41-71 | the root start tag carries every namespace declaration, the schema location, then the attributes in insertion order |
| XmlWriter.NestedStartTagHasNoDecls | packages/ddex-builder/src/generator/xml_writer.rs:57-71 | a nested start tag is indented and carries only the attributes |
| XmlWriter.ElementForms | packages/ddex-builder/src/generator/xml_writer.rs:73-87 | a childless element is self-closed; a single text child is written inline, escaped |
| XmlWriter.CommentVerbatim | packages/ddex-builder/src/generator/xml_writer.rs:100-102 | a comment child is written on its own indented line, unescaped |
| XmlWriter.Indent | packages/ddex-builder/src/generator/xml_writer.rs:127-132 | `get_indent` (stated by `XmlWriter.IndentShape`) |
| XmlWriter.EscapeText | packages/ddex-builder/src/generator/xml_writer.rs:134-138 | `escape_text` (stated by `XmlWriter.UnescapeEscapeText`, `XmlWriter.EscapeTextIsEscapeEach`, `XmlWriter.EscapeTextSafe`) |
| XmlWriter.EscapeAttribute | packages/ddex-builder/src/generator/xml_writer.rs:140-146 | `escape_attribute` (stated by `XmlWriter.UnescapeEscapeAttribute`, `XmlWriter.EscapeAttributeIsEscapeEach`, `XmlWriter.EscapeAttributeSafe`) |
| XmlWriter.StartPrefix | packages/ddex-builder/src/generator/xml_writer.rs:44-53 | the prefix of a start tag: the first bound to the element's URI, or for an un-namespaced root the map's first |
| XmlWriter.EndPrefix | packages/ddex-builder/src/generator/xml_writer.rs:113-125 | the prefix `get_element_name` picks (stated by `XmlWriter.ElementNameRules`) |
| XmlWriter.ElementName | packages/ddex-builder/src/generator/xml_writer.rs:113-125 | `get_element_name`: the element's name, possibly prefixed, always ends with that name |
| XmlWriter.StartTag | packages/ddex-builder/src/generator/xml_writer.rs:38-71 | the start tag up to its closing bracket (stated by `XmlWriter.RootStartTag` and `XmlWriter.NestedStartTagHasNoDecls`) |
| XmlWriter.ElementXml | packages/ddex-builder/src/generator/xml_writer.rs:30-111 | the text written for one element: self-closing, one-line text or multi-line (stated by `XmlWriter.ElementForms`) |
| XmlWriter.ChildXml | packages/ddex-builder/src/generator/xml_writer.rs:92-104 | the lines written for one child (stated by `XmlWriter.CommentVerbatim` for comments) |
| XmlWriter.Document | packages/ddex-builder/src/generator/xml_writer.rs:18-28 | what `write` returns (stated by `XmlWriter.DocumentStart`) |
| XmlWriter.XmlWriter.constructor | packages/ddex-builder/src/generator/xml_writer.rs:14-16 | keeps the configuration |
| XmlWriter.XmlWriter.Write | packages/ddex-builder/src/generator/xml_writer.rs:18-28 | the buffer ends up holding the declaration and the root element's text |
| XmlWriter.XmlWriter.WriteElement | packages/ddex-builder/src/generator/xml_writer.rs:30-111 | appends exactly the element's text to the buffer |
| XmlWriter.XmlWriter.WriteStartTag | packages/ddex-builder/src/generator/xml_writer.rs:38-71 | appends the start tag |
| XmlWriter.XmlWriter.WriteNamespaceDecls | packages/ddex-builder/src/generator/xml_writer.rs:59-61 | the loop appends one declaration per namespace in map order |
| XmlWriter.XmlWriter.WriteRootDecls | packages/ddex-builder/src/generator/xml_writer.rs:58-66 | appends the declarations then the schema location |
| XmlWriter.XmlWriter.WriteOpening | packages/ddex-builder/src/generator/xml_writer.rs:38-55 | appends indent, `<`, the prefix chosen at this depth and the name |
| XmlWriter.XmlWriter.WriteAttributes | packages/ddex-builder/src/generator/xml_writer.rs:69-71 | the loop appends one escaped attribute per entry in insertion order |
| XmlWriter.XmlWriter.WriteChildren | packages/ddex-builder/src/generator/xml_writer.rs:92-104 | the loop appends every child's text in order |
| XmlWriter.XmlWriter.WriteChild | packages/ddex-builder/src/generator/xml_writer.rs:93-103 | appends one child: an element one level deeper, a text line, or a comment line |
| Lib.DefaultPresetsTable | packages/ddex-builder/src/lib.rs:93-99 | the preset table holds `spotify_audio_43` then `apple_music_43`, each found under its own name |
| Lib.Builder.New | packages/ddex-builder/src/lib.rs:46-52 | default configuration, the default presets, nothing locked |
| Lib.Builder.WithConfig | packages/ddex-builder/src/lib.rs:55-61 | the given configuration, the default presets, nothing locked |
| Lib.Builder.ApplyPreset | packages/ddex-builder/src/lib.rs:64-81 | performs the specified preset application on the builder's state |
| Lib.Builder.IsPresetLocked | packages/ddex-builder/src/lib.rs:84-86 | true iff a preset is locked |
| Lib.Builder.BuildInternal | packages/ddex-builder/src/lib.rs:102-105 | builds with the default options, whatever the builder's configuration |
| Lib.ApplyPresetOutcome | packages/ddex-builder/src/lib.rs:64-81 | an unknown name fails with "Unknown preset" and changes nothing; a known one installs its configuration and locks it iff asked, keeping any earlier lock |
| Lib.LockIsMonotone | packages/ddex-builder/src/lib.rs:64-81 | once a preset is locked it stays locked under any further calls |
| Lib.LockedBuilderStillReconfigures | packages/ddex-builder/src/lib.rs:64-81 | a locked builder still accepts another preset and takes its configuration |
| Lib.PresetScenario | packages/ddex-builder/src/lib.rs:122-150 | applying the Spotify preset leaves it unlocked, applying it with the lock locks it, an unknown name fails |
| Lib.BuildInternalUsesDefaults | packages/ddex-builder/src/lib.rs:102-105 | a successful internal build always carries a canonical hash and no banner |
| Lib.DefaultPresets | packages/ddex-builder/src/lib.rs:93-99 | the two built-in presets, Spotify then Apple Music (stated by `Lib.DefaultPresetsTable`) |
| Lib.ApplyPresetSpec | packages/ddex-builder/src/lib.rs:64-81 | what `apply_preset` returns and leaves: the unknown-preset error and no change, or the preset's configuration and, when asked, the lock (stated by `Lib.ApplyPresetOutcome`) |
| NodeParser.DetectVersionFirstMatch | packages/ddex-parser/bindings/node/src/lib.rs:20-30 | the first of ern/43, ern/42, ern/382 found decides the version, else "Unknown" |
| NodeParser.ParseSyncSuccess | packages/ddex-parser/bindings/node/src/lib.rs:33-80 | parsing succeeds iff the three checks pass, and then reports the detected version, the given date and one release |
| NodeParser.SanityCheck | packages/ddex-parser/bindings/node/src/lib.rs:89-118 | one error per failing check in order; valid iff no errors; no warnings; the detected version |
| NodeParser.SanityErrorsAreFailingChecks | packages/ddex-parser/bindings/node/src/lib.rs:89-118 | each check's message appears iff that check fails, in check order |
| NodeParser.ParseAgreesWithSanityCheck | packages/ddex-parser/bindings/node/src/lib.rs:33-118 | parsing succeeds iff the sanity check finds nothing; a parse error names the first failing check |
| NodeParser.DetectVersion | packages/ddex-parser/bindings/node/src/lib.rs:20-30 | `detect_version`; always one of "V4_3", "V4_2", "V3_8_2", "Unknown" (the choice is stated by `NodeParser.DetectVersionFirstMatch`) |
| NodeParser.ParseSync | packages/ddex-parser/bindings/node/src/lib.rs:33-80 | `parse_sync`; every failure is `InvalidArg` with one of the three reasons (success is stated by `NodeParser.ParseSyncSuccess`) |
| NodeParser.SanityErrors | packages/ddex-parser/bindings/node/src/lib.rs:89-118 | one error per failing check, in order (stated by `NodeParser.SanityErrorsAreFailingChecks`) |
| NodeParser.NextSpec | packages/ddex-parser/bindings/node/src/lib.rs:196-209 | the next streamed release and position (stated by `NodeParser.RunFrom`) |
| NodeParser.RunFrom | packages/ddex-parser/bindings/node/src/lib.rs:196-209 | successive `next` calls yield the remaining releases then `None` forever |
| NodeParser.FreshStreamYieldsThreeReleases | packages/ddex-parser/bindings/node/src/lib.rs:187-209 | a fresh stream yields R001, R002, R003 and then nothing |
| NodeParser.ReleaseStream.constructor | packages/ddex-parser/bindings/node/src/lib.rs:187-189 | the stream starts at position zero |
| NodeParser.ReleaseStream.Next | packages/ddex-parser/bindings/node/src/lib.rs:196-209 | yields the next release and advances, or `None` at the end with the position kept |
| NodeParser.ReleaseStream.Progress | packages/ddex-parser/bindings/node/src/lib.rs:212-218 | releases parsed is the number handed out, bytes processed is 1000 per release, and the elapsed time is a fixed 100 ms |
| WasmBuilder.NewRelease | packages/ddex-builder/bindings/wasm/src/lib.rs:51-71 | the four given fields and every optional field unset |
| WasmBuilder.NewResource | packages/ddex-builder/bindings/wasm/src/lib.rs:125-142 | the four given fields and every optional field unset |
| WasmBuilder.PlaceholderFraming | packages/ddex-builder/bindings/wasm/src/lib.rs:306-356 | the placeholder document starts with the XML declaration and ends with the root's closing tag |
| WasmBuilder.WasmDdexBuilder.constructor | packages/ddex-builder/bindings/wasm/src/lib.rs:240-248 | empty lists and zero statistics |
| WasmBuilder.WasmDdexBuilder.AddRelease | packages/ddex-builder/bindings/wasm/src/lib.rs:251-255 | appends the release and sets the release count to the list length |
| WasmBuilder.WasmDdexBuilder.AddResource | packages/ddex-builder/bindings/wasm/src/lib.rs:258-262 | appends the resource and sets the resource count to the list length |
| WasmBuilder.WasmDdexBuilder.Validate | packages/ddex-builder/bindings/wasm/src/lib.rs:282-291 | valid iff there is a release, with exactly one error otherwise; no state change |
| WasmBuilder.WasmDdexBuilder.GetStats | packages/ddex-builder/bindings/wasm/src/lib.rs:294-296 | the statistics, whose counts equal the list lengths |
| WasmBuilder.WasmDdexBuilder.Reset | packages/ddex-builder/bindings/wasm/src/lib.rs:299-304 | empties both lists and zeroes the statistics |
| WasmBuilder.WasmDdexBuilder.GeneratePlaceholderXml | packages/ddex-builder/bindings/wasm/src/lib.rs:306-356 | the header, one block per release, one per resource, the closing tag |
| WasmBuilder.WasmDdexBuilder.Build | packages/ddex-builder/bindings/wasm/src/lib.rs:265-279 | returns the placeholder document, keeps the lists, records its byte size and adds the elapsed time |
| WasmBuilder.WasmDdexBuilder.RecordBuild | packages/ddex-builder/bindings/wasm/src/lib.rs:270-276 | records the size and adds the elapsed time, nothing else |
| WasmBuilder.PushBody | packages/ddex-builder/bindings/wasm/src/lib.rs:326-353 | the loops append every release block, every resource block, then the closing tag |
| WasmBuilder.BatchBuild | packages/ddex-builder/bindings/wasm/src/lib.rs:360-381 | one document per request, the i-th with the i-th fresh UUID |
| WasmBuilder.ValidateStructure | packages/ddex-builder/bindings/wasm/src/lib.rs:384-399 | empty input is invalid with "XML cannot be empty"; otherwise valid iff the left-trimmed text starts with `<`, with "Invalid XML format" when not |
| WasmBuilder.U32 | packages/ddex-builder/bindings/wasm/src/lib.rs:251-262 | the `usize as u32` cast: below 2^32 and the identity there |
| WasmBuilder.NewStats | packages/ddex-builder/bindings/wasm/src/lib.rs:218-228 | all statistics zero |
| WasmBuilder.PlaceholderXml | packages/ddex-builder/bindings/wasm/src/lib.rs:306-356 | the placeholder document (stated by `WasmBuilder.PlaceholderFraming`) |
| WasmBuilder.BatchDocument | packages/ddex-builder/bindings/wasm/src/lib.rs:360-381 | the fixed ERN 4.3 placeholder `batch_build` returns for each request, carrying a fresh UUID as its message id |
| TestUtils.Normalize | test-archive/integration-tests/src/utils.rs:33-39 | the normal form has no line feed and no surrounding whitespace |
| TestUtils.NormalizeIdempotent | test-archive/integration-tests/src/utils.rs:33-39 | normalising twice is normalising once |
| TestUtils.SemanticallyEqualIsEquivalence | test-archive/integration-tests/src/utils.rs:42-44 | semantic equality is reflexive, symmetric and transitive |
| TestUtils.NormalFormIsEquivalent | test-archive/integration-tests/src/utils.rs:33-44 | a text is semantically equal to its normal form |
| TestUtils.ExtractXmlStructure | test-archive/integration-tests/src/utils.rs:47-76 | the message id, both counts, the version and the DDEX flag are the specified ones |
| TestUtils.MessageIdRoundTrip | test-archive/integration-tests/src/utils.rs:51-57 | an id embedded between the two tags (with no earlier tag) is extracted exactly |
| TestUtils.VersionRoundTrip | test-archive/integration-tests/src/utils.rs:66-70 | a version embedded after `MessageSchemaVersionId="` is extracted up to the next quote |
| TestUtils.CompatibleIsEquality | test-archive/integration-tests/src/utils.rs:89-96 | compatibility is field-wise equality, hence reflexive and symmetric |
| TestUtils.CountsAddAtTags | test-archive/integration-tests/src/utils.rs:60-63 | counts of `<Release>` and `<SoundRecording>` add up over texts split before a tag |
| TestUtils.ReleaseListNotCounted | test-archive/integration-tests/src/utils.rs:60-63 | a `<ReleaseList>` tag adds nothing to the release count |
| TestUtils.ReleaseTagCounts | test-archive/integration-tests/src/utils.rs:188-203 | one `<Release>` tag counts as one release |
| TestUtils.SemanticallyEqual | test-archive/integration-tests/src/utils.rs:42-44 | `xml_semantically_equal` (stated by `TestUtils.SemanticallyEqualIsEquivalence`) |
| TestUtils.MessageIdOf | test-archive/integration-tests/src/utils.rs:51-57 | the text between the first `<MessageId>` and the next `</MessageId>` (read back by `TestUtils.MessageIdRoundTrip`) |
| TestUtils.VersionOf | test-archive/integration-tests/src/utils.rs:66-70 | the ERN version after the namespace prefix (read back by `TestUtils.VersionRoundTrip`) |
| TestUtils.IsDdex | test-archive/integration-tests/src/utils.rs:73 | `ern:NewReleaseMessage` or `xmlns:ern` occurs |
| TestUtils.IsCompatibleWith | test-archive/integration-tests/src/utils.rs:89-96 | `is_compatible_with` (stated by `TestUtils.CompatibleIsEquality`) |
| Util.Find | test-archive/integration-tests/src/utils.rs:51-57 | `str::find` returns the first occurrence, or none when there is none |
| Util.CountMatchesPositiveIff | test-archive/integration-tests/src/utils.rs:60-63 | the occurrence count is positive iff the text contains the pattern |
| Util.ParseNatToString | packages/ddex-builder/src/generator/mod.rs:160 | a decimal rendering parses back to its number |
| Util.TaggedNumberIff | packages/ddex-builder/src/generator/mod.rs:292-295 | `A<n>`/`R<n>` references are equal iff their numbers are |
| Util.ZeroPad3 | packages/ddex-parser/bindings/node/src/lib.rs:196-209 | `{:03}` pads with zeros to at least three digits and ends with the number's digits |
| Util.Utf8LengthBounds | packages/ddex-builder/src/builder.rs:249-255 | the byte size is between the character count and four times it, equal iff all characters are ASCII |
| Util.TrimOfTrimmed | test-archive/integration-tests/src/utils.rs:33-39 | trimming an already trimmed line changes nothing |
| Util.CountMatches | test-archive/integration-tests/src/utils.rs:60-63 | `str::matches(..).count()`: non-overlapping occurrences scanned from the left (stated by `Util.CountMatchesPositiveIff` and `TestUtils.CountsAddAtTags`) |
| Util.Trim | test-archive/integration-tests/src/utils.rs:35 | `str::trim`: no longer than its argument, and neither starts nor ends with whitespace |
| Util.Lines | test-archive/integration-tests/src/utils.rs:34 | `str::lines`: the pieces between line feeds, none of which contains a line feed |
| Util.NatToString | packages/ddex-builder/src/generator/mod.rs:160 | `{}` formatting of an unsigned number: a non-empty string of decimal digits (read back by `Util.ParseNatToString`) |
| Util.Utf8Length | packages/ddex-builder/src/builder.rs:254 | `str::len`: the UTF-8 byte count (stated by `Util.Utf8LengthBounds`) |

## Left out

- Clock, fresh UUIDs and the crate version: parameters of the build and of the bindings, not computed.
- SHA-256 and hex encoding (canonical/mod.rs `canonical_hash`, integration `hash_string`/`hash_file`): `digest` is an uninterpreted function parameter; `hash_string` and `hash_file` are not modelled.
- The canonicaliser's parse, canonicalise and serialise steps are `todo!()` in the source; they are one `stages` parameter. The builder's `generate_ast`, `apply_determinism` and `generate_xml` stubs are likewise `todo!()` and are modelled by what `build` calls: the generator and the writer.
- Builder.BuildWithCanonicalisation: the hash is taken of canonicalising the canonical text again, as the code does; that it equals the digest of the returned XML is proved only under the hypothesis that canonicalisation is idempotent (Builder.BuildHashOfIdempotentCanonicalForm), since the stages are unseen.
- DeterminismVerifier.Verify: the configuration argument is dropped because `build_internal` does not read the builder's configuration; builds are a parameter indexed by iteration.
- Partner presets' contents: `presets/mod.rs` is not part of this model; the two presets are constructor parameters of `Lib.Builder`.
- XmlWriter.ChildXml: the `Display` implementation of `Comment` is not part of this model; the writer is modelled as printing the comment's `content` between `<!-- ` and ` -->`, so the comment's other fields and any rewriting `Display` does (such as of `--`) are not captured.
- The `SimpleComment` node has no arm in the writer's `match`; the writer requires trees without simple comments, which every generated tree is.
- The `&mut self` methods of `Element` (`add_child`, `add_text`, `add_comment`, `add_simple_comment`) are value-returning functions; aliasing of elements is not modelled.
- Generator.AstGenerator.AddReleaseLists: the source tests `!request.releases.is_empty()` twice in a row; both blocks are one branch here.
- UTF-8 validity of the writer's buffer: the model works on characters, so the `Serialization` error of `from_utf8` cannot arise.
- Floating point: WASM build times and sizes are `real`; the fidelity `finalize`, `calculate_success_rate`, performance summary, compatibility matrix and `format_duration` are not modelled.
- Fidelity.FidelityTestResult.AddTiming: the total is not wrapped at 2^64; counters of the suite and the WASM statistics are unbounded apart from the explicit `u32`/`u64` casts.
- The fidelity suite's file discovery and configuration (directory walking) and the integration tests' `measure_time`, `TestResult` and `create_xml_diff` are I/O or timing helpers.
- Util.Trim: whitespace is the ASCII set; Unicode whitespace that Rust's `trim` also removes is not. The same holds for `Util.TrimStart` and so for `WasmBuilder.ValidateStructure` (`trim_start`): a text starting with a no-break space and then `<` is valid in the binding but invalid in the model.
- DeterminismVerifier.ElapsedTimeOnlyInStatistics: the wall-clock creation time (`Utc::now()`) and the fresh UUID (`Uuid::new_v4()`, used as the message id when the request has none) are read again by every build and reach the XML, so the real `verify` can answer false because of them; the lemma holds them equal across iterations, and `Generator.ClockAndUuidReachTree` shows that either one changes the generated tree.
- TestUtils.Normalize: `\r` removal is subsumed by trimming each line, which the source does anyway.
- The napi, wasm-bindgen and FFI glue, `async` wrappers (the Node `parse` is `parse_sync`), `ParseOptions`, property getters and setters, and the WASM `metadata` value.
- `version()`, `version_info`, initialisation and console logging.
