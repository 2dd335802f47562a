/** The build pipeline (ddex-builder `builder.rs`): preflight checks on the
    request, tree generation, serialisation, optional DB-C14N canonicalisation
    with its hash, the reproducibility banner and the statistics. The clock,
    the UUID generator, the crate version and the canonicaliser's stages are
    passed in as a `BuildEnvironment`. */
module Builder {
  import opened Util
  import opened Ast
  import opened BuildTypes
  import Determinism
  import Generator
  import GeneratedOutput
  import XmlWriter
  import Canonical

  /** What a build takes from outside the request: the UUID for a message
      without an id, the creation timestamp, the elapsed milliseconds, the
      crate version printed in the banner, and the canonicaliser's parse,
      rewrite and serialise stages with the SHA-256 hex digest. */
  datatype BuildEnvironment = BuildEnvironment(
    messageUuid: string,
    createdAt: string,
    elapsedMs: nat,
    crateVersion: string,
    stages: Canonical.Stages,
    digest: Canonical.Digest)

  // --------------------------------------------------------------- preflight

  function NoReleasesWarning(): BuildWarning {
    BuildWarning("NO_RELEASES", "No releases in request", Some("/releases"))
  }

  function MissingTitleWarning(idx: nat): BuildWarning {
    BuildWarning("MISSING_TITLE", "Release " + NatToString(idx) + " missing title",
                 Some("/releases/" + NatToString(idx) + "/title"))
  }

  function MissingArtistWarning(idx: nat): BuildWarning {
    BuildWarning("MISSING_ARTIST", "Release " + NatToString(idx) + " missing artist",
                 Some("/releases/" + NatToString(idx) + "/artist"))
  }

  /** The findings for the release at `idx`: title first, then artist. */
  function ReleaseWarnings(release: ReleaseRequest, idx: nat): seq<BuildWarning> {
    (if release.title == [] then [MissingTitleWarning(idx)] else [])
    + (if release.artist == "" then [MissingArtistWarning(idx)] else [])
  }

  /** The findings for every release, in request order. */
  function ReleasesWarnings(releases: seq<ReleaseRequest>): seq<BuildWarning> {
    if releases == [] then []
    else ReleasesWarnings(releases[..|releases| - 1]) + ReleaseWarnings(releases[|releases| - 1], |releases| - 1)
  }

  /** Everything preflight reports when it runs: the missing releases, then
      each release's findings. */
  function Findings(request: BuildRequest): seq<BuildWarning> {
    (if request.releases == [] then [NoReleasesWarning()] else []) + ReleasesWarnings(request.releases)
  }

  function StrictError(count: nat): BuildError {
    InvalidFormat("request", NatToString(count) + " validation warnings in strict mode")
  }

  /** What `preflight` returns at each level. */
  function PreflightSpec(request: BuildRequest, level: PreflightLevel): Result<seq<BuildWarning>, BuildError> {
    if level == NoPreflight then Ok([])
    else if level == Strict && Findings(request) != [] then Err(StrictError(|Findings(request)|))
    else Ok(Findings(request))
  }

  /** `preflight`: collects the findings in one pass over the releases. */
  method Preflight(request: BuildRequest, level: PreflightLevel) returns (r: Result<seq<BuildWarning>, BuildError>)
    ensures r == PreflightSpec(request, level)
  {
    var warnings: seq<BuildWarning> := [];
    if level == NoPreflight {
      return Ok(warnings);
    }
    if request.releases == [] {
      warnings := warnings + [NoReleasesWarning()];
    }
    ghost var head := warnings;
    var releases := request.releases;
    var idx := 0;
    while idx < |releases|
      invariant idx <= |releases|
      invariant warnings == head + ReleasesWarnings(releases[..idx])
    {
      var release := releases[idx];
      ghost var before := warnings;
      if release.title == [] {
        warnings := warnings + [MissingTitleWarning(idx)];
      }
      if release.artist == "" {
        warnings := warnings + [MissingArtistWarning(idx)];
      }
      assert warnings == before + ReleaseWarnings(release, idx);
      ReleasesWarningsStep(releases, idx, head);
      idx := idx + 1;
    }
    assert releases[..idx] == releases;
    assert warnings == Findings(request);
    if level == Strict && warnings != [] {
      return Err(StrictError(|warnings|));
    }
    r := Ok(warnings);
  }

  // --------------------------------------------------------- preflight facts

  /** One more release adds its findings at the end. */
  lemma ReleasesWarningsStep(releases: seq<ReleaseRequest>, idx: nat, head: seq<BuildWarning>)
    requires idx < |releases|
    ensures head + ReleasesWarnings(releases[..idx + 1])
      == head + ReleasesWarnings(releases[..idx]) + ReleaseWarnings(releases[idx], idx)
  {
    assert releases[..idx + 1][..idx] == releases[..idx];
    AppendAssoc3(head, ReleasesWarnings(releases[..idx]), ReleaseWarnings(releases[idx], idx));
  }

  /** The warning kinds are told apart by their codes. */
  lemma WarningKindsDiffer(i: nat, j: nat)
    ensures MissingTitleWarning(i) != MissingArtistWarning(j)
    ensures NoReleasesWarning() != MissingTitleWarning(i) && NoReleasesWarning() != MissingArtistWarning(j)
    ensures MissingTitleWarning(i) == MissingTitleWarning(j) <==> i == j
    ensures MissingArtistWarning(i) == MissingArtistWarning(j) <==> i == j
  {
    assert "MISSING_TITLE"[8] != "MISSING_ARTIST"[8];
    assert "NO_RELEASES"[0] != "MISSING_TITLE"[0];
    if MissingTitleWarning(i) == MissingTitleWarning(j) {
      FramedNumberInjective("Release ", " missing title", i, j);
    }
    if MissingArtistWarning(i) == MissingArtistWarning(j) {
      FramedNumberInjective("Release ", " missing artist", i, j);
    }
  }

  /** Release `i` is reported as missing its title exactly when its title
      list is empty. */
  lemma {:induction false} MissingTitleReported(releases: seq<ReleaseRequest>, i: nat)
    ensures MissingTitleWarning(i) in ReleasesWarnings(releases) <==> i < |releases| && releases[i].title == []
  {
    if releases != [] {
      var n := |releases| - 1;
      var init := releases[..n];
      MissingTitleReported(init, i);
      WarningKindsDiffer(i, n);
      assert MissingTitleWarning(i) in ReleaseWarnings(releases[n], n) <==> i == n && releases[n].title == [];
      if i < n { assert init[i] == releases[i]; }
    }
  }

  /** Release `i` is reported as missing its artist exactly when its artist
      is the empty string. */
  lemma {:induction false} MissingArtistReported(releases: seq<ReleaseRequest>, i: nat)
    ensures MissingArtistWarning(i) in ReleasesWarnings(releases) <==> i < |releases| && releases[i].artist == ""
  {
    if releases != [] {
      var n := |releases| - 1;
      var init := releases[..n];
      MissingArtistReported(init, i);
      WarningKindsDiffer(n, i);
      WarningKindsDiffer(i, n);
      assert MissingArtistWarning(i) in ReleaseWarnings(releases[n], n) <==> i == n && releases[n].artist == "";
      if i < n { assert init[i] == releases[i]; }
    }
  }

  /** Only the three kinds of warning are ever reported, at most two per
      release. */
  lemma {:induction false} ReleasesWarningsKinds(releases: seq<ReleaseRequest>)
    ensures |ReleasesWarnings(releases)| <= 2 * |releases|
    ensures forall w :: w in ReleasesWarnings(releases) ==>
      exists i :: 0 <= i < |releases| && (w == MissingTitleWarning(i) || w == MissingArtistWarning(i))
  {
    if releases != [] {
      var n := |releases| - 1;
      var init := releases[..n];
      ReleasesWarningsKinds(init);
      forall w | w in ReleasesWarnings(releases)
        ensures exists i :: 0 <= i < |releases| && (w == MissingTitleWarning(i) || w == MissingArtistWarning(i))
      {
        if w in ReleasesWarnings(init) {
          var i :| 0 <= i < |init| && (w == MissingTitleWarning(i) || w == MissingArtistWarning(i));
          assert 0 <= i < |releases|;
        } else {
          assert w == MissingTitleWarning(n) || w == MissingArtistWarning(n);
        }
      }
    }
  }

  /** The findings of earlier releases come before those of later ones: the
      findings for the first `i` releases, followed by release `i`'s, open the
      full list. */
  lemma {:induction false} ReleasesWarningsInOrder(releases: seq<ReleaseRequest>, i: nat)
    requires i < |releases|
    ensures ReleasesWarnings(releases[..i]) + ReleaseWarnings(releases[i], i) <= ReleasesWarnings(releases)
    decreases |releases| - i
  {
    assert releases[..i + 1][..i] == releases[..i];
    if i + 1 == |releases| {
      assert releases[..i + 1] == releases;
    } else {
      ReleasesWarningsInOrder(releases, i + 1);
      ReleasesPrefixWarnings(releases, i + 1);
    }
  }

  lemma {:induction false} ReleasesPrefixWarnings(releases: seq<ReleaseRequest>, n: nat)
    requires n <= |releases|
    ensures ReleasesWarnings(releases[..n]) <= ReleasesWarnings(releases)
    decreases |releases| - n
  {
    if n == |releases| {
      assert releases[..n] == releases;
    } else {
      ReleasesPrefixWarnings(releases, n + 1);
      assert releases[..n + 1][..n] == releases[..n];
    }
  }

  /** `NO_RELEASES` is reported exactly for a request without releases, and
      then it is the only finding; otherwise the findings are the releases'
      own, and there are none exactly when every release has a title and an
      artist. */
  lemma FindingsShape(request: BuildRequest)
    ensures NoReleasesWarning() in Findings(request) <==> request.releases == []
    ensures request.releases == [] ==> Findings(request) == [NoReleasesWarning()]
    ensures |Findings(request)| <= 1 + 2 * |request.releases|
    ensures Findings(request) == [] <==>
      request.releases != [] && forall i :: 0 <= i < |request.releases| ==>
        request.releases[i].title != [] && request.releases[i].artist != ""
  {
    var releases := request.releases;
    ReleasesWarningsKinds(releases);
    if NoReleasesWarning() in ReleasesWarnings(releases) {
      var i :| 0 <= i < |releases| && (NoReleasesWarning() == MissingTitleWarning(i) || NoReleasesWarning() == MissingArtistWarning(i));
      WarningKindsDiffer(i, i);
    }
    if releases != [] {
      if Findings(request) == [] {
        forall i | 0 <= i < |releases| ensures releases[i].title != [] && releases[i].artist != "" {
          MissingTitleReported(releases, i);
          MissingArtistReported(releases, i);
        }
      } else {
        var w := Findings(request)[0];
        assert w in ReleasesWarnings(releases);
        var i :| 0 <= i < |releases| && (w == MissingTitleWarning(i) || w == MissingArtistWarning(i));
        MissingTitleReported(releases, i);
        MissingArtistReported(releases, i);
      }
    }
  }

  /** At `Strict` any finding fails preflight with the count of findings; at
      `Warn` preflight never fails and returns every finding; with no
      preflight nothing is checked. */
  lemma PreflightLevels(request: BuildRequest)
    ensures PreflightSpec(request, Strict).Ok? <==> Findings(request) == []
    ensures PreflightSpec(request, Strict).Err? ==>
      PreflightSpec(request, Strict).error == InvalidFormat("request", NatToString(|Findings(request)|) + " validation warnings in strict mode")
    ensures PreflightSpec(request, Strict).Ok? ==> PreflightSpec(request, Strict).value == []
    ensures PreflightSpec(request, Warn) == Ok(Findings(request))
    ensures PreflightSpec(request, NoPreflight) == Ok([])
  {
  }

  // ------------------------------------------------------------------- build

  /** `options.determinism.unwrap_or_default()`. */
  function ConfigOf(options: BuildOptions): Determinism.DeterminismConfig {
    options.determinism.GetOr(Determinism.DefaultConfig())
  }

  function Banner(crateVersion: string): string {
    "Generated by DDEX Builder v" + crateVersion + " with DB-C14N/" + Canonical.DB_C14N_VERSION
  }

  /** Step 5 of `build`: under DB-C14N the text is canonicalised and the hash
      is taken of what `canonical_hash` makes of the canonical text; otherwise
      the written text is kept and there is no hash. */
  function FinishSpec(config: Determinism.DeterminismConfig, xml: string, stages: Canonical.Stages, digest: Canonical.Digest)
    : Result<(string, Option<string>), BuildError>
  {
    if config.canonMode == Determinism.DbC14n then
      match Canonical.CanonicalizeSpec(xml, stages)
      case Err(e) => Err(e)
      case Ok(canonical) =>
        match Canonical.CanonicalHashSpec(canonical, stages, digest)
        case Err(e) => Err(e)
        case Ok(hash) => Ok((canonical, Some(hash)))
    else Ok((xml, None))
  }

  /** The text the writer produces for a generated tree. */
  function WrittenXml(request: BuildRequest, uuid: string, created: string, config: Determinism.DeterminismConfig, ast: Ast): string
    requires Generator.GenerateSpec(request, uuid, created, 0) == Ok(ast)
  {
    GeneratedOutput.GeneratedTreeWritable(request, uuid, created, 0, ast);
    XmlWriter.Document(config, ast)
  }

  function ResultOf(request: BuildRequest, env: BuildEnvironment, config: Determinism.DeterminismConfig,
                    warnings: seq<BuildWarning>, finalXml: string, hash: Option<string>): BuildResult
  {
    BuildResult(
      finalXml, warnings, [],
      BuildStatistics(|request.releases|, TotalTracks(request.releases), |request.deals|, env.elapsedMs, Utf8Length(finalXml)),
      hash,
      if config.emitReproducibilityBanner then Some(Banner(env.crateVersion)) else None)
  }

  /** What `build` returns. */
  function BuildSpec(request: BuildRequest, options: BuildOptions, env: BuildEnvironment): Result<BuildResult, BuildError> {
    match PreflightSpec(request, options.preflightLevel)
    case Err(e) => Err(e)
    case Ok(warnings) =>
      match Generator.GenerateSpec(request, env.messageUuid, env.createdAt, 0)
      case Err(e) => Err(e)
      case Ok(ast) =>
        var config := ConfigOf(options);
        match FinishSpec(config, WrittenXml(request, env.messageUuid, env.createdAt, config, ast), env.stages, env.digest)
        case Err(e) => Err(e)
        case Ok(done) => Ok(ResultOf(request, env, config, warnings, done.0, done.1))
  }

  /** `DDEXBuilder::build`. */
  method Build(request: BuildRequest, options: BuildOptions, env: BuildEnvironment) returns (r: Result<BuildResult, BuildError>)
    ensures r == BuildSpec(request, options, env)
  {
    var preflight := Preflight(request, options.preflightLevel);
    if preflight.Err? {
      return Err(preflight.error);
    }
    var warnings := preflight.value;
    var generator := new Generator.AstGenerator(request.version);
    var generated := generator.Generate(request, env.messageUuid, env.createdAt);
    if generated.Err? {
      return Err(generated.error);
    }
    var ast := generated.value;
    var config := ConfigOf(options);
    GeneratedOutput.GeneratedTreeWritable(request, env.messageUuid, env.createdAt, 0, ast);
    var writer := new XmlWriter.XmlWriter(config);
    var xml := writer.Write(ast);
    assert xml == WrittenXml(request, env.messageUuid, env.createdAt, config, ast);
    var finalXml: string;
    var hash: Option<string>;
    if config.canonMode == Determinism.DbC14n {
      var canonicalizer := new Canonical.Canonicalizer(config);
      var canonical := canonicalizer.Canonicalize(xml, env.stages);
      if canonical.Err? {
        return Err(canonical.error);
      }
      var digest := canonicalizer.CanonicalHash(canonical.value, env.stages, env.digest);
      if digest.Err? {
        return Err(digest.error);
      }
      finalXml, hash := canonical.value, Some(digest.value);
    } else {
      finalXml, hash := xml, None;
    }
    var banner := if config.emitReproducibilityBanner then Some(Banner(env.crateVersion)) else None;
    r := Ok(BuildResult(
      finalXml, warnings, [],
      BuildStatistics(|request.releases|, TotalTracks(request.releases), |request.deals|, env.elapsedMs, Utf8Length(finalXml)),
      hash, banner));
  }

  // ------------------------------------------------------------- build facts

  /** Finishing keeps or canonicalises the text, and yields a hash exactly
      under DB-C14N. */
  lemma FinishShape(config: Determinism.DeterminismConfig, xml: string, stages: Canonical.Stages, digest: Canonical.Digest)
    ensures config.canonMode != Determinism.DbC14n ==> FinishSpec(config, xml, stages, digest) == Ok((xml, None))
    ensures config.canonMode == Determinism.DbC14n ==>
      var canonical := Canonical.CanonicalizeSpec(xml, stages);
      && (FinishSpec(config, xml, stages, digest).Ok? <==> canonical.Ok? && stages(canonical.value).Ok?)
      && (FinishSpec(config, xml, stages, digest).Ok? ==>
            FinishSpec(config, xml, stages, digest).value.0 == canonical.value
            && FinishSpec(config, xml, stages, digest).value.1
               == Some(digest(Canonical.CanonicalizeSpec(canonical.value, stages).value)))
  {
  }

  /** The fields of an assembled result. */
  lemma ResultOfShape(request: BuildRequest, env: BuildEnvironment, config: Determinism.DeterminismConfig,
                      warnings: seq<BuildWarning>, finalXml: string, hash: Option<string>)
    ensures var res := ResultOf(request, env, config, warnings, finalXml, hash);
      && res.xml == finalXml && res.warnings == warnings && res.errors == [] && res.canonicalHash == hash
      && res.statistics.releases == |request.releases|
      && res.statistics.tracks == |AllTracks(request.releases)|
      && res.statistics.deals == |request.deals|
      && res.statistics.generationTimeMs == env.elapsedMs
      && res.statistics.xmlSizeBytes == Utf8Length(finalXml) >= |finalXml|
      && (res.reproducibilityBanner.Some? <==> config.emitReproducibilityBanner)
      && (res.reproducibilityBanner.Some? ==>
            res.reproducibilityBanner.value == "Generated by DDEX Builder v" + env.crateVersion + " with DB-C14N/1.0")
  {
    TotalTracksIsAllTracks(request.releases);
    Utf8LengthBounds(finalXml);
  }

  /** A successful build passed preflight and generation, finished the
      written text, and assembled its result from those parts. */
  lemma BuildSpecOk(request: BuildRequest, options: BuildOptions, env: BuildEnvironment)
    requires BuildSpec(request, options, env).Ok?
    ensures PreflightSpec(request, options.preflightLevel).Ok?
    ensures Generator.GenerateSpec(request, env.messageUuid, env.createdAt, 0).Ok?
    ensures var ast := Generator.GenerateSpec(request, env.messageUuid, env.createdAt, 0).value;
      var config := ConfigOf(options);
      var done := FinishSpec(config, WrittenXml(request, env.messageUuid, env.createdAt, config, ast), env.stages, env.digest);
      done.Ok? && BuildSpec(request, options, env).value
        == ResultOf(request, env, config, PreflightSpec(request, options.preflightLevel).value, done.value.0, done.value.1)
  {
  }

  /** A failing preflight ends the build with its error, before the version
      is looked at: at `Strict` any finding is fatal. */
  lemma BuildPreflightFirst(request: BuildRequest, options: BuildOptions, env: BuildEnvironment)
    ensures PreflightSpec(request, options.preflightLevel).Err? ==>
      BuildSpec(request, options, env) == Err(PreflightSpec(request, options.preflightLevel).error)
    ensures options.preflightLevel == Strict && Findings(request) != [] ==>
      BuildSpec(request, options, env) == Err(StrictError(|Findings(request)|))
  {
  }

  /** After preflight, an unsupported version fails the build with the
      generator's error. */
  lemma BuildRejectsUnsupportedVersion(request: BuildRequest, options: BuildOptions, env: BuildEnvironment)
    requires PreflightSpec(request, options.preflightLevel).Ok?
    requires !Generator.IsSupportedVersion(request.version)
    ensures BuildSpec(request, options, env) == Err(InvalidFormat("version", "Unsupported version: " + request.version))
  {
    Generator.GenerateSpecParts(request, env.messageUuid, env.createdAt, 0);
  }

  /** Without DB-C14N a supported request always builds, and the text is the
      writer's output for the generated tree, with no hash. */
  lemma BuildWithoutCanonicalisation(request: BuildRequest, options: BuildOptions, env: BuildEnvironment)
    requires PreflightSpec(request, options.preflightLevel).Ok?
    requires Generator.IsSupportedVersion(request.version)
    requires ConfigOf(options).canonMode != Determinism.DbC14n
    ensures Generator.GenerateSpec(request, env.messageUuid, env.createdAt, 0).Ok?
    ensures var ast := Generator.GenerateSpec(request, env.messageUuid, env.createdAt, 0).value;
      BuildSpec(request, options, env).Ok?
      && BuildSpec(request, options, env).value.xml == WrittenXml(request, env.messageUuid, env.createdAt, ConfigOf(options), ast)
      && BuildSpec(request, options, env).value.canonicalHash.None?
  {
    Generator.GenerateSpecParts(request, env.messageUuid, env.createdAt, 0);
  }

  /** Under DB-C14N a supported request builds exactly when the stages
      accept the written text and then the canonical text again (the hash
      canonicalises once more); the text is the canonical form and the hash
      is the digest of the canonical form of that. */
  lemma BuildWithCanonicalisation(request: BuildRequest, options: BuildOptions, env: BuildEnvironment)
    requires PreflightSpec(request, options.preflightLevel).Ok?
    requires Generator.IsSupportedVersion(request.version)
    requires ConfigOf(options).canonMode == Determinism.DbC14n
    ensures Generator.GenerateSpec(request, env.messageUuid, env.createdAt, 0).Ok?
    ensures var xml := WrittenXml(request, env.messageUuid, env.createdAt, ConfigOf(options),
                                  Generator.GenerateSpec(request, env.messageUuid, env.createdAt, 0).value);
      var canonical := Canonical.CanonicalizeSpec(xml, env.stages);
      && (BuildSpec(request, options, env).Ok? <==> canonical.Ok? && env.stages(canonical.value).Ok?)
      && (BuildSpec(request, options, env).Ok? ==>
            BuildSpec(request, options, env).value.xml == canonical.value
            && BuildSpec(request, options, env).value.canonicalHash
               == Some(env.digest(Canonical.CanonicalizeSpec(canonical.value, env.stages).value)))
  {
    Generator.GenerateSpecParts(request, env.messageUuid, env.createdAt, 0);
  }

  /** The hash is the digest of the delivered text itself when
      canonicalisation leaves canonical text unchanged. */
  lemma BuildHashOfIdempotentCanonicalForm(request: BuildRequest, options: BuildOptions, env: BuildEnvironment)
    requires BuildSpec(request, options, env).Ok?
    requires ConfigOf(options).canonMode == Determinism.DbC14n
    requires var xml := BuildSpec(request, options, env).value.xml;
      Canonical.CanonicalizeSpec(xml, env.stages) == Ok(xml)
    ensures BuildSpec(request, options, env).value.canonicalHash
      == Some(env.digest(BuildSpec(request, options, env).value.xml))
  {
    var pre := PreflightSpec(request, options.preflightLevel);
    Generator.GenerateSpecParts(request, env.messageUuid, env.createdAt, 0);
    BuildWithCanonicalisation(request, options, env);
  }

  /** Every successful build reports preflight's warnings and no errors,
      counts the releases, tracks and deals of the request, measures the
      text in UTF-8 bytes, carries a hash exactly under DB-C14N and the
      banner exactly when it is asked for, and its text opens with the XML
      declaration line. */
  lemma BuildResultShape(request: BuildRequest, options: BuildOptions, env: BuildEnvironment)
    requires BuildSpec(request, options, env).Ok?
    ensures var res := BuildSpec(request, options, env).value;
      && PreflightSpec(request, options.preflightLevel) == Ok(res.warnings)
      && res.errors == []
      && res.statistics.releases == |request.releases|
      && res.statistics.tracks == |AllTracks(request.releases)|
      && res.statistics.deals == |request.deals|
      && res.statistics.generationTimeMs == env.elapsedMs
      && res.statistics.xmlSizeBytes == Utf8Length(res.xml) >= |res.xml|
      && (res.canonicalHash.Some? <==> ConfigOf(options).canonMode == Determinism.DbC14n)
      && (res.reproducibilityBanner.Some? <==> ConfigOf(options).emitReproducibilityBanner)
      && (res.reproducibilityBanner.Some? ==>
            res.reproducibilityBanner.value == "Generated by DDEX Builder v" + env.crateVersion + " with DB-C14N/1.0")
  {
    BuildSpecOk(request, options, env);
    var ast := Generator.GenerateSpec(request, env.messageUuid, env.createdAt, 0).value;
    var config := ConfigOf(options);
    var xml := WrittenXml(request, env.messageUuid, env.createdAt, config, ast);
    var done := FinishSpec(config, xml, env.stages, env.digest).value;
    FinishShape(config, xml, env.stages, env.digest);
    ResultOfShape(request, env, config, PreflightSpec(request, options.preflightLevel).value, done.0, done.1);
  }

  lemma DeclarationsAgree()
    ensures XmlWriter.XML_DECLARATION + "\n" == "<?xml version=\"1.0\" encoding=\"UTF-8\"?>\n"
    ensures Canonical.XML_DECLARATION + "\n" == "<?xml version=\"1.0\" encoding=\"UTF-8\"?>\n"
  {
  }

  /** The text of every successful build starts with the XML declaration and
      a line feed, whether it is the writer's or the canonical form. */
  lemma BuildStartsWithDeclaration(request: BuildRequest, options: BuildOptions, env: BuildEnvironment)
    requires BuildSpec(request, options, env).Ok?
    ensures StartsWith(BuildSpec(request, options, env).value.xml, "<?xml version=\"1.0\" encoding=\"UTF-8\"?>\n")
  {
    BuildSpecOk(request, options, env);
    var ast := Generator.GenerateSpec(request, env.messageUuid, env.createdAt, 0).value;
    var config := ConfigOf(options);
    var xml := WrittenXml(request, env.messageUuid, env.createdAt, config, ast);
    var done := FinishSpec(config, xml, env.stages, env.digest).value;
    FinishShape(config, xml, env.stages, env.digest);
    ResultOfShape(request, env, config, PreflightSpec(request, options.preflightLevel).value, done.0, done.1);
    DeclarationsAgree();
    if config.canonMode == Determinism.DbC14n {
      Canonical.CanonicalForm(xml, env.stages);
    } else {
      GeneratedOutput.GeneratedTreeWritable(request, env.messageUuid, env.createdAt, 0, ast);
      XmlWriter.DocumentStart(config, ast);
    }
  }

  /** The elapsed time (`Instant`) only reaches the statistics: two builds
      that differ in it, with the same creation time and UUID, agree on
      success, text, warnings and hash. */
  lemma BuildIgnoresElapsedTime(request: BuildRequest, options: BuildOptions, env: BuildEnvironment, elapsedMs: nat)
    ensures var a := BuildSpec(request, options, env);
      var b := BuildSpec(request, options, env.(elapsedMs := elapsedMs));
      && (a.Ok? <==> b.Ok?)
      && (a.Err? ==> a.error == b.error)
      && (a.Ok? ==> a.value.xml == b.value.xml && a.value.warnings == b.value.warnings
                    && a.value.canonicalHash == b.value.canonicalHash
                    && b.value.statistics.generationTimeMs == elapsedMs)
  {
    var other := env.(elapsedMs := elapsedMs);
    assert other.messageUuid == env.messageUuid && other.createdAt == env.createdAt;
    assert other.stages == env.stages && other.digest == env.digest && other.crateVersion == env.crateVersion;
  }
}
