/** The records a build is driven by and produces (ddex-builder `builder.rs`
    and `error.rs`): the request, the options, the warnings, the statistics,
    the result and the error kinds. Tracks and deals have the shape the
    generator reads: an optional ISRC and a duration in whole seconds for a
    track; territories and optional start and end dates for a deal. */
module BuildTypes {
  import opened Util
  import IndexMap
  import Determinism

  datatype LocalizedString = LocalizedString(text: string, languageCode: Option<string>)

  datatype PartyRequest = PartyRequest(
    partyName: seq<LocalizedString>,
    partyId: Option<string>,
    partyReference: Option<string>)

  datatype MessageHeaderRequest = MessageHeaderRequest(
    messageId: Option<string>,
    messageSender: PartyRequest,
    messageRecipient: PartyRequest,
    messageControlType: Option<string>)

  datatype TrackRequest = TrackRequest(
    position: nat,
    isrc: Option<string>,
    title: string,
    /** Whole seconds. */
    duration: nat)

  datatype ReleaseRequest = ReleaseRequest(
    releaseId: string,
    releaseReference: Option<string>,
    title: seq<LocalizedString>,
    artist: string,
    tracks: seq<TrackRequest>,
    resourceReferences: Option<seq<string>>)

  datatype DealRequest = DealRequest(
    territories: seq<string>,
    startDate: Option<string>,
    endDate: Option<string>)

  datatype BuildRequest = BuildRequest(
    header: MessageHeaderRequest,
    version: string,
    profile: Option<string>,
    releases: seq<ReleaseRequest>,
    deals: seq<DealRequest>,
    extensions: Option<IndexMap.Entries<string, string>>)

  /** How preflight treats its findings: fail on any, report them, or skip. */
  datatype PreflightLevel = Strict | Warn | NoPreflight

  datatype IdStrategy = UUID | UUIDv7 | Sequential | StableHash

  datatype BuildOptions = BuildOptions(
    determinism: Option<Determinism.DeterminismConfig>,
    preflightLevel: PreflightLevel,
    idStrategy: IdStrategy)

  /** `BuildOptions::default()`. */
  function DefaultBuildOptions(): (o: BuildOptions)
    ensures o.determinism.None? && o.preflightLevel == Warn && o.idStrategy == UUID
  {
    BuildOptions(None, Warn, UUID)
  }

  datatype BuildError =
    | MissingRequired(field: string)
    | InvalidFormat(field: string, message: string)
    | UnknownField(field: string)
    | BadReference(reference: string)
    | CycleDetected(reference: string)
    | NamespaceLockViolation(message: string)
    | DeterminismFailure(message: string)
    | Io(message: string)
    | Serialization(message: string)

  datatype BuildWarning = BuildWarning(code: string, message: string, location: Option<string>)

  datatype BuildStatistics = BuildStatistics(
    releases: nat,
    tracks: nat,
    deals: nat,
    generationTimeMs: nat,
    xmlSizeBytes: nat)

  datatype BuildResult = BuildResult(
    xml: string,
    warnings: seq<BuildWarning>,
    errors: seq<BuildError>,
    statistics: BuildStatistics,
    canonicalHash: Option<string>,
    reproducibilityBanner: Option<string>)

  /** Every track of every release, releases in order and tracks in order
      within each. */
  function AllTracks(releases: seq<ReleaseRequest>): seq<TrackRequest> {
    if releases == [] then [] else AllTracks(releases[..|releases| - 1]) + releases[|releases| - 1].tracks
  }

  /** `releases.iter().map(|r| r.tracks.len()).sum()`. */
  function TotalTracks(releases: seq<ReleaseRequest>): nat {
    if releases == [] then 0 else TotalTracks(releases[..|releases| - 1]) + |releases[|releases| - 1].tracks|
  }

  /** The sum of track counts is the number of tracks in the flattened list. */
  lemma {:induction false} TotalTracksIsAllTracks(releases: seq<ReleaseRequest>)
    ensures TotalTracks(releases) == |AllTracks(releases)|
  {
    if releases != [] {
      TotalTracksIsAllTracks(releases[..|releases| - 1]);
    }
  }

  /** Taking one more release adds its tracks at the end of the flattened list. */
  lemma AllTracksStep(releases: seq<ReleaseRequest>, i: nat)
    requires i < |releases|
    ensures AllTracks(releases[..i + 1]) == AllTracks(releases[..i]) + releases[i].tracks
  {
    assert releases[..i + 1][..i] == releases[..i];
  }
}
