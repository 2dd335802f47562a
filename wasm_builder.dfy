/** The builder's WebAssembly binding (ddex-builder `bindings/wasm/src/lib.rs`):
    a builder object that collects releases and resources, keeps statistics
    about them, validates that a release is present, and renders a
    placeholder ERN 4.3 document. The clock, the UUID generator and the
    crate version are parameters. */
module WasmBuilder {
  import opened Util

  /** `len() as u32`: the count modulo 2^32. */
  function U32(n: nat): (r: nat)
    ensures r < 0x1_0000_0000
    ensures n < 0x1_0000_0000 ==> r == n
  {
    n % 0x1_0000_0000
  }

  // ----------------------------------------------------------------- records

  datatype Release = Release(
    releaseId: string,
    releaseType: string,
    title: string,
    artist: string,
    labelName: Option<string>,
    catalogNumber: Option<string>,
    upc: Option<string>,
    releaseDate: Option<string>,
    genre: Option<string>,
    parentalWarning: Option<bool>,
    trackIds: seq<string>,
    metadata: Option<map<string, string>>)

  /** `Release::new`: the four given fields; every optional field absent, no
      tracks, no metadata. */
  function NewRelease(releaseId: string, releaseType: string, title: string, artist: string): (r: Release)
    ensures r.releaseId == releaseId && r.releaseType == releaseType && r.title == title && r.artist == artist
    ensures r.labelName.None? && r.catalogNumber.None? && r.upc.None? && r.releaseDate.None? && r.genre.None?
    ensures r.parentalWarning.None? && r.trackIds == [] && r.metadata.None?
  {
    Release(releaseId, releaseType, title, artist, None, None, None, None, None, None, [], None)
  }

  datatype Resource = Resource(
    resourceId: string,
    resourceType: string,
    title: string,
    artist: string,
    isrc: Option<string>,
    duration: Option<string>,
    /** `i32` numbers. */
    trackNumber: Option<int>,
    volumeNumber: Option<int>,
    metadata: Option<map<string, string>>)

  /** `Resource::new`: the four given fields; every optional field absent, no
      metadata. */
  function NewResource(resourceId: string, resourceType: string, title: string, artist: string): (r: Resource)
    ensures r.resourceId == resourceId && r.resourceType == resourceType && r.title == title && r.artist == artist
    ensures r.isrc.None? && r.duration.None? && r.trackNumber.None? && r.volumeNumber.None? && r.metadata.None?
  {
    Resource(resourceId, resourceType, title, artist, None, None, None, None, None)
  }

  datatype ValidationResult = ValidationResult(isValid: bool, errors: seq<string>, warnings: seq<string>)

  /** `BuilderStats`. The counts are `u32`; the time and size are `f64`. */
  datatype BuilderStats = BuilderStats(
    releasesCount: nat,
    resourcesCount: nat,
    totalBuildTimeMs: real,
    lastBuildSizeBytes: real,
    validationErrors: nat,
    validationWarnings: nat)

  /** `BuilderStats::new`: everything zero. */
  function NewStats(): BuilderStats {
    BuilderStats(0, 0, 0.0, 0.0, 0, 0)
  }

  const NO_RELEASE_ERROR := "At least one release is required"

  // ----------------------------------------------------------- placeholder

  // The fixed text is assembled from tags and indented lines.

  function Open(name: string): string {
    "<" + name + ">"
  }

  function Close(name: string): string {
    "</" + name + ">"
  }

  /** An element holding text, inserted without escaping. */
  function Leaf(name: string, text: string): string {
    Open(name) + text + Close(name)
  }

  /** One line at the given depth, two spaces per level. */
  function Line(depth: nat, text: string): string {
    (if depth == 1 then "  " else if depth == 2 then "    " else if depth == 3 then "      " else "") + text + "\n"
  }

  function DeclarationLine(): string {
    Line(0, "<?xml" + " version=\"1.0\"" + " encoding=\"UTF-8\"" + "?>")
  }

  const ROOT := "NewReleaseMessage"
  const ERN43_NAMESPACE := " xmlns=\"http://ddex.net/xml/ern/43\""

  const CLOSING_TAG := Line(0, Close(ROOT))

  /** The root start tag and the message header, with the message id and
      creation time supplied. */
  function MessageHeaderXml(uuid: string, now: string): string {
    Line(0, "<" + ROOT + ERN43_NAMESPACE + " MessageSchemaVersionId=\"ern/43\"" + ">")
    + Line(1, Open("MessageHeader"))
    + Line(2, Leaf("MessageId", uuid))
    + Line(2, Open("MessageSender"))
    + Line(3, Leaf("PartyName", "DDEX Suite WASM"))
    + Line(2, Close("MessageSender"))
    + Line(2, Open("MessageRecipient"))
    + Line(3, Leaf("PartyName", "Web Client"))
    + Line(2, Close("MessageRecipient"))
    + Line(2, Leaf("MessageCreatedDateTime", now))
    + Line(1, Close("MessageHeader"))
  }

  /** One release, in a release list of its own; the label only when set. */
  function ReleaseXml(r: Release): string {
    Line(1, Open("ReleaseList"))
    + Line(2, Open("Release"))
    + Line(3, Leaf("ReleaseId", r.releaseId))
    + Line(3, Leaf("Title", r.title))
    + Line(3, Leaf("Artist", r.artist))
    + (if r.labelName.Some? then Line(3, Leaf("Label", r.labelName.value)) else "")
    + Line(2, Close("Release"))
    + Line(1, Close("ReleaseList"))
  }

  /** One resource, as a sound recording in a resource list of its own; the
      ISRC only when set. */
  function ResourceXml(r: Resource): string {
    Line(1, Open("ResourceList"))
    + Line(2, Open("SoundRecording"))
    + Line(3, Leaf("ResourceId", r.resourceId))
    + Line(3, Leaf("Title", r.title))
    + Line(3, Leaf("Artist", r.artist))
    + (if r.isrc.Some? then Line(3, Leaf("ISRC", r.isrc.value)) else "")
    + Line(2, Close("SoundRecording"))
    + Line(1, Close("ResourceList"))
  }

  /** The blocks of `xs`, one after the other in order. */
  function Blocks<T>(xs: seq<T>, render: T -> string): string {
    if xs == [] then "" else Blocks(xs[..|xs| - 1], render) + render(xs[|xs| - 1])
  }

  /** Appending an item appends exactly its block. */
  lemma BlocksAppend<T>(xs: seq<T>, x: T, render: T -> string)
    ensures Blocks(xs + [x], render) == Blocks(xs, render) + render(x)
  {
    assert (xs + [x])[..|xs|] == xs;
  }

  /** The loops of `generate_placeholder_xml`: one block per item pushed
      onto the text so far, in order. */
  method PushBlocks<T>(head: string, xs: seq<T>, render: T -> string) returns (text: string)
    ensures text == head + Blocks(xs, render)
  {
    text := head;
    var i := 0;
    while i < |xs|
      invariant i <= |xs|
      invariant text == head + Blocks(xs[..i], render)
    {
      BlocksAppend(xs[..i], xs[i], render);
      assert xs[..i + 1] == xs[..i] + [xs[i]];
      text := text + render(xs[i]);
      i := i + 1;
    }
    assert xs[..i] == xs;
  }

  /** What follows the header: the releases in order, the resources in
      order, the closing tag. */
  function BodyXml(releases: seq<Release>, resources: seq<Resource>): string {
    Blocks(releases, ReleaseXml) + Blocks(resources, ResourceXml) + CLOSING_TAG
  }

  /** The pushes of `generate_placeholder_xml` after the header: the
      release blocks, the resource blocks, the closing tag. */
  method PushBody(head: string, releases: seq<Release>, resources: seq<Resource>) returns (xml: string)
    ensures xml == head + BodyXml(releases, resources)
  {
    var withReleases := PushBlocks(head, releases, ReleaseXml);
    var withResources := PushBlocks(withReleases, resources, ResourceXml);
    xml := withResources + CLOSING_TAG;
    AppendAssoc4(head, Blocks(releases, ReleaseXml), Blocks(resources, ResourceXml), CLOSING_TAG);
  }

  /** `generate_placeholder_xml`: the declaration, the header, then the
      body. */
  function PlaceholderXml(releases: seq<Release>, resources: seq<Resource>, uuid: string, now: string): string {
    DeclarationLine() + MessageHeaderXml(uuid, now) + BodyXml(releases, resources)
  }

  lemma Framed(x: string, d: string, m: string, b: string, c: string)
    requires x == d + m + (b + c)
    ensures StartsWith(x, d)
    ensures |x| >= |c| && x[|x| - |c|..] == c
  {
    assert x[..|d|] == d;
  }

  /** The placeholder document opens with the XML declaration and closes
      the root element, whatever was added. */
  lemma PlaceholderFraming(releases: seq<Release>, resources: seq<Resource>, uuid: string, now: string)
    ensures StartsWith(PlaceholderXml(releases, resources, uuid, now), DeclarationLine())
    ensures var xml := PlaceholderXml(releases, resources, uuid, now);
      |xml| >= |CLOSING_TAG| && xml[|xml| - |CLOSING_TAG|..] == CLOSING_TAG
  {
    Framed(PlaceholderXml(releases, resources, uuid, now), DeclarationLine(), MessageHeaderXml(uuid, now),
           Blocks(releases, ReleaseXml) + Blocks(resources, ResourceXml), CLOSING_TAG);
  }

  // ----------------------------------------------------------------- builder

  /** `WasmDdexBuilder`. */
  class WasmDdexBuilder {
    var releases: seq<Release>
    var resources: seq<Resource>
    var stats: BuilderStats

    /** The statistics count what the lists hold. */
    predicate Valid()
      reads this
    {
      stats.releasesCount == U32(|releases|) && stats.resourcesCount == U32(|resources|)
    }

    /** `WasmDdexBuilder::new`: nothing added, statistics zero. */
    constructor ()
      ensures Valid()
      ensures releases == [] && resources == [] && stats == NewStats()
    {
      releases := [];
      resources := [];
      stats := NewStats();
    }

    /** `add_release`: appended at the end; the release count follows. */
    method AddRelease(release: Release)
      requires Valid()
      modifies this
      ensures Valid()
      ensures releases == old(releases) + [release] && resources == old(resources)
      ensures stats == old(stats).(releasesCount := U32(|releases|))
    {
      releases := releases + [release];
      stats := stats.(releasesCount := U32(|releases|));
    }

    /** `add_resource`: appended at the end; the resource count follows. */
    method AddResource(resource: Resource)
      requires Valid()
      modifies this
      ensures Valid()
      ensures resources == old(resources) + [resource] && releases == old(releases)
      ensures stats == old(stats).(resourcesCount := U32(|resources|))
    {
      resources := resources + [resource];
      stats := stats.(resourcesCount := U32(|resources|));
    }

    /** `validate`: valid exactly when a release has been added, with the one
        error otherwise; nothing changes. */
    method Validate() returns (r: ValidationResult)
      ensures r.isValid <==> releases != []
      ensures r.errors == (if releases == [] then [NO_RELEASE_ERROR] else [])
      ensures r.warnings == []
    {
      r := ValidationResult(releases != [], [], []);
      if releases == [] {
        r := r.(errors := ["At least one release is required"]);
      }
    }

    /** `get_stats`. */
    method GetStats() returns (s: BuilderStats)
      requires Valid()
      ensures s == stats
      ensures s.releasesCount == U32(|releases|) && s.resourcesCount == U32(|resources|)
    {
      s := stats;
    }

    /** `reset`: both lists emptied, statistics back to zero. */
    method Reset()
      modifies this
      ensures Valid()
      ensures releases == [] && resources == [] && stats == NewStats()
    {
      releases := [];
      resources := [];
      stats := NewStats();
    }

    /** `generate_placeholder_xml`: the declaration and the header, then
        the body pushed after them. */
    method GeneratePlaceholderXml(uuid: string, now: string) returns (xml: string)
      ensures xml == PlaceholderXml(releases, resources, uuid, now)
    {
      xml := PushBody(DeclarationLine() + MessageHeaderXml(uuid, now), releases, resources);
    }

    /** `build`: renders the placeholder, records its size in bytes and adds
        the time between the two clock readings to the total. Only the size
        and time statistics change, so `Valid` is kept. */
    method Build(uuid: string, now: string, startMs: real, endMs: real) returns (xml: string)
      modifies this
      ensures xml == PlaceholderXml(old(releases), old(resources), uuid, now)
      ensures releases == old(releases) && resources == old(resources)
      ensures stats == old(stats).(lastBuildSizeBytes := Utf8Length(xml) as real,
                                  totalBuildTimeMs := old(stats.totalBuildTimeMs) + (endMs - startMs))
    {
      xml := GeneratePlaceholderXml(uuid, now);
      var size := Utf8Length(xml);
      RecordBuild(size, endMs - startMs);
    }

    /** The statistics `build` updates: the size of the last document and
        the total build time. */
    method RecordBuild(size: nat, elapsedMs: real)
      modifies this
      ensures releases == old(releases) && resources == old(resources)
      ensures stats == old(stats).(lastBuildSizeBytes := size as real,
                                  totalBuildTimeMs := old(stats.totalBuildTimeMs) + elapsedMs)
    {
      stats := stats.(lastBuildSizeBytes := size as real,
                      totalBuildTimeMs := stats.totalBuildTimeMs + elapsedMs);
    }
  }

  // ---------------------------------------------------------- free functions

  /** The document `batch_build` returns for each request. */
  function BatchDocument(uuid: string): string {
    DeclarationLine()
    + Line(0, "<" + ROOT + ERN43_NAMESPACE + ">")
    + Line(1, Open("MessageHeader"))
    + Line(2, Leaf("MessageId", uuid))
    + Line(2, Leaf("MessageSender", Leaf("PartyName", "DDEX Suite WASM")))
    + Line(2, Leaf("MessageRecipient", Leaf("PartyName", "Web Client")))
    + Line(1, Close("MessageHeader"))
    + Close(ROOT)
  }

  /** `batch_build`: one placeholder per element of the request array, the
      `i`-th with the `i`-th fresh UUID; the requests themselves are not
      read. */
  method BatchBuild(length: nat, uuids: nat -> string) returns (results: seq<string>)
    ensures |results| == length
    ensures forall i :: 0 <= i < length ==> results[i] == BatchDocument(uuids(i))
  {
    results := [];
    var i := 0;
    while i < length
      invariant i <= length && |results| == i
      invariant forall k :: 0 <= k < i ==> results[k] == BatchDocument(uuids(k))
    {
      results := results + [BatchDocument(uuids(i))];
      i := i + 1;
    }
  }

  /** `validate_structure`: the empty string is refused as empty; any other
      text is valid exactly when, after leading whitespace, it starts with
      `<` (the `<?xml` alternative is covered by that), and is otherwise
      refused as malformed. */
  method ValidateStructure(xml: string) returns (r: ValidationResult)
    ensures xml == [] ==> r == ValidationResult(false, ["XML cannot be empty"], [])
    ensures xml != [] ==> (r.isValid <==> StartsWith(TrimStart(xml), "<"))
    ensures xml != [] && !r.isValid ==> r.errors == ["Invalid XML format"]
    ensures r.isValid ==> r.errors == []
    ensures r.warnings == []
  {
    r := ValidationResult(true, [], []);
    var trimmed := TrimStart(xml);
    if xml == [] {
      r := r.(isValid := false);
      r := r.(errors := ["XML cannot be empty"]);
    } else if !StartsWith(trimmed, "<?xml") && !StartsWith(trimmed, "<") {
      r := r.(isValid := false);
      r := r.(errors := ["Invalid XML format"]);
    } else if StartsWith(trimmed, "<?xml") {
      assert trimmed[0..1] == "<?xml"[0..1];
    }
  }
}
