/** Generation of the AST from a build request (ddex-builder
    `generator/mod.rs`). The generator holds an id counter; resource and
    release references are numbered from it. Elements are built by appending
    children in loops over parties, releases, tracks, titles and deals. The
    message id's UUID and the creation timestamp come in as parameters. */
module Generator {
  import opened Util
  import opened Ast
  import IndexMap
  import opened BuildTypes
  import Determinism

  // --------------------------------------------------------------- versions

  predicate IsSupportedVersion(version: string) {
    version == "4.3" || version == "4.2" || version == "3.8.2"
  }

  /** The ERN namespace URI of a supported version. */
  function VersionUri(version: string): string
    requires IsSupportedVersion(version)
  {
    if version == "4.3" then Determinism.ERN_43_URI
    else if version == "4.2" then Determinism.ERN_42_URI
    else Determinism.ERN_382_URI
  }

  /** `get_namespaces`: prefix to URI, `ern` then `xsi`, for a supported
      version; empty otherwise. */
  function GetNamespaces(version: string): (r: IndexMap.Entries<string, string>)
    ensures r == [] <==> !IsSupportedVersion(version)
  {
    if IsSupportedVersion(version) then
      IndexMap.Insert(IndexMap.Insert([], "ern", VersionUri(version)), "xsi", Determinism.XSI_URI)
    else []
  }

  /** `get_schema_location`: present exactly for the supported versions. */
  function GetSchemaLocation(version: string): (r: Option<string>)
    ensures r.Some? <==> IsSupportedVersion(version)
  {
    if version == "4.3" then Some("http://ddex.net/xml/ern/43 http://ddex.net/xml/ern/43/release-notification.xsd")
    else if version == "4.2" then Some("http://ddex.net/xml/ern/42 http://ddex.net/xml/ern/42/release-notification.xsd")
    else if version == "3.8.2" then Some("http://ddex.net/xml/ern/382 http://ddex.net/xml/ern/382/release-notification.xsd")
    else None
  }

  /** The namespace map of a supported version is exactly `ern` bound to the
      version's URI and then `xsi`; an unsupported version gets no map. */
  lemma GetNamespacesTable(version: string)
    ensures IsSupportedVersion(version) ==>
      GetNamespaces(version) == [("ern", VersionUri(version)), ("xsi", Determinism.XSI_URI)]
    ensures !IsSupportedVersion(version) ==> GetNamespaces(version) == []
    ensures IndexMap.DistinctKeys(GetNamespaces(version))
  {
    if IsSupportedVersion(version) {
      var m := IndexMap.Insert([], "ern", VersionUri(version));
      assert m == [("ern", VersionUri(version))];
      assert "ern"[0] != "xsi"[0];
      assert IndexMap.Insert(m, "xsi", Determinism.XSI_URI) == [m[0]] + IndexMap.Insert([], "xsi", Determinism.XSI_URI);
    }
  }

  /** `create_root_element`: `NewReleaseMessage` with the schema version and
      language attributes, or an `InvalidFormat` error on field `version`. */
  function CreateRootElement(version: string): (r: Result<Element, BuildError>)
    ensures r.Ok? <==> IsSupportedVersion(version)
    ensures r.Ok? ==> r.value.name == "NewReleaseMessage" && r.value.namespace.None? && r.value.children == []
    ensures r.Ok? ==> r.value.attributes == [("MessageSchemaVersionId", "ern/" + version), ("LanguageAndScriptCode", "en")]
    ensures r.Err? ==> r.error == InvalidFormat("version", "Unsupported version: " + version)
  {
    if IsSupportedVersion(version) then
      var attrs := IndexMap.Insert([], "MessageSchemaVersionId", "ern/" + version);
      assert attrs == [("MessageSchemaVersionId", "ern/" + version)];
      assert "LanguageAndScriptCode" !in IndexMap.Keys(attrs) by {
        assert IndexMap.Keys(attrs) == ["MessageSchemaVersionId"];
        assert "LanguageAndScriptCode"[0] != "MessageSchemaVersionId"[0];
      }
      IndexMap.InsertNew(attrs, "LanguageAndScriptCode", "en");
      Ok(New("NewReleaseMessage").(attributes := IndexMap.Insert(attrs, "LanguageAndScriptCode", "en")))
    else
      Err(InvalidFormat("version", "Unsupported version: " + version))
  }

  // --------------------------------------------------------------- durations

  /** `format!("PT{}M{}S", d / 60, d % 60)`. */
  function DurationText(seconds: nat): string {
    "PT" + NatToString(seconds / 60) + "M" + NatToString(seconds % 60) + "S"
  }

  /** Reads `PT<m>M<s>S` with `s < 60` back as `m * 60 + s` seconds. */
  function ParseDuration(t: string): Option<nat> {
    if |t| >= 3 && t[..2] == "PT" && t[|t| - 1] == 'S' then
      var body := t[2..|t| - 1];
      match Find(body, "M")
      case None => None
      case Some(k) =>
        match (ParseNat(body[..k]), ParseNat(body[k + 1..]))
        case (Some(m), Some(s)) => if s < 60 then Some(m * 60 + s) else None
        case _ => None
    else None
  }

  /** The first `M` in `digits + "M" + rest` is the one after the digits. */
  lemma FindAfterDigits(digits: string, rest: string)
    requires AllDigits(digits)
    ensures Find(digits + "M" + rest, "M") == Some(|digits|)
  {
    var s := digits + "M" + rest;
    assert OccursAt(s, "M", |digits|) by {
      assert s[|digits|..|digits| + 1] == "M";
    }
    forall j | 0 <= j < |digits|
      ensures !OccursAt(s, "M", j)
    {
      assert s[j] == digits[j] && IsDigit(digits[j]);
      assert s[j..j + 1] == [s[j]];
    }
    var r := Find(s, "M");
    assert r.Some? && r.value <= |digits|;
    assert r.value == |digits|;
  }

  /** The duration text reads back as the number of seconds it was made
      from: minutes are `d / 60` and the seconds part is below 60. */
  lemma DurationRoundTrip(seconds: nat)
    ensures ParseDuration(DurationText(seconds)) == Some(seconds)
  {
    var m := NatToString(seconds / 60);
    var s := NatToString(seconds % 60);
    var t := DurationText(seconds);
    var body := m + "M" + s;
    assert t == "PT" + body + "S";
    assert t[..2] == "PT" && t[|t| - 1] == 'S';
    assert t[2..|t| - 1] == body;
    FindAfterDigits(m, s);
    assert body[..|m|] == m;
    assert body[|m| + 1..] == s;
    ParseNatToString(seconds / 60);
    ParseNatToString(seconds % 60);
  }

  // ---------------------------------------------------------- element shapes

  /** `Element::new(name).with_text(text)`. */
  function Leaf(name: string, text: string): Element {
    Element(name, None, [], [TextNode(text)])
  }

  /** An element whose one child is `kid`. */
  function Wrap(name: string, kid: Element): Element {
    Element(name, None, [], [ElementNode(kid)])
  }

  /** A `PartyName`/`FullName` or `ReferenceTitle`/`TitleText` pair, with the
      language attribute when the string has a language code. */
  function Localized(wrapper: string, inner: string, s: LocalizedString): Element {
    Element(wrapper, None,
      if s.languageCode.Some? then [("LanguageAndScriptCode", s.languageCode.value)] else [],
      [ElementNode(Leaf(inner, s.text))])
  }

  function PartyNames(names: seq<LocalizedString>): seq<Node> {
    if names == [] then [] else PartyNames(names[..|names| - 1]) + [ElementNode(Localized("PartyName", "FullName", names[|names| - 1]))]
  }

  /** What `generate_party` builds. */
  function PartySpec(elementName: string, party: PartyRequest): Element {
    Element(elementName, None, [],
      PartyNames(party.partyName)
      + (if party.partyId.Some? then [ElementNode(Leaf("PartyId", party.partyId.value))] else []))
  }

  /** The message id: the requested one, or `MSG_` and the UUID. */
  function MessageIdText(header: MessageHeaderRequest, uuid: string): string {
    header.messageId.GetOr("MSG_" + uuid)
  }

  /** What `generate_message_header` builds. */
  function HeaderSpec(header: MessageHeaderRequest, uuid: string, created: string): Element {
    Element("MessageHeader", None, [],
      [ElementNode(Leaf("MessageId", MessageIdText(header, uuid))),
       ElementNode(Leaf("MessageCreatedDateTime", created)),
       ElementNode(PartySpec("MessageSender", header.messageSender)),
       ElementNode(PartySpec("MessageRecipient", header.messageRecipient))]
      + (if header.messageControlType.Some? then [ElementNode(Leaf("MessageControlType", header.messageControlType.value))] else []))
  }

  /** The `SoundRecording` for one track, with resource number `id`. */
  function SoundRecordingSpec(track: TrackRequest, id: nat): Element {
    Element("SoundRecording", None, [],
      [ElementNode(Leaf("ResourceReference", "A" + NatToString(id)))]
      + (if track.isrc.Some? then [ElementNode(Wrap("ResourceId", Leaf("ISRC", track.isrc.value)))] else [])
      + [ElementNode(Wrap("ReferenceTitle", Leaf("TitleText", track.title))),
         ElementNode(Leaf("Duration", DurationText(track.duration)))])
  }

  /** One `SoundRecording` per track, numbered from `c0 + 1`. */
  function SoundRecordings(tracks: seq<TrackRequest>, c0: nat): seq<Node> {
    if tracks == [] then []
    else SoundRecordings(tracks[..|tracks| - 1], c0) + [ElementNode(SoundRecordingSpec(tracks[|tracks| - 1], c0 + |tracks|))]
  }

  /** One more track adds its recording, numbered after the others, at the end. */
  lemma SoundRecordingsStep(tracks: seq<TrackRequest>, t: TrackRequest, c0: nat)
    ensures SoundRecordings(tracks + [t], c0) == SoundRecordings(tracks, c0) + [ElementNode(SoundRecordingSpec(t, c0 + |tracks| + 1))]
  {
    assert (tracks + [t])[..|tracks|] == tracks;
  }

  /** The loop over one release's tracks, one step further. */
  lemma SoundRecordingsNext(done: seq<TrackRequest>, tracks: seq<TrackRequest>, j: nat, c0: nat)
    requires j < |tracks|
    ensures SoundRecordings(done + tracks[..j + 1], c0) ==
            SoundRecordings(done + tracks[..j], c0) + [ElementNode(SoundRecordingSpec(tracks[j], c0 + |done| + j + 1))]
  {
    PrefixSnoc(done, tracks, j);
    SoundRecordingsStep(done + tracks[..j], tracks[j], c0);
  }

  /** What `generate_resource_list` builds when the counter starts at `c0`. */
  function ResourceListSpec(releases: seq<ReleaseRequest>, c0: nat): Element {
    Element("ResourceList", None, [], SoundRecordings(AllTracks(releases), c0))
  }

  function Titles(titles: seq<LocalizedString>): seq<Node> {
    if titles == [] then [] else Titles(titles[..|titles| - 1]) + [ElementNode(Localized("ReferenceTitle", "TitleText", titles[|titles| - 1]))]
  }

  /** The `k`-th entry of a release's resource reference list (from 0). */
  function ResourceRefSpec(k: nat): Element {
    Element("ReleaseResourceReference", None, [],
      [ElementNode(Leaf("SequenceNumber", NatToString(k + 1))),
       ElementNode(Leaf("ReleaseResourceReference", "A" + NatToString(k + 1)))])
  }

  function ResourceRefs(n: nat): seq<Node> {
    if n == 0 then [] else ResourceRefs(n - 1) + [ElementNode(ResourceRefSpec(n - 1))]
  }

  function DisplayArtistSpec(artist: string): Element {
    Wrap("DisplayArtist", Wrap("PartyName", Leaf("FullName", artist)))
  }

  /** The first two children of a release: its reference and its id. */
  function ReleaseHead(release: ReleaseRequest, id: nat): seq<Node> {
    [ElementNode(Leaf("ReleaseReference", "R" + NatToString(id))),
     ElementNode(Wrap("ReleaseId", Leaf("ICPN", release.releaseId)))]
  }

  /** The `Release` element for one release with release number `id`. */
  function ReleaseSpec(release: ReleaseRequest, id: nat): Element {
    Element("Release", None, [],
      ReleaseHead(release, id) + Titles(release.title)
      + [ElementNode(Element("ReleaseResourceReferenceList", None, [], ResourceRefs(|release.tracks|))),
         ElementNode(DisplayArtistSpec(release.artist))])
  }

  function ReleaseElems(releases: seq<ReleaseRequest>, c0: nat): seq<Node> {
    if releases == [] then []
    else ReleaseElems(releases[..|releases| - 1], c0) + [ElementNode(ReleaseSpec(releases[|releases| - 1], c0 + |releases|))]
  }

  /** What `generate_release_list` builds when the counter starts at `c0`. */
  function ReleaseListSpec(releases: seq<ReleaseRequest>, c0: nat): Element {
    Element("ReleaseList", None, [], ReleaseElems(releases, c0))
  }

  function Territories(codes: seq<string>): seq<Node> {
    if codes == [] then [] else Territories(codes[..|codes| - 1]) + [ElementNode(Leaf("TerritoryCode", codes[|codes| - 1]))]
  }

  function ValiditySpec(deal: DealRequest): Element {
    Element("ValidityPeriod", None, [],
      (if deal.startDate.Some? then [ElementNode(Leaf("StartDate", deal.startDate.value))] else [])
      + (if deal.endDate.Some? then [ElementNode(Leaf("EndDate", deal.endDate.value))] else []))
  }

  function DealTermsSpec(deal: DealRequest): Element {
    Element("DealTerms", None, [],
      Territories(deal.territories)
      + (if deal.startDate.Some? || deal.endDate.Some? then [ElementNode(ValiditySpec(deal))] else []))
  }

  /** The `ReleaseDeal` for one deal; its release reference is always `R1`. */
  function DealSpec(deal: DealRequest): Element {
    Element("ReleaseDeal", None, [],
      [ElementNode(Leaf("DealReleaseReference", "R1")), ElementNode(Wrap("Deal", DealTermsSpec(deal)))])
  }

  function DealElems(deals: seq<DealRequest>): seq<Node> {
    if deals == [] then [] else DealElems(deals[..|deals| - 1]) + [ElementNode(DealSpec(deals[|deals| - 1]))]
  }

  function DealListSpec(deals: seq<DealRequest>): Element {
    Element("DealList", None, [], DealElems(deals))
  }

  /** The root's children: header, update indicator, then the resource and
      release lists when there are releases, then the deal list when there
      are deals. */
  function RootChildren(request: BuildRequest, uuid: string, created: string, c0: nat): seq<Node> {
    RootHead(request.header, uuid, created) + ReleaseLists(request.releases, c0) + DealPart(request.deals)
  }

  function RootHead(header: MessageHeaderRequest, uuid: string, created: string): seq<Node> {
    [ElementNode(HeaderSpec(header, uuid, created)), ElementNode(Leaf("UpdateIndicator", "OriginalMessage"))]
  }

  /** The resource list, numbered from `c0 + 1`, and the release list,
      numbered after the tracks; nothing when there are no releases. */
  function ReleaseLists(releases: seq<ReleaseRequest>, c0: nat): seq<Node> {
    if releases != [] then
      [ElementNode(ResourceListSpec(releases, c0)), ElementNode(ReleaseListSpec(releases, c0 + |AllTracks(releases)|))]
    else []
  }

  function DealPart(deals: seq<DealRequest>): seq<Node> {
    if deals != [] then [ElementNode(DealListSpec(deals))] else []
  }

  /** What `generate` returns when the counter starts at `c0`. */
  function GenerateSpec(request: BuildRequest, uuid: string, created: string, c0: nat): Result<Ast, BuildError> {
    match CreateRootElement(request.version)
    case Err(e) => Err(e)
    case Ok(root) =>
      Ok(Ast(root.(children := RootChildren(request, uuid, created, c0)),
             GetNamespaces(request.version), GetSchemaLocation(request.version)))
  }

  /** `generate` fails exactly for an unsupported version, with the root
      element's error; otherwise the tree is the `NewReleaseMessage` root with
      the version's attributes and the children above, the version's
      namespace map and its schema location. */
  lemma GenerateSpecParts(request: BuildRequest, uuid: string, created: string, c0: nat)
    ensures GenerateSpec(request, uuid, created, c0).Ok? <==> IsSupportedVersion(request.version)
    ensures GenerateSpec(request, uuid, created, c0).Err? ==>
      GenerateSpec(request, uuid, created, c0).error == InvalidFormat("version", "Unsupported version: " + request.version)
    ensures GenerateSpec(request, uuid, created, c0).Ok? ==>
      var ast := GenerateSpec(request, uuid, created, c0).value;
      ast.root.name == "NewReleaseMessage" && ast.root.namespace.None?
      && ast.root.attributes == [("MessageSchemaVersionId", "ern/" + request.version), ("LanguageAndScriptCode", "en")]
      && ast.root.children == RootChildren(request, uuid, created, c0)
      && ast.namespaces == GetNamespaces(request.version)
      && ast.schemaLocation == GetSchemaLocation(request.version)
  {
  }

  /** The creation time and, for a request without its own message id, the
      UUID are written into the tree: two generations of a supported request
      that differ in either give different trees. */
  lemma ClockAndUuidReachTree(request: BuildRequest, uuid1: string, uuid2: string,
                              created1: string, created2: string, c0: nat)
    ensures IsSupportedVersion(request.version) && created1 != created2 ==>
      GenerateSpec(request, uuid1, created1, c0) != GenerateSpec(request, uuid1, created2, c0)
    ensures IsSupportedVersion(request.version) && request.header.messageId.None? && uuid1 != uuid2 ==>
      GenerateSpec(request, uuid1, created1, c0) != GenerateSpec(request, uuid2, created1, c0)
  {
    if IsSupportedVersion(request.version) {
      var h := request.header;
      if created1 != created2 {
        assert HeaderSpec(h, uuid1, created1).children[1] != HeaderSpec(h, uuid1, created2).children[1];
        assert RootChildren(request, uuid1, created1, c0)[0] != RootChildren(request, uuid1, created2, c0)[0];
      }
      if h.messageId.None? && uuid1 != uuid2 {
        assert ("MSG_" + uuid1)[4..] == uuid1 && ("MSG_" + uuid2)[4..] == uuid2;
        assert MessageIdText(h, uuid1) != MessageIdText(h, uuid2);
        assert HeaderSpec(h, uuid1, created1).children[0] != HeaderSpec(h, uuid2, created1).children[0];
        assert RootChildren(request, uuid1, created1, c0)[0] != RootChildren(request, uuid2, created1, c0)[0];
      }
    }
  }

  /** The counter after `generate`: one number per track and per release, and
      none when generation fails or there are no releases. */
  function CounterAfter(request: BuildRequest, c0: nat): nat {
    if IsSupportedVersion(request.version) && request.releases != [] then
      c0 + |AllTracks(request.releases)| + |request.releases|
    else c0
  }

  // ---------------------------------------------------------- the generator

  /** `ASTGenerator`: the target version and the shared id counter. */
  class AstGenerator {
    const version: string
    var idCounter: nat

    /** `ASTGenerator::new`: the counter starts at 0. */
    constructor (version: string)
      ensures this.version == version && idCounter == 0
    {
      this.version := version;
      idCounter := 0;
    }

    /** `next_id`: increments the counter and returns the new value. */
    method NextId() returns (id: nat)
      modifies this
      ensures idCounter == old(idCounter) + 1 && id == idCounter
    {
      idCounter := idCounter + 1;
      id := idCounter;
    }

    /** `generate`. */
    method Generate(request: BuildRequest, uuid: string, created: string) returns (r: Result<Ast, BuildError>)
      modifies this
      ensures r == GenerateSpec(request, uuid, created, old(idCounter))
      ensures idCounter == CounterAfter(request, old(idCounter))
    {
      var rootResult := CreateRootElement(request.version);
      if rootResult.Err? {
        return Err(rootResult.error);
      }
      ghost var c0 := idCounter;
      var root := rootResult.value;
      var header := GenerateMessageHeader(request.header, uuid, created);
      root := AddChild(root, header);
      root := AddChild(root, WithText(New("UpdateIndicator"), "OriginalMessage"));
      assert root.children == RootHead(request.header, uuid, created);
      root := AddReleaseLists(root, request.releases);
      root := AddDealList(root, request.deals);
      assert root.children == RootChildren(request, uuid, created, c0);
      var namespaces := GetNamespaces(request.version);
      r := Ok(Ast(root, namespaces, GetSchemaLocation(request.version)));
    }

    /** The two release blocks of `generate`: when there are releases, the
        resource list and then the release list are appended to the root.
        Both blocks are guarded by the same test, so they are one branch here. */
    method AddReleaseLists(root: Element, releases: seq<ReleaseRequest>) returns (r: Element)
      modifies this
      ensures r == root.(children := root.children + ReleaseLists(releases, old(idCounter)))
      ensures idCounter == old(idCounter) + (if releases != [] then |AllTracks(releases)| + |releases| else 0)
    {
      ghost var c0 := idCounter;
      if releases == [] {
        return root;
      }
      var resourceList := GenerateResourceList(releases);
      ghost var c1 := idCounter;
      var releaseList := GenerateReleaseList(releases);
      assert c1 == c0 + |AllTracks(releases)|;
      assert ReleaseLists(releases, c0) == [ElementNode(resourceList), ElementNode(releaseList)];
      r := root.(children := root.children + [ElementNode(resourceList), ElementNode(releaseList)]);
    }

    /** The deal block of `generate`: when there are deals, the deal list is
        appended to the root. */
    method AddDealList(root: Element, deals: seq<DealRequest>) returns (r: Element)
      ensures r == root.(children := root.children + DealPart(deals))
    {
      r := root;
      if deals != [] {
        var dealList := GenerateDealList(deals);
        r := AddChild(r, dealList);
      }
    }

    /** `generate_message_header`; the UUID and the timestamp are parameters. */
    method GenerateMessageHeader(header: MessageHeaderRequest, uuid: string, created: string) returns (e: Element)
      ensures e == HeaderSpec(header, uuid, created)
    {
      e := New("MessageHeader");
      var messageId := header.messageId.GetOr("MSG_" + uuid);
      e := AddChild(e, WithText(New("MessageId"), messageId));
      e := AddChild(e, WithText(New("MessageCreatedDateTime"), created));
      var sender := GenerateParty("MessageSender", header.messageSender);
      e := AddChild(e, sender);
      var recipient := GenerateParty("MessageRecipient", header.messageRecipient);
      e := AddChild(e, recipient);
      if header.messageControlType.Some? {
        e := AddChild(e, WithText(New("MessageControlType"), header.messageControlType.value));
      }
    }

    /** `generate_party`: one `PartyName` per name, then the optional `PartyId`. */
    method GenerateParty(elementName: string, party: PartyRequest) returns (e: Element)
      ensures e == PartySpec(elementName, party)
    {
      e := New(elementName);
      var names := party.partyName;
      var i := 0;
      while i < |names|
        invariant 0 <= i <= |names|
        invariant e.name == elementName && e.namespace.None? && e.attributes == []
        invariant e.children == PartyNames(names[..i])
      {
        assert names[..i + 1][..i] == names[..i];
        var partyName := AddChild(New("PartyName"), WithText(New("FullName"), names[i].text));
        if names[i].languageCode.Some? {
          partyName := partyName.(attributes := IndexMap.Insert(partyName.attributes, "LanguageAndScriptCode", names[i].languageCode.value));
        }
        e := AddChild(e, partyName);
        i := i + 1;
      }
      assert names[..i] == names;
      if party.partyId.Some? {
        e := AddChild(e, WithText(New("PartyId"), party.partyId.value));
      }
    }

    /** `generate_resource_list`: one `SoundRecording` per track of every
        release, each taking the next number. */
    method GenerateResourceList(releases: seq<ReleaseRequest>) returns (e: Element)
      modifies this
      ensures idCounter == old(idCounter) + |AllTracks(releases)|
      ensures e == ResourceListSpec(releases, old(idCounter))
    {
      ghost var c0 := idCounter;
      e := New("ResourceList");
      var i := 0;
      while i < |releases|
        invariant 0 <= i <= |releases|
        invariant idCounter == c0 + |AllTracks(releases[..i])|
        invariant e.name == "ResourceList" && e.namespace.None? && e.attributes == []
        invariant e.children == SoundRecordings(AllTracks(releases[..i]), c0)
      {
        AllTracksStep(releases, i);
        e := AddSoundRecordings(e, c0, AllTracks(releases[..i]), releases[i].tracks);
        i := i + 1;
      }
      assert releases[..i] == releases;
    }

    /** The track loop of `generate_resource_list` for one release: appends a
        `SoundRecording` per track after those of the tracks `done` before it. */
    method AddSoundRecordings(list: Element, ghost c0: nat, ghost done: seq<TrackRequest>, tracks: seq<TrackRequest>)
      returns (e: Element)
      requires list == Element("ResourceList", None, [], SoundRecordings(done, c0))
      requires idCounter == c0 + |done|
      modifies this
      ensures idCounter == old(idCounter) + |tracks|
      ensures e == Element("ResourceList", None, [], SoundRecordings(done + tracks, c0))
    {
      e := list;
      var j := 0;
      assert done + tracks[..0] == done;
      while j < |tracks|
        invariant 0 <= j <= |tracks|
        invariant idCounter == c0 + |done| + j
        invariant e.name == list.name && e.namespace == list.namespace && e.attributes == list.attributes
        invariant e.children == SoundRecordings(done + tracks[..j], c0)
      {
        SoundRecordingsNext(done, tracks, j, c0);
        var recording := GenerateSoundRecording(tracks[j]);
        e := AddChild(e, recording);
        j := j + 1;
      }
      assert tracks[..j] == tracks;
    }

    /** One iteration of the track loop of `generate_resource_list`. */
    method GenerateSoundRecording(track: TrackRequest) returns (e: Element)
      modifies this
      ensures idCounter == old(idCounter) + 1
      ensures e == SoundRecordingSpec(track, idCounter)
    {
      e := New("SoundRecording");
      var id := NextId();
      e := AddChild(e, WithText(New("ResourceReference"), "A" + NatToString(id)));
      if track.isrc.Some? {
        e := AddChild(e, AddChild(New("ResourceId"), WithText(New("ISRC"), track.isrc.value)));
      }
      e := AddChild(e, AddChild(New("ReferenceTitle"), WithText(New("TitleText"), track.title)));
      var duration := "PT" + NatToString(track.duration / 60) + "M" + NatToString(track.duration % 60) + "S";
      e := AddChild(e, WithText(New("Duration"), duration));
    }

    /** The title loop of `generate_release`: one `ReferenceTitle` per
        title, in order, after the children already there. */
    static method AddTitles(release: Element, titles: seq<LocalizedString>) returns (e: Element)
      ensures e == release.(children := release.children + Titles(titles))
    {
      e := release;
      var k := 0;
      while k < |titles|
        invariant 0 <= k <= |titles|
        invariant e.name == release.name && e.namespace == release.namespace && e.attributes == release.attributes
        invariant e.children == release.children + Titles(titles[..k])
      {
        assert titles[..k + 1][..k] == titles[..k];
        var refTitle := AddChild(New("ReferenceTitle"), WithText(New("TitleText"), titles[k].text));
        if titles[k].languageCode.Some? {
          refTitle := refTitle.(attributes := IndexMap.Insert(refTitle.attributes, "LanguageAndScriptCode", titles[k].languageCode.value));
        }
        e := AddChild(e, refTitle);
        k := k + 1;
      }
      assert titles[..k] == titles;
    }

    /** `generate_release_list`: one `Release` per release, each taking the
        next number. */
    method GenerateReleaseList(releases: seq<ReleaseRequest>) returns (e: Element)
      modifies this
      ensures idCounter == old(idCounter) + |releases|
      ensures e == ReleaseListSpec(releases, old(idCounter))
    {
      ghost var c0 := idCounter;
      e := New("ReleaseList");
      var i := 0;
      while i < |releases|
        invariant 0 <= i <= |releases|
        invariant idCounter == c0 + i
        invariant e.name == "ReleaseList" && e.namespace.None? && e.attributes == []
        invariant e.children == ReleaseElems(releases[..i], c0)
      {
        assert releases[..i + 1][..i] == releases[..i];
        var release := GenerateRelease(releases[i]);
        e := AddChild(e, release);
        i := i + 1;
      }
      assert releases[..i] == releases;
    }

    /** One iteration of the loop of `generate_release_list`. */
    method GenerateRelease(release: ReleaseRequest) returns (e: Element)
      modifies this
      ensures idCounter == old(idCounter) + 1
      ensures e == ReleaseSpec(release, idCounter)
    {
      e := New("Release");
      var id := NextId();
      e := AddChild(e, WithText(New("ReleaseReference"), "R" + NatToString(id)));
      e := AddChild(e, AddChild(New("ReleaseId"), WithText(New("ICPN"), release.releaseId)));
      assert e.children == ReleaseHead(release, id);
      e := AddTitles(e, release.title);
      var refList := GenerateResourceRefList(|release.tracks|);
      e := AddChild(e, refList);
      e := AddChild(e, AddChild(New("DisplayArtist"), AddChild(New("PartyName"), WithText(New("FullName"), release.artist))));
    }

    /** The `ReleaseResourceReferenceList` of a release with `n` tracks: entry
        `k` carries sequence number `k + 1` and reference `A{k + 1}`. */
    method GenerateResourceRefList(n: nat) returns (e: Element)
      ensures e == Element("ReleaseResourceReferenceList", None, [], ResourceRefs(n))
    {
      e := New("ReleaseResourceReferenceList");
      var k := 0;
      while k < n
        invariant 0 <= k <= n
        invariant e.name == "ReleaseResourceReferenceList" && e.namespace.None? && e.attributes == []
        invariant e.children == ResourceRefs(k)
      {
        var rrRef := New("ReleaseResourceReference");
        rrRef := AddChild(rrRef, WithText(New("SequenceNumber"), NatToString(k + 1)));
        rrRef := AddChild(rrRef, WithText(New("ReleaseResourceReference"), "A" + NatToString(k + 1)));
        assert rrRef == ResourceRefSpec(k);
        e := AddChild(e, rrRef);
        k := k + 1;
      }
    }

    /** `generate_deal_list`: one `ReleaseDeal` per deal. */
    method GenerateDealList(deals: seq<DealRequest>) returns (e: Element)
      ensures e == DealListSpec(deals)
    {
      e := New("DealList");
      var i := 0;
      while i < |deals|
        invariant 0 <= i <= |deals|
        invariant e.name == "DealList" && e.namespace.None? && e.attributes == []
        invariant e.children == DealElems(deals[..i])
      {
        assert deals[..i + 1][..i] == deals[..i];
        var releaseDeal := GenerateDeal(deals[i]);
        e := AddChild(e, releaseDeal);
        i := i + 1;
      }
      assert deals[..i] == deals;
    }

    /** One iteration of the loop of `generate_deal_list`. */
    method GenerateDeal(deal: DealRequest) returns (e: Element)
      ensures e == DealSpec(deal)
    {
      e := New("ReleaseDeal");
      e := AddChild(e, WithText(New("DealReleaseReference"), "R1"));
      var dealElem := New("Deal");
      var terms := New("DealTerms");
      var codes := deal.territories;
      var i := 0;
      while i < |codes|
        invariant 0 <= i <= |codes|
        invariant terms == Element("DealTerms", None, [], Territories(codes[..i]))
      {
        assert codes[..i + 1][..i] == codes[..i];
        terms := AddChild(terms, WithText(New("TerritoryCode"), codes[i]));
        i := i + 1;
      }
      assert codes[..i] == codes;
      if deal.startDate.Some? || deal.endDate.Some? {
        var validity := New("ValidityPeriod");
        if deal.startDate.Some? {
          validity := AddChild(validity, WithText(New("StartDate"), deal.startDate.value));
        }
        if deal.endDate.Some? {
          validity := AddChild(validity, WithText(New("EndDate"), deal.endDate.value));
        }
        assert validity == ValiditySpec(deal);
        terms := AddChild(terms, validity);
      }
      assert terms == DealTermsSpec(deal);
      dealElem := AddChild(dealElem, terms);
      e := AddChild(e, dealElem);
    }
  }
}
