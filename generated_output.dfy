/** Properties of the tree `generate` builds (ddex-builder `generator/mod.rs`)
    and of how the writer (`generator/xml_writer.rs`) treats it: the order of
    the root's children, the numbering of resource and release references,
    the references that do not resolve, the prefixes the tags get, and the
    agreement of the namespace map with the locked prefix table. */
module GeneratedOutput {
  import opened Util
  import opened Ast
  import IndexMap
  import opened BuildTypes
  import opened Generator
  import XmlWriter
  import Determinism

  // ------------------------------------------------------------ root children

  /** The local names of the element nodes among `nodes`, in order. */
  function ElementNames(nodes: seq<Node>): seq<string> {
    if nodes == [] then []
    else (if nodes[0].ElementNode? then [nodes[0].elem.name] else []) + ElementNames(nodes[1..])
  }

  lemma {:induction false} ElementNamesAppend(a: seq<Node>, b: seq<Node>)
    ensures ElementNames(a + b) == ElementNames(a) + ElementNames(b)
  {
    if a != [] {
      assert (a + b)[0] == a[0];
      assert (a + b)[1..] == a[1..] + b;
      ElementNamesAppend(a[1..], b);
    } else {
      assert a + b == b;
    }
  }

  lemma ElementNamesPair(a: Element, b: Element)
    ensures ElementNames([ElementNode(a), ElementNode(b)]) == [a.name, b.name]
  {
    assert [ElementNode(a), ElementNode(b)][1..] == [ElementNode(b)];
    ElementNamesSingle(b);
  }

  lemma ElementNamesSingle(a: Element)
    ensures ElementNames([ElementNode(a)]) == [a.name]
  {
    assert [ElementNode(a)][1..] == [];
  }

  /** The root's children (what `generate` puts under the root, see
      `Generator.GenerateSpecParts`) are the header and the update indicator,
      then the resource and release lists exactly when there are releases,
      then the deal list exactly when there are deals; all are elements
      without a namespace. */
  lemma RootChildOrder(request: BuildRequest, uuid: string, created: string, c0: nat)
    ensures ElementNames(RootChildren(request, uuid, created, c0)) ==
      ["MessageHeader", "UpdateIndicator"]
      + (if request.releases != [] then ["ResourceList", "ReleaseList"] else [])
      + (if request.deals != [] then ["DealList"] else [])
    ensures RootChildren(request, uuid, created, c0)[1] == ElementNode(Leaf("UpdateIndicator", "OriginalMessage"))
  {
    var head := RootHead(request.header, uuid, created);
    var lists := ReleaseLists(request.releases, c0);
    var deals := DealPart(request.deals);
    ElementNamesAppend(head + lists, deals);
    ElementNamesAppend(head, lists);
    ElementNamesPair(HeaderSpec(request.header, uuid, created), Leaf("UpdateIndicator", "OriginalMessage"));
    if request.releases != [] {
      ElementNamesPair(ResourceListSpec(request.releases, c0), ReleaseListSpec(request.releases, c0 + |AllTracks(request.releases)|));
    }
    if request.deals != [] {
      ElementNamesSingle(DealListSpec(request.deals));
    }
  }

  /** An element node without a namespace: what the generator builds everywhere. */
  predicate Unqualified(n: Node) {
    n.ElementNode? && n.elem.namespace.None?
  }

  /** Every child of the root is an element without a namespace. */
  lemma RootChildUnqualified(request: BuildRequest, uuid: string, created: string, c0: nat, i: nat)
    requires i < |RootChildren(request, uuid, created, c0)|
    ensures Unqualified(RootChildren(request, uuid, created, c0)[i])
  {
    var head := RootHead(request.header, uuid, created);
    var lists := ReleaseLists(request.releases, c0);
    var deals := DealPart(request.deals);
    assert forall n | n in head :: Unqualified(n);
    assert forall n | n in lists :: Unqualified(n);
    assert forall n | n in deals :: Unqualified(n);
    assert RootChildren(request, uuid, created, c0)[i] in head + lists + deals;
  }

  // -------------------------------------------------------------- references

  /** The text of the first child of the first child of an element node: the
      reference a `SoundRecording`, `Release` or `ReleaseDeal` carries. */
  function FirstRef(n: Node): Option<string> {
    if n.ElementNode? && |n.elem.children| > 0 && n.elem.children[0].ElementNode?
      && |n.elem.children[0].elem.children| > 0 && n.elem.children[0].elem.children[0].TextNode?
    then Some(n.elem.children[0].elem.children[0].text)
    else None
  }

  lemma {:induction false} SoundRecordingsLength(tracks: seq<TrackRequest>, c0: nat)
    ensures |SoundRecordings(tracks, c0)| == |tracks|
  {
    if tracks != [] {
      SoundRecordingsLength(tracks[..|tracks| - 1], c0);
    }
  }

  /** The `k`-th recording is built from the `k`-th track and numbered
      `c0 + k + 1`: one recording per track, in track order. */
  lemma {:induction false} SoundRecordingsIndex(tracks: seq<TrackRequest>, c0: nat, k: nat)
    requires k < |tracks|
    ensures |SoundRecordings(tracks, c0)| == |tracks|
    ensures SoundRecordings(tracks, c0)[k] == ElementNode(SoundRecordingSpec(tracks[k], c0 + k + 1))
  {
    var init := tracks[..|tracks| - 1];
    SoundRecordingsLength(init, c0);
    var recs := SoundRecordings(init, c0);
    assert SoundRecordings(tracks, c0) == recs + [ElementNode(SoundRecordingSpec(tracks[|init|], c0 + |tracks|))];
    if k < |init| {
      SoundRecordingsIndex(init, c0, k);
      assert init[k] == tracks[k];
      assert (recs + [ElementNode(SoundRecordingSpec(tracks[|init|], c0 + |tracks|))])[k] == recs[k];
    } else {
      assert k == |init| && c0 + |tracks| == c0 + k + 1;
    }
  }

  /** The first child of a recording is its `ResourceReference`. */
  lemma SoundRecordingFirstRef(track: TrackRequest, id: nat)
    ensures FirstRef(ElementNode(SoundRecordingSpec(track, id))) == Some("A" + NatToString(id))
  {
    assert SoundRecordingSpec(track, id).children[0] == ElementNode(Leaf("ResourceReference", "A" + NatToString(id)));
  }

  lemma SoundRecordingRefAt(tracks: seq<TrackRequest>, c0: nat, k: nat)
    requires k < |tracks|
    ensures |SoundRecordings(tracks, c0)| == |tracks|
    ensures FirstRef(SoundRecordings(tracks, c0)[k]) == Some("A" + NatToString(c0 + k + 1))
  {
    SoundRecordingsIndex(tracks, c0, k);
    SoundRecordingFirstRef(tracks[k], c0 + k + 1);
  }

  /** Different recordings carry different resource references. */
  lemma ResourceReferencesDistinct(tracks: seq<TrackRequest>, c0: nat, i: nat, j: nat)
    requires i < j < |tracks|
    ensures |SoundRecordings(tracks, c0)| == |tracks|
    ensures FirstRef(SoundRecordings(tracks, c0)[i]) != FirstRef(SoundRecordings(tracks, c0)[j])
  {
    SoundRecordingRefAt(tracks, c0, i);
    SoundRecordingRefAt(tracks, c0, j);
    TaggedNumberIff("A", c0 + i + 1, c0 + j + 1);
  }

  /** The tracks of the first `n` releases come first in the flattened list. */
  lemma {:induction false} AllTracksPrefix(releases: seq<ReleaseRequest>, n: nat)
    requires n <= |releases|
    ensures AllTracks(releases[..n]) <= AllTracks(releases)
    decreases |releases|
  {
    if n < |releases| {
      var init := releases[..|releases| - 1];
      AllTracksPrefix(init, n);
      assert init[..n] == releases[..n];
    } else {
      assert releases[..n] == releases;
    }
  }

  /** Track `k` of release `i` sits in the flattened list after the tracks of
      the releases before it. */
  lemma AllTracksIndex(releases: seq<ReleaseRequest>, i: nat, k: nat)
    requires i < |releases| && k < |releases[i].tracks|
    ensures |AllTracks(releases[..i])| + k < |AllTracks(releases)|
    ensures AllTracks(releases)[|AllTracks(releases[..i])| + k] == releases[i].tracks[k]
  {
    AllTracksStep(releases, i);
    AllTracksPrefix(releases, i + 1);
    var before := AllTracks(releases[..i]);
    assert AllTracks(releases[..i + 1])[|before| + k] == releases[i].tracks[k];
  }

  /** A release's resource reference list numbers its entries from 1 in
      track order: entry `k` has sequence number `k + 1` and points at `A{k + 1}`. */
  lemma {:induction false} ResourceRefsIndex(n: nat, k: nat)
    requires k < n
    ensures |ResourceRefs(n)| == n
    ensures ResourceRefs(n)[k] == ElementNode(ResourceRefSpec(k))
    ensures FirstRef(ResourceRefs(n)[k]) == Some(NatToString(k + 1))
    ensures ResourceRefSpec(k).children[1] == ElementNode(Leaf("ReleaseResourceReference", "A" + NatToString(k + 1)))
  {
    ResourceRefsLength(n - 1);
    if k < n - 1 {
      ResourceRefsIndex(n - 1, k);
    }
  }

  lemma {:induction false} ResourceRefsLength(n: nat)
    ensures |ResourceRefs(n)| == n
  {
    if n > 0 {
      ResourceRefsLength(n - 1);
    }
  }

  /** Release-internal references restart at `A1` in every release, while the
      recordings are numbered across all releases: entry `k` of release `i`
      names the recording of that very track exactly when no track or
      earlier number precedes the release. */
  lemma ReleaseRefMatchesRecordingIff(releases: seq<ReleaseRequest>, c0: nat, i: nat, k: nat)
    requires i < |releases| && k < |releases[i].tracks|
    ensures |AllTracks(releases[..i])| + k < |SoundRecordings(AllTracks(releases), c0)|
    ensures SoundRecordings(AllTracks(releases), c0)[|AllTracks(releases[..i])| + k]
      == ElementNode(SoundRecordingSpec(releases[i].tracks[k], c0 + |AllTracks(releases[..i])| + k + 1))
    ensures "A" + NatToString(k + 1) == "A" + NatToString(c0 + |AllTracks(releases[..i])| + k + 1)
      <==> c0 + |AllTracks(releases[..i])| == 0
  {
    var before := |AllTracks(releases[..i])|;
    AllTracksIndex(releases, i, k);
    SoundRecordingsIndex(AllTracks(releases), c0, before + k);
    TaggedNumberIff("A", k + 1, c0 + before + k + 1);
  }

  lemma {:induction false} ReleaseElemsLength(releases: seq<ReleaseRequest>, c0: nat)
    ensures |ReleaseElems(releases, c0)| == |releases|
  {
    if releases != [] {
      ReleaseElemsLength(releases[..|releases| - 1], c0);
    }
  }

  /** Release `i` is numbered `R{c0 + i + 1}`. */
  lemma {:induction false} ReleaseElemsIndex(releases: seq<ReleaseRequest>, c0: nat, i: nat)
    requires i < |releases|
    ensures |ReleaseElems(releases, c0)| == |releases|
    ensures ReleaseElems(releases, c0)[i] == ElementNode(ReleaseSpec(releases[i], c0 + i + 1))
  {
    var init := releases[..|releases| - 1];
    ReleaseElemsLength(init, c0);
    var elems := ReleaseElems(init, c0);
    assert ReleaseElems(releases, c0) == elems + [ElementNode(ReleaseSpec(releases[|init|], c0 + |releases|))];
    if i < |init| {
      ReleaseElemsIndex(init, c0, i);
      assert init[i] == releases[i];
      assert (elems + [ElementNode(ReleaseSpec(releases[|init|], c0 + |releases|))])[i] == elems[i];
    } else {
      assert i == |init| && c0 + |releases| == c0 + i + 1;
    }
  }

  lemma ReleaseRefAt(releases: seq<ReleaseRequest>, c0: nat, i: nat)
    requires i < |releases|
    ensures |ReleaseElems(releases, c0)| == |releases|
    ensures FirstRef(ReleaseElems(releases, c0)[i]) == Some("R" + NatToString(c0 + i + 1))
  {
    ReleaseElemsIndex(releases, c0, i);
    ReleaseFirstRef(releases[i], c0 + i + 1);
  }

  /** The first child of a release is its `ReleaseReference`. */
  lemma ReleaseFirstRef(release: ReleaseRequest, id: nat)
    ensures FirstRef(ElementNode(ReleaseSpec(release, id))) == Some("R" + NatToString(id))
  {
    assert ReleaseSpec(release, id).children[0] == ElementNode(Leaf("ReleaseReference", "R" + NatToString(id)));
  }

  lemma {:induction false} DealElemsLength(deals: seq<DealRequest>)
    ensures |DealElems(deals)| == |deals|
  {
    if deals != [] {
      DealElemsLength(deals[..|deals| - 1]);
    }
  }

  /** Every deal points at release `R1`, whatever the releases. */
  lemma {:induction false} DealElemsIndex(deals: seq<DealRequest>, d: nat)
    requires d < |deals|
    ensures |DealElems(deals)| == |deals|
    ensures DealElems(deals)[d] == ElementNode(DealSpec(deals[d]))
  {
    var init := deals[..|deals| - 1];
    DealElemsLength(init);
    var elems := DealElems(init);
    assert DealElems(deals) == elems + [ElementNode(DealSpec(deals[|init|]))];
    if d < |init| {
      DealElemsIndex(init, d);
      assert init[d] == deals[d];
      assert (elems + [ElementNode(DealSpec(deals[|init|]))])[d] == elems[d];
    }
  }

  lemma DealRefAt(deals: seq<DealRequest>, d: nat)
    requires d < |deals|
    ensures |DealElems(deals)| == |deals|
    ensures FirstRef(DealElems(deals)[d]) == Some("R1")
  {
    DealElemsIndex(deals, d);
    assert DealSpec(deals[d]).children[0] == ElementNode(Leaf("DealReleaseReference", "R1"));
  }

  /** A deal's release reference equals the reference of release `i` of a
      release list numbered from `c` exactly when `c + i = 0`. Under the root
      the release list is numbered after the tracks (`RootChildrenFull`), so
      with the counter at 0 and at least one track every deal points at a
      release that does not exist. */
  lemma DealReferenceResolvesIff(releases: seq<ReleaseRequest>, deals: seq<DealRequest>, c: nat, i: nat, d: nat)
    requires i < |releases| && d < |deals|
    ensures |ReleaseListSpec(releases, c).children| == |releases|
    ensures |DealListSpec(deals).children| == |deals|
    ensures FirstRef(ReleaseListSpec(releases, c).children[i]) == FirstRef(DealListSpec(deals).children[d])
      <==> c + i == 0
  {
    ReleaseRefAt(releases, c, i);
    DealRefAt(deals, d);
    ReleaseRefIsR1Iff(c + i);
  }

  /** With releases and deals, the root has all five children, the release
      list numbered after the tracks and the deal list last. */
  lemma RootChildrenFull(request: BuildRequest, uuid: string, created: string, c0: nat)
    requires request.releases != [] && request.deals != []
    ensures var kids := RootChildren(request, uuid, created, c0);
      |kids| == 5
      && kids[2] == ElementNode(ResourceListSpec(request.releases, c0))
      && kids[3] == ElementNode(ReleaseListSpec(request.releases, c0 + |AllTracks(request.releases)|))
      && kids[4] == ElementNode(DealListSpec(request.deals))
  {
  }

  /** `R{n + 1}` is `R1` only for `n = 0`. */
  lemma ReleaseRefIsR1Iff(n: nat)
    ensures "R" + NatToString(n + 1) == "R1" <==> n == 0
  {
    assert NatToString(1) == "1";
    assert "R1" == "R" + NatToString(1);
    if "R" + NatToString(n + 1) == "R" + NatToString(1) {
      TaggedNumberInjective("R", n + 1, 1);
    }
  }

  // ---------------------------------------------------------------- writable

  /** Every node is one the writer has an arm for, and nested elements are
      writable in turn. */
  predicate AllWritable(nodes: seq<Node>) {
    forall i :: 0 <= i < |nodes| ==>
      !nodes[i].SimpleCommentNode? && (nodes[i].ElementNode? ==> XmlWriter.Writable(nodes[i].elem))
  }

  lemma AllWritableAppend(a: seq<Node>, b: seq<Node>)
    requires AllWritable(a) && AllWritable(b)
    ensures AllWritable(a + b)
  {
    forall i | 0 <= i < |a + b|
      ensures !(a + b)[i].SimpleCommentNode? && ((a + b)[i].ElementNode? ==> XmlWriter.Writable((a + b)[i].elem))
    {
      if i >= |a| { assert (a + b)[i] == b[i - |a|]; }
    }
  }

  lemma WritableOf(e: Element)
    requires AllWritable(e.children)
    ensures XmlWriter.Writable(e)
  {
  }

  lemma WritableLeaf(name: string, text: string)
    ensures XmlWriter.Writable(Leaf(name, text))
  {
  }

  lemma WritableWrap(name: string, kid: Element)
    requires XmlWriter.Writable(kid)
    ensures XmlWriter.Writable(Wrap(name, kid))
  {
    assert AllWritable([ElementNode(kid)]);
    WritableOf(Wrap(name, kid));
  }

  lemma WritableLocalized(wrapper: string, inner: string, s: LocalizedString)
    ensures XmlWriter.Writable(Localized(wrapper, inner, s))
  {
    WritableLeaf(inner, s.text);
    assert AllWritable([ElementNode(Leaf(inner, s.text))]);
    WritableOf(Localized(wrapper, inner, s));
  }

  lemma {:induction false} WritablePartyNames(names: seq<LocalizedString>)
    ensures AllWritable(PartyNames(names))
  {
    if names != [] {
      WritablePartyNames(names[..|names| - 1]);
      WritableLocalized("PartyName", "FullName", names[|names| - 1]);
      AllWritableAppend(PartyNames(names[..|names| - 1]), [ElementNode(Localized("PartyName", "FullName", names[|names| - 1]))]);
    }
  }

  lemma WritableParty(elementName: string, party: PartyRequest)
    ensures XmlWriter.Writable(PartySpec(elementName, party))
  {
    WritablePartyNames(party.partyName);
    if party.partyId.Some? {
      WritableLeaf("PartyId", party.partyId.value);
    }
    var tail := if party.partyId.Some? then [ElementNode(Leaf("PartyId", party.partyId.value))] else [];
    assert AllWritable(tail);
    AllWritableAppend(PartyNames(party.partyName), tail);
    WritableOf(PartySpec(elementName, party));
  }

  lemma WritableHeader(header: MessageHeaderRequest, uuid: string, created: string)
    ensures XmlWriter.Writable(HeaderSpec(header, uuid, created))
  {
    WritableLeaf("MessageId", MessageIdText(header, uuid));
    WritableLeaf("MessageCreatedDateTime", created);
    WritableParty("MessageSender", header.messageSender);
    WritableParty("MessageRecipient", header.messageRecipient);
    if header.messageControlType.Some? {
      WritableLeaf("MessageControlType", header.messageControlType.value);
    }
    WritableOf(HeaderSpec(header, uuid, created));
  }

  lemma WritableSoundRecording(track: TrackRequest, id: nat)
    ensures XmlWriter.Writable(SoundRecordingSpec(track, id))
  {
    WritableLeaf("ResourceReference", "A" + NatToString(id));
    if track.isrc.Some? {
      WritableLeaf("ISRC", track.isrc.value);
      WritableWrap("ResourceId", Leaf("ISRC", track.isrc.value));
    }
    WritableLeaf("TitleText", track.title);
    WritableWrap("ReferenceTitle", Leaf("TitleText", track.title));
    WritableLeaf("Duration", DurationText(track.duration));
    WritableOf(SoundRecordingSpec(track, id));
  }

  lemma {:induction false} WritableSoundRecordings(tracks: seq<TrackRequest>, c0: nat)
    ensures AllWritable(SoundRecordings(tracks, c0))
  {
    if tracks != [] {
      WritableSoundRecordings(tracks[..|tracks| - 1], c0);
      WritableSoundRecording(tracks[|tracks| - 1], c0 + |tracks|);
      AllWritableAppend(SoundRecordings(tracks[..|tracks| - 1], c0),
        [ElementNode(SoundRecordingSpec(tracks[|tracks| - 1], c0 + |tracks|))]);
    }
  }

  lemma {:induction false} WritableTitles(titles: seq<LocalizedString>)
    ensures AllWritable(Titles(titles))
  {
    if titles != [] {
      WritableTitles(titles[..|titles| - 1]);
      WritableLocalized("ReferenceTitle", "TitleText", titles[|titles| - 1]);
      AllWritableAppend(Titles(titles[..|titles| - 1]), [ElementNode(Localized("ReferenceTitle", "TitleText", titles[|titles| - 1]))]);
    }
  }

  lemma {:induction false} WritableResourceRefs(n: nat)
    ensures AllWritable(ResourceRefs(n))
  {
    if n > 0 {
      WritableResourceRefs(n - 1);
      WritableLeaf("SequenceNumber", NatToString(n));
      WritableLeaf("ReleaseResourceReference", "A" + NatToString(n));
      WritableOf(ResourceRefSpec(n - 1));
      AllWritableAppend(ResourceRefs(n - 1), [ElementNode(ResourceRefSpec(n - 1))]);
    }
  }

  lemma WritableRelease(release: ReleaseRequest, id: nat)
    ensures XmlWriter.Writable(ReleaseSpec(release, id))
  {
    WritableLeaf("ReleaseReference", "R" + NatToString(id));
    WritableLeaf("ICPN", release.releaseId);
    WritableWrap("ReleaseId", Leaf("ICPN", release.releaseId));
    assert AllWritable(ReleaseHead(release, id));
    WritableTitles(release.title);
    WritableResourceRefs(|release.tracks|);
    var refList := Element("ReleaseResourceReferenceList", None, [], ResourceRefs(|release.tracks|));
    WritableOf(refList);
    WritableLeaf("FullName", release.artist);
    WritableWrap("PartyName", Leaf("FullName", release.artist));
    WritableWrap("DisplayArtist", Wrap("PartyName", Leaf("FullName", release.artist)));
    var tail := [ElementNode(refList), ElementNode(DisplayArtistSpec(release.artist))];
    assert AllWritable(tail);
    AllWritableAppend(ReleaseHead(release, id), Titles(release.title));
    AllWritableAppend(ReleaseHead(release, id) + Titles(release.title), tail);
    WritableOf(ReleaseSpec(release, id));
  }

  lemma {:induction false} WritableReleaseElems(releases: seq<ReleaseRequest>, c0: nat)
    ensures AllWritable(ReleaseElems(releases, c0))
  {
    if releases != [] {
      WritableReleaseElems(releases[..|releases| - 1], c0);
      WritableRelease(releases[|releases| - 1], c0 + |releases|);
      AllWritableAppend(ReleaseElems(releases[..|releases| - 1], c0),
        [ElementNode(ReleaseSpec(releases[|releases| - 1], c0 + |releases|))]);
    }
  }

  lemma {:induction false} WritableTerritories(codes: seq<string>)
    ensures AllWritable(Territories(codes))
  {
    if codes != [] {
      WritableTerritories(codes[..|codes| - 1]);
      WritableLeaf("TerritoryCode", codes[|codes| - 1]);
      AllWritableAppend(Territories(codes[..|codes| - 1]), [ElementNode(Leaf("TerritoryCode", codes[|codes| - 1]))]);
    }
  }

  lemma WritableDeal(deal: DealRequest)
    ensures XmlWriter.Writable(DealSpec(deal))
  {
    if deal.startDate.Some? {
      WritableLeaf("StartDate", deal.startDate.value);
    }
    if deal.endDate.Some? {
      WritableLeaf("EndDate", deal.endDate.value);
    }
    var starts := if deal.startDate.Some? then [ElementNode(Leaf("StartDate", deal.startDate.value))] else [];
    var ends := if deal.endDate.Some? then [ElementNode(Leaf("EndDate", deal.endDate.value))] else [];
    assert AllWritable(starts) && AllWritable(ends);
    AllWritableAppend(starts, ends);
    WritableOf(ValiditySpec(deal));
    WritableTerritories(deal.territories);
    var validity := if deal.startDate.Some? || deal.endDate.Some? then [ElementNode(ValiditySpec(deal))] else [];
    assert AllWritable(validity);
    AllWritableAppend(Territories(deal.territories), validity);
    WritableOf(DealTermsSpec(deal));
    WritableWrap("Deal", DealTermsSpec(deal));
    WritableLeaf("DealReleaseReference", "R1");
    WritableOf(DealSpec(deal));
  }

  lemma {:induction false} WritableDealElems(deals: seq<DealRequest>)
    ensures AllWritable(DealElems(deals))
  {
    if deals != [] {
      WritableDealElems(deals[..|deals| - 1]);
      WritableDeal(deals[|deals| - 1]);
      AllWritableAppend(DealElems(deals[..|deals| - 1]), [ElementNode(DealSpec(deals[|deals| - 1]))]);
    }
  }

  /** The generator never builds a node the writer has no arm for: every
      generated tree can be written. */
  lemma GeneratedTreeWritable(request: BuildRequest, uuid: string, created: string, c0: nat, ast: Ast)
    requires GenerateSpec(request, uuid, created, c0) == Ok(ast)
    ensures XmlWriter.Writable(ast.root)
  {
    GenerateSpecParts(request, uuid, created, c0);
    WritableRootChildren(request, uuid, created, c0);
    WritableOf(ast.root);
  }

  lemma WritableRootChildren(request: BuildRequest, uuid: string, created: string, c0: nat)
    ensures AllWritable(RootChildren(request, uuid, created, c0))
  {
    WritableHeader(request.header, uuid, created);
    WritableLeaf("UpdateIndicator", "OriginalMessage");
    var head := RootHead(request.header, uuid, created);
    assert AllWritable(head);
    var lists := ReleaseLists(request.releases, c0);
    if request.releases != [] {
      WritableSoundRecordings(AllTracks(request.releases), c0);
      WritableOf(ResourceListSpec(request.releases, c0));
      WritableReleaseElems(request.releases, c0 + |AllTracks(request.releases)|);
      WritableOf(ReleaseListSpec(request.releases, c0 + |AllTracks(request.releases)|));
    }
    assert AllWritable(lists);
    if request.deals != [] {
      WritableDealElems(request.deals);
      WritableOf(DealListSpec(request.deals));
    }
    assert AllWritable(DealPart(request.deals));
    AllWritableAppend(head, lists);
    AllWritableAppend(head + lists, DealPart(request.deals));
  }

  // ---------------------------------------------------------------- prefixes

  /** The generated root opens and closes as `ern:NewReleaseMessage`, but
      every child of the root opens without a prefix and closes with `ern:`. */
  lemma GeneratedTagPrefixes(request: BuildRequest, uuid: string, created: string, c0: nat, ast: Ast, i: nat)
    requires GenerateSpec(request, uuid, created, c0) == Ok(ast)
    requires i < |ast.root.children|
    ensures ast.root.name == "NewReleaseMessage"
    ensures XmlWriter.QName(XmlWriter.StartPrefix(ast.root, ast.namespaces, 0), ast.root.name) == "ern:" + ast.root.name
    ensures XmlWriter.ElementName(ast.root, ast.namespaces) == "ern:" + ast.root.name
    ensures Unqualified(ast.root.children[i])
    ensures XmlWriter.QName(XmlWriter.StartPrefix(ast.root.children[i].elem, ast.namespaces, 1), ast.root.children[i].elem.name)
      == ast.root.children[i].elem.name
    ensures XmlWriter.ElementName(ast.root.children[i].elem, ast.namespaces) == "ern:" + ast.root.children[i].elem.name
  {
    GenerateSpecParts(request, uuid, created, c0);
    GetNamespacesTable(request.version);
    RootChildUnqualified(request, uuid, created, c0, i);
    UnqualifiedTagNames(ast.root, ast.namespaces, 0);
    UnqualifiedTagNames(ast.root.children[i].elem, ast.namespaces, 1);
  }

  /** Under a map whose first prefix is `ern`, an element without a namespace
      closes with `ern:` at every depth and opens with it only at depth 0. */
  lemma UnqualifiedTagNames(e: Element, ns: IndexMap.Entries<string, string>, depth: nat)
    requires e.namespace.None? && |ns| > 0 && ns[0].0 == "ern"
    ensures XmlWriter.ElementName(e, ns) == "ern:" + e.name
    ensures XmlWriter.QName(XmlWriter.StartPrefix(e, ns, depth), e.name) == if depth == 0 then "ern:" + e.name else e.name
  {
    assert "ern" + ":" + e.name == "ern:" + e.name;
  }

  /** Each URI of the generated namespace map is bound, in the default locked
      prefix table, to the prefix the map gives it. */
  lemma NamespacesAgreeWithLockedPrefixes(version: string, i: nat)
    requires i < |GetNamespaces(version)|
    ensures IndexMap.Get(Determinism.DefaultNamespacePrefixes(), GetNamespaces(version)[i].1)
      == Some(GetNamespaces(version)[i].0)
  {
    GetNamespacesTable(version);
    if i == 0 {
      VersionUriLocked(version);
    } else {
      Determinism.DefaultPrefixLookups();
    }
  }

  /** The URI of every supported version is locked to the prefix `ern`. */
  lemma VersionUriLocked(version: string)
    requires IsSupportedVersion(version)
    ensures IndexMap.Get(Determinism.DefaultNamespacePrefixes(), VersionUri(version)) == Some("ern")
  {
    Determinism.DefaultPrefixLookups();
  }
}
