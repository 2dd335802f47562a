/** The DB-C14N/1.0 canonicaliser (ddex-builder `canonical/mod.rs`): the
    fixed declaration, the hash over the canonical text, and the ERN 4.3 rule
    tables (locked prefixes and the canonical order of header and release
    children). Parsing, the rewrite of the document and its serialisation are
    not implemented in the crate; here they are one parameter, `stages`, and
    SHA-256 with its lowercase hex rendering is the parameter `digest`. */
module Canonical {
  import opened Util
  import opened Ast
  import IndexMap
  import opened BuildTypes
  import Determinism
  import Generator
  import GeneratedOutput

  /** `rules::XML_DECLARATION`. */
  const XML_DECLARATION := "<?xml version=\"1.0\" encoding=\"UTF-8\"?>"

  /** `DB_C14N_VERSION` (ddex-builder `lib.rs`). */
  const DB_C14N_VERSION := "1.0"

  /** Parse, canonicalise and serialise, as one step that may fail. */
  type Stages = string -> Result<string, BuildError>

  /** SHA-256 of the text's bytes, rendered as lowercase hex. */
  type Digest = string -> string

  /** What `canonicalize` returns: the declaration, a line feed and the
      serialised canonical document, or the error of the first failing stage. */
  function CanonicalizeSpec(xml: string, stages: Stages): Result<string, BuildError> {
    match stages(xml)
    case Err(e) => Err(e)
    case Ok(body) => Ok(XML_DECLARATION + "\n" + body)
  }

  /** Canonicalisation succeeds exactly when the stages do, and its output is
      the declaration line followed by what they produce. */
  lemma CanonicalForm(xml: string, stages: Stages)
    ensures CanonicalizeSpec(xml, stages).Ok? <==> stages(xml).Ok?
    ensures CanonicalizeSpec(xml, stages).Err? ==> CanonicalizeSpec(xml, stages).error == stages(xml).error
    ensures CanonicalizeSpec(xml, stages).Ok? ==>
      StartsWith(CanonicalizeSpec(xml, stages).value, XML_DECLARATION + "\n")
      && CanonicalizeSpec(xml, stages).value[|XML_DECLARATION| + 1..] == stages(xml).value
  {
    if stages(xml).Ok? {
      var c := XML_DECLARATION + "\n" + stages(xml).value;
      assert c[..|XML_DECLARATION| + 1] == XML_DECLARATION + "\n";
    }
  }

  /** What `canonical_hash` returns: the digest of the canonical form of its
      argument. */
  function CanonicalHashSpec(xml: string, stages: Stages, digest: Digest): Result<string, BuildError> {
    match CanonicalizeSpec(xml, stages)
    case Err(e) => Err(e)
    case Ok(c) => Ok(digest(c))
  }

  /** The hash depends on its argument only through the canonical form: two
      texts with the same canonical form hash alike, whatever else differs. */
  lemma HashOfCanonicalForm(x: string, y: string, stages: Stages, digest: Digest)
    requires CanonicalizeSpec(x, stages) == CanonicalizeSpec(y, stages)
    ensures CanonicalHashSpec(x, stages, digest) == CanonicalHashSpec(y, stages, digest)
    ensures CanonicalHashSpec(x, stages, digest).Ok? <==> stages(x).Ok?
  {
  }

  /** `DB_C14N`: the canonicaliser holds the configuration it was made with. */
  class Canonicalizer {
    const config: Determinism.DeterminismConfig

    constructor (config: Determinism.DeterminismConfig)
      ensures this.config == config
    {
      this.config := config;
    }

    /** `canonicalize`: pushes the declaration and a line feed, then the
        serialised canonical document. */
    method Canonicalize(xml: string, stages: Stages) returns (r: Result<string, BuildError>)
      ensures r == CanonicalizeSpec(xml, stages)
    {
      var canonical := "";
      canonical := canonical + XML_DECLARATION;
      canonical := canonical + "\n";
      assert canonical == XML_DECLARATION + "\n";
      var body := stages(xml);
      if body.Err? {
        return Err(body.error);
      }
      canonical := canonical + body.value;
      r := Ok(canonical);
    }

    /** `canonical_hash`: canonicalises its argument, then digests it. */
    method CanonicalHash(xml: string, stages: Stages, digest: Digest) returns (r: Result<string, BuildError>)
      ensures r == CanonicalHashSpec(xml, stages, digest)
    {
      var canonical := Canonicalize(xml, stages);
      if canonical.Err? {
        return Err(canonical.error);
      }
      r := Ok(digest(canonical.value));
    }
  }

  // ------------------------------------------------------------ rule tables

  /** `rules::ern_43_prefixes`, built by three inserts. */
  function Ern43Prefixes(): IndexMap.Entries<string, string> {
    IndexMap.FromEntries([
      (Determinism.ERN_43_URI, "ern"),
      (Determinism.AVS_URI, "avs"),
      (Determinism.XSI_URI, "xsi")])
  }

  /** The ERN 4.3 prefix table holds three URIs, once each, and binds each to
      the prefix the default locked table of the determinism configuration
      gives it. */
  lemma Ern43PrefixesTable()
    ensures Ern43Prefixes() == [(Determinism.ERN_43_URI, "ern"), (Determinism.AVS_URI, "avs"), (Determinism.XSI_URI, "xsi")]
    ensures IndexMap.DistinctKeys(Ern43Prefixes())
  {
    var entries := [(Determinism.ERN_43_URI, "ern"), (Determinism.AVS_URI, "avs"), (Determinism.XSI_URI, "xsi")];
    assert IndexMap.DistinctKeys(entries) by {
      assert |Determinism.ERN_43_URI| == 26 && |Determinism.AVS_URI| == 23 && |Determinism.XSI_URI| == 41;
    }
    IndexMap.FromDistinctEntries(entries);
  }

  /** Each entry of the ERN 4.3 prefix table agrees with the default locked
      table of the determinism configuration. */
  lemma Ern43PrefixesAgree(i: nat)
    requires i < 3
    ensures |Ern43Prefixes()| == 3
    ensures IndexMap.Get(Determinism.DefaultNamespacePrefixes(), Ern43Prefixes()[i].0) == Some(Ern43Prefixes()[i].1)
  {
    Ern43PrefixesTable();
    Determinism.DefaultPrefixLookups();
  }

  /** The canonical order of `MessageHeader` children. */
  const MESSAGE_HEADER_ORDER: seq<string> := [
    "MessageId", "MessageType", "MessageCreatedDateTime", "MessageSender",
    "MessageRecipient", "MessageControlType", "MessageAuditTrail"]

  /** The canonical order of `Release` children. */
  const RELEASE_ORDER: seq<string> := [
    "ReleaseReference", "ReleaseId", "ReferenceTitle", "ReleaseResourceReferenceList",
    "ReleaseDetailsByTerritory"]

  /** `rules::ern_43_element_order`, built by two inserts. */
  function Ern43ElementOrder(): IndexMap.Entries<string, seq<string>> {
    IndexMap.FromEntries([("MessageHeader", MESSAGE_HEADER_ORDER), ("Release", RELEASE_ORDER)])
  }

  predicate NoDuplicates(names: seq<string>) {
    forall i, j :: 0 <= i < j < |names| ==> names[i] != names[j]
  }

  /** The order table has the header and release entries, in that order; the
      header order lists seven names and the release order five, each name
      once. */
  lemma Ern43ElementOrderTable()
    ensures Ern43ElementOrder() == [("MessageHeader", MESSAGE_HEADER_ORDER), ("Release", RELEASE_ORDER)]
    ensures |MESSAGE_HEADER_ORDER| == 7 && NoDuplicates(MESSAGE_HEADER_ORDER)
    ensures |RELEASE_ORDER| == 5 && NoDuplicates(RELEASE_ORDER)
  {
    var entries := [("MessageHeader", MESSAGE_HEADER_ORDER), ("Release", RELEASE_ORDER)];
    assert IndexMap.DistinctKeys(entries) by {
      assert "MessageHeader"[0] != "Release"[0];
    }
    IndexMap.FromDistinctEntries(entries);
    HeaderOrderListed();
    ReleaseOrderListed();
  }

  lemma HeaderOrderListed()
    ensures |MESSAGE_HEADER_ORDER| == 7 && NoDuplicates(MESSAGE_HEADER_ORDER)
  {
    // Every name in the list has a length of its own.
    assert forall i, j :: 0 <= i < j < |MESSAGE_HEADER_ORDER| ==> |MESSAGE_HEADER_ORDER[i]| != |MESSAGE_HEADER_ORDER[j]|;
  }

  lemma ReleaseOrderListed()
    ensures |RELEASE_ORDER| == 5 && NoDuplicates(RELEASE_ORDER)
  {
    assert forall i, j :: 0 <= i < j < |RELEASE_ORDER| ==> |RELEASE_ORDER[i]| != |RELEASE_ORDER[j]|;
  }

  // -------------------------------------------------- generator against rules

  /** Where `name` stands in `order`; `|order|` when it is not listed. */
  function Position(order: seq<string>, name: string): (r: nat)
    ensures r <= |order|
    ensures r < |order| <==> name in order
    ensures r < |order| ==> order[r] == name
  {
    if order == [] then 0
    else if order[0] == name then 0
    else 1 + Position(order[1..], name)
  }

  /** In a list without duplicates, the name at index `k` stands at `k`. */
  lemma {:induction false} PositionAt(order: seq<string>, k: nat)
    requires NoDuplicates(order) && k < |order|
    ensures Position(order, order[k]) == k
  {
    if k > 0 {
      assert order[k] == order[1..][k - 1];
      PositionAt(order[1..], k - 1);
    }
  }

  /** Every name is listed in `order`, none before `floor`, and each at or
      after the one before it. */
  predicate FollowsOrderFrom(names: seq<string>, order: seq<string>, floor: nat) {
    names == [] ||
    (names[0] in order && floor <= Position(order, names[0])
     && FollowsOrderFrom(names[1..], order, Position(order, names[0])))
  }

  /** The names appear in the relative order `order` gives them. */
  predicate FollowsOrder(names: seq<string>, order: seq<string>) {
    FollowsOrderFrom(names, order, 0)
  }

  /** What following an order means: every name is listed and, between any
      two positions, the earlier name is not listed after the later one. */
  lemma {:induction false} FollowsOrderMeaning(names: seq<string>, order: seq<string>, floor: nat)
    requires FollowsOrderFrom(names, order, floor)
    ensures forall i :: 0 <= i < |names| ==> names[i] in order && floor <= Position(order, names[i])
    ensures forall i, j :: 0 <= i < j < |names| ==> Position(order, names[i]) <= Position(order, names[j])
  {
    if names != [] {
      var p := Position(order, names[0]);
      FollowsOrderMeaning(names[1..], order, p);
      forall i | 0 <= i < |names| ensures names[i] in order && floor <= Position(order, names[i]) {
        if i > 0 { assert names[i] == names[1..][i - 1]; }
      }
      forall i, j | 0 <= i < j < |names| ensures Position(order, names[i]) <= Position(order, names[j]) {
        assert names[j] == names[1..][j - 1];
        if i > 0 { assert names[i] == names[1..][i - 1]; }
      }
    }
  }

  lemma FollowsOrderCons(name: string, rest: seq<string>, order: seq<string>, floor: nat)
    requires name in order && floor <= Position(order, name)
    requires FollowsOrderFrom(rest, order, Position(order, name))
    ensures FollowsOrderFrom([name] + rest, order, floor)
  {
    assert ([name] + rest)[1..] == rest;
  }

  /** The rank of the last name, or `floor` for none. */
  function LastRank(names: seq<string>, order: seq<string>, floor: nat): nat {
    if names == [] then floor else Position(order, names[|names| - 1])
  }

  lemma {:induction false} FollowsOrderAppend(a: seq<string>, b: seq<string>, order: seq<string>, floor: nat)
    requires FollowsOrderFrom(a, order, floor)
    requires FollowsOrderFrom(b, order, LastRank(a, order, floor))
    ensures FollowsOrderFrom(a + b, order, floor)
  {
    if a == [] {
      assert a + b == b;
    } else {
      assert (a + b)[0] == a[0];
      assert (a + b)[1..] == a[1..] + b;
      if a[1..] != [] {
        assert a[1..][|a[1..]| - 1] == a[|a| - 1];
      }
      FollowsOrderAppend(a[1..], b, order, Position(order, a[0]));
    }
  }

  /** `n` copies of `name`. */
  function Copies(name: string, n: nat): seq<string> {
    if n == 0 then [] else Copies(name, n - 1) + [name]
  }

  lemma {:induction false} CopiesFollowOrder(name: string, n: nat, order: seq<string>)
    requires name in order
    ensures FollowsOrderFrom(Copies(name, n), order, Position(order, name))
    ensures LastRank(Copies(name, n), order, Position(order, name)) == Position(order, name)
  {
    if n > 0 {
      CopiesFollowOrder(name, n - 1, order);
      FollowsOrderAppend(Copies(name, n - 1), [name], order, Position(order, name));
    }
  }

  lemma {:induction false} TitleNames(titles: seq<LocalizedString>)
    ensures GeneratedOutput.ElementNames(Generator.Titles(titles)) == Copies("ReferenceTitle", |titles|)
  {
    if titles != [] {
      var init := titles[..|titles| - 1];
      TitleNames(init);
      GeneratedOutput.ElementNamesAppend(Generator.Titles(init),
        [ElementNode(Generator.Localized("ReferenceTitle", "TitleText", titles[|titles| - 1]))]);
      GeneratedOutput.ElementNamesSingle(Generator.Localized("ReferenceTitle", "TitleText", titles[|titles| - 1]));
    }
  }

  /** The child names of a generated `MessageHeader`. */
  lemma HeaderNames(header: MessageHeaderRequest, uuid: string, created: string)
    ensures GeneratedOutput.ElementNames(Generator.HeaderSpec(header, uuid, created).children) ==
      ["MessageId", "MessageCreatedDateTime", "MessageSender", "MessageRecipient"]
      + (if header.messageControlType.Some? then ["MessageControlType"] else [])
  {
    var e := Generator.HeaderSpec(header, uuid, created);
    var first := e.children[..4];
    var rest := e.children[4..];
    assert e.children == first + rest;
    GeneratedOutput.ElementNamesAppend(first, rest);
    GeneratedOutput.ElementNamesPair(first[0].elem, first[1].elem);
    GeneratedOutput.ElementNamesPair(first[2].elem, first[3].elem);
    assert first == [first[0], first[1]] + [first[2], first[3]];
    GeneratedOutput.ElementNamesAppend([first[0], first[1]], [first[2], first[3]]);
    if header.messageControlType.Some? {
      GeneratedOutput.ElementNamesSingle(rest[0].elem);
    }
  }

  /** Ranks 0, 2, 3, 4 and optionally 5 of an order without duplicates, in
      that sequence, follow the order. */
  lemma HeaderShapeFollows(order: seq<string>, control: bool)
    requires |order| >= 6 && NoDuplicates(order)
    ensures FollowsOrder([order[0], order[2], order[3], order[4]] + (if control then [order[5]] else []), order)
  {
    PositionAt(order, 0);
    PositionAt(order, 2);
    PositionAt(order, 3);
    PositionAt(order, 4);
    PositionAt(order, 5);
    var tail: seq<string> := if control then [order[5]] else [];
    if control {
      FollowsOrderCons(order[5], [], order, 4);
      assert [order[5]] + [] == tail;
    }
    FollowsOrderCons(order[4], tail, order, 3);
    FollowsOrderCons(order[3], [order[4]] + tail, order, 2);
    FollowsOrderCons(order[2], [order[3]] + ([order[4]] + tail), order, 0);
    FollowsOrderCons(order[0], [order[2]] + ([order[3]] + ([order[4]] + tail)), order, 0);
    assert [order[0]] + ([order[2]] + ([order[3]] + ([order[4]] + tail)))
      == [order[0], order[2], order[3], order[4]] + tail;
  }

  /** The children of a generated `MessageHeader` appear in the canonical
      header order. */
  lemma HeaderFollowsCanonicalOrder(header: MessageHeaderRequest, uuid: string, created: string)
    ensures FollowsOrder(GeneratedOutput.ElementNames(Generator.HeaderSpec(header, uuid, created).children), MESSAGE_HEADER_ORDER)
  {
    HeaderNames(header, uuid, created);
    HeaderOrderListed();
    HeaderShapeFollows(MESSAGE_HEADER_ORDER, header.messageControlType.Some?);
  }

  /** The names of a generated `Release`'s children before its closing
      `DisplayArtist`. */
  function ReleaseFrontNames(titles: nat): seq<string> {
    ["ReleaseReference", "ReleaseId"] + Copies("ReferenceTitle", titles) + ["ReleaseResourceReferenceList"]
  }

  /** The child names of a generated `Release`. */
  lemma ReleaseNames(release: ReleaseRequest, id: nat)
    ensures GeneratedOutput.ElementNames(Generator.ReleaseSpec(release, id).children) ==
      ReleaseFrontNames(|release.title|) + ["DisplayArtist"]
  {
    var head := Generator.ReleaseHead(release, id);
    var titles := Generator.Titles(release.title);
    var refList := ElementNode(Element("ReleaseResourceReferenceList", None, [], Generator.ResourceRefs(|release.tracks|)));
    var artist := ElementNode(Generator.DisplayArtistSpec(release.artist));
    var tail := [refList, artist];
    GeneratedOutput.ElementNamesAppend(head + titles, tail);
    GeneratedOutput.ElementNamesAppend(head, titles);
    GeneratedOutput.ElementNamesPair(head[0].elem, head[1].elem);
    GeneratedOutput.ElementNamesPair(tail[0].elem, tail[1].elem);
    TitleNames(release.title);
    var front2 := ["ReleaseReference", "ReleaseId"];
    var copies := Copies("ReferenceTitle", |release.title|);
    AppendAssoc3(front2 + copies, ["ReleaseResourceReferenceList"], ["DisplayArtist"]);
    assert ["ReleaseResourceReferenceList", "DisplayArtist"] == ["ReleaseResourceReferenceList"] + ["DisplayArtist"];
  }

  /** Ranks 0 and 1, any number of rank 2 and then rank 3 of an order without
      duplicates follow the order. */
  lemma ReleaseShapeFollows(order: seq<string>, n: nat)
    requires |order| >= 4 && NoDuplicates(order)
    ensures FollowsOrder([order[0], order[1]] + Copies(order[2], n) + [order[3]], order)
  {
    PositionAt(order, 0);
    PositionAt(order, 1);
    PositionAt(order, 2);
    PositionAt(order, 3);
    var titles := Copies(order[2], n);
    var last: seq<string> := [order[3]];
    FollowsOrderCons(order[3], [], order, 2);
    assert [order[3]] + [] == last;
    CopiesFollowOrder(order[2], n, order);
    FollowsOrderAppend(titles, last, order, 2);
    FollowsOrderCons(order[1], titles + last, order, 0);
    FollowsOrderCons(order[0], [order[1]] + (titles + last), order, 0);
    AppendAssoc3([order[0], order[1]], titles, last);
    assert [order[0]] + ([order[1]] + (titles + last)) == [order[0], order[1]] + (titles + last);
  }

  /** The children of a generated `Release` up to its resource reference list
      appear in the canonical release order; the `DisplayArtist` that closes
      it is not in the table. */
  lemma ReleaseFollowsCanonicalOrder(release: ReleaseRequest, id: nat)
    ensures var names := GeneratedOutput.ElementNames(Generator.ReleaseSpec(release, id).children);
      |names| >= 1 && names[|names| - 1] == "DisplayArtist"
      && FollowsOrder(names[..|names| - 1], RELEASE_ORDER)
      && "DisplayArtist" !in RELEASE_ORDER
  {
    ReleaseNames(release, id);
    ReleaseOrderListed();
    ReleaseShapeFollows(RELEASE_ORDER, |release.title|);
    var front := ReleaseFrontNames(|release.title|);
    assert (front + ["DisplayArtist"])[..|front|] == front;
    assert |"DisplayArtist"| == 13;
  }
}
