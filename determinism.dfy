/** The determinism configuration of the builder (ddex-builder
    `determinism.rs`): the knobs that fix canonicalisation, ordering,
    namespace prefixes and formatting, and their defaults. */
module Determinism {
  import opened Util
  import IndexMap

  datatype CanonMode = DbC14n | Pretty | Compact
  datatype SortStrategy = Canonical | InputOrder | CustomSort
  datatype NamespaceStrategy = Locked | Inherit
  datatype OutputMode = DbC14nOutput | PrettyOutput | CompactOutput
  datatype LineEnding = LF | CRLF
  datatype IndentChar = Space | Tab
  datatype UnicodeNormalization = NFC | NFD | NFKC | NFKD
  datatype XmlCharacterPolicy = Escape | CData | Reject
  datatype QuoteStyle = Double | Single
  datatype TimeZonePolicy = UTC | Preserve | Local
  datatype DateTimeFormat = ISO8601Z | ISO8601 | CustomFormat

  datatype DeterminismConfig = DeterminismConfig(
    canonMode: CanonMode,
    sortStrategy: SortStrategy,
    customSortOrder: Option<IndexMap.Entries<string, seq<string>>>,
    namespaceStrategy: NamespaceStrategy,
    /** Namespace URI to the prefix it must be written with. */
    lockedPrefixes: IndexMap.Entries<string, string>,
    outputMode: OutputMode,
    lineEnding: LineEnding,
    indentChar: IndentChar,
    indentWidth: nat,
    unicodeNormalization: UnicodeNormalization,
    xmlCharacterPolicy: XmlCharacterPolicy,
    quoteStyle: QuoteStyle,
    timeZonePolicy: TimeZonePolicy,
    dateTimeFormat: DateTimeFormat,
    emitReproducibilityBanner: bool,
    verifyDeterminism: Option<nat>)

  const ERN_43_URI := "http://ddex.net/xml/ern/43"
  const ERN_42_URI := "http://ddex.net/xml/ern/42"
  const ERN_382_URI := "http://ddex.net/xml/ern/382"
  const AVS_URI := "http://ddex.net/xml/avs"
  const XSI_URI := "http://www.w3.org/2001/XMLSchema-instance"

  /** The locked prefix table the default configuration carries, built by
      inserting the five entries in order. */
  function DefaultNamespacePrefixes(): IndexMap.Entries<string, string> {
    IndexMap.FromEntries([
      (ERN_43_URI, "ern"),
      (ERN_42_URI, "ern"),
      (ERN_382_URI, "ern"),
      (AVS_URI, "avs"),
      (XSI_URI, "xsi")])
  }

  /** The default table holds the five URIs once each, in insertion order; the
      three ERN versions share the prefix `ern`, so the table is not a
      one-to-one prefix assignment. */
  lemma DefaultPrefixesTable()
    ensures DefaultNamespacePrefixes() == [
      (ERN_43_URI, "ern"), (ERN_42_URI, "ern"), (ERN_382_URI, "ern"),
      (AVS_URI, "avs"), (XSI_URI, "xsi")]
    ensures IndexMap.DistinctKeys(DefaultNamespacePrefixes())
  {
    var entries := [
      (ERN_43_URI, "ern"), (ERN_42_URI, "ern"), (ERN_382_URI, "ern"),
      (AVS_URI, "avs"), (XSI_URI, "xsi")];
    assert IndexMap.DistinctKeys(entries) by {
      // The URIs differ in length or in one character.
      assert ERN_43_URI[24] == '4' && ERN_42_URI[24] == '4' && ERN_382_URI[24] == '3';
      assert ERN_43_URI[25] == '3' && ERN_42_URI[25] == '2';
      assert |AVS_URI| == 23 && |XSI_URI| == 41 && |ERN_43_URI| == 26 && |ERN_382_URI| == 27;
    }
    IndexMap.FromDistinctEntries(entries);
  }

  /** Looking a URI up in the default table gives its locked prefix. */
  lemma DefaultPrefixLookups()
    ensures IndexMap.Get(DefaultNamespacePrefixes(), ERN_43_URI) == Some("ern")
    ensures IndexMap.Get(DefaultNamespacePrefixes(), ERN_42_URI) == Some("ern")
    ensures IndexMap.Get(DefaultNamespacePrefixes(), ERN_382_URI) == Some("ern")
    ensures IndexMap.Get(DefaultNamespacePrefixes(), XSI_URI) == Some("xsi")
    ensures IndexMap.Get(DefaultNamespacePrefixes(), AVS_URI) == Some("avs")
  {
    DefaultPrefixesTable();
    var m := DefaultNamespacePrefixes();
    IndexMap.GetAt(m, ERN_43_URI, 0);
    IndexMap.GetAt(m, ERN_42_URI, 1);
    IndexMap.GetAt(m, ERN_382_URI, 2);
    IndexMap.GetAt(m, AVS_URI, 3);
    IndexMap.GetAt(m, XSI_URI, 4);
  }

  /** `DeterminismConfig::default()`. */
  function DefaultConfig(): (c: DeterminismConfig)
    ensures c.canonMode == DbC14n && c.outputMode == DbC14nOutput
    ensures c.indentChar == Space && c.indentWidth == 2 && c.lineEnding == LF
    ensures !c.emitReproducibilityBanner && c.verifyDeterminism.None?
    ensures c.lockedPrefixes == DefaultNamespacePrefixes()
    ensures c.sortStrategy == Canonical && c.customSortOrder.None? && c.namespaceStrategy == Locked
    ensures c.unicodeNormalization == NFC && c.xmlCharacterPolicy == Escape && c.quoteStyle == Double
    ensures c.timeZonePolicy == UTC && c.dateTimeFormat == ISO8601Z
  {
    DeterminismConfig(
      canonMode := DbC14n,
      sortStrategy := Canonical,
      customSortOrder := None,
      namespaceStrategy := Locked,
      lockedPrefixes := DefaultNamespacePrefixes(),
      outputMode := DbC14nOutput,
      lineEnding := LF,
      indentChar := Space,
      indentWidth := 2,
      unicodeNormalization := NFC,
      xmlCharacterPolicy := Escape,
      quoteStyle := Double,
      timeZonePolicy := UTC,
      dateTimeFormat := ISO8601Z,
      emitReproducibilityBanner := false,
      verifyDeterminism := None)
  }
}
