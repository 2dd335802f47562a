/** The XML helpers of the integration tests (`integration-tests/src/utils.rs`):
    whitespace normalisation and the comparison built on it, and the
    extraction of a few key facts (message id, release and sound-recording
    counts, schema version, DDEX marker) that round-trip tests compare. */
module TestUtils {
  import opened Util

  // ------------------------------------------------------------ normalising

  /** Every character of a trimmed line comes from the line. */
  lemma TrimKeepsChars(s: string)
    ensures forall c :: c in Trim(s) ==> c in s
  {
    var t := TrimStart(s);
    assert Trim(s) == t[..|Trim(s)|];
    assert t == s[|s| - |t|..];
    forall c | c in Trim(s) ensures c in s {
      var k :| 0 <= k < |Trim(s)| && Trim(s)[k] == c;
      assert s[|s| - |t| + k] == c;
    }
  }

  /** The lines trimmed, the empty ones dropped, the rest joined with
      nothing between them. */
  function JoinTrimmed(lines: seq<string>): (r: string)
    ensures r == [] || (!IsWhitespace(r[0]) && !IsWhitespace(r[|r| - 1]))
    ensures (forall i :: 0 <= i < |lines| ==> '\n' !in lines[i]) ==> '\n' !in r
  {
    if lines == [] then []
    else
      var t := Trim(lines[0]);
      var rest := JoinTrimmed(lines[1..]);
      TrimKeepsChars(lines[0]);
      if t == [] then rest else t + rest
  }

  /** `normalize_xml`. */
  function Normalize(xml: string): (r: string)
    ensures '\n' !in r
    ensures r == [] || (!IsWhitespace(r[0]) && !IsWhitespace(r[|r| - 1]))
  {
    JoinTrimmed(Lines(xml))
  }

  /** A text without a line feed is a single line, or no line when it is
      empty. */
  lemma LinesOfOneLine(s: string)
    requires '\n' !in s
    ensures Lines(s) == (if s == [] then [] else [s])
  {
    forall j: nat
      ensures !OccursAt(s, "\n", j)
    {
      OccursAtChar(s, "\n", j, 0);
    }
  }

  /** Normalising twice is normalising once: the result is one line with no
      surrounding whitespace, which normalisation leaves as it is. */
  lemma NormalizeIdempotent(xml: string)
    ensures Normalize(Normalize(xml)) == Normalize(xml)
  {
    var r := Normalize(xml);
    LinesOfOneLine(r);
    if r != [] {
      TrimOfTrimmed(r);
      assert JoinTrimmed([r]) == Trim(r) + JoinTrimmed([]);
    }
  }

  /** `xml_semantically_equal`. */
  predicate SemanticallyEqual(xml1: string, xml2: string) {
    Normalize(xml1) == Normalize(xml2)
  }

  /** The comparison is an equivalence. */
  lemma SemanticallyEqualIsEquivalence(a: string, b: string, c: string)
    ensures SemanticallyEqual(a, a)
    ensures SemanticallyEqual(a, b) ==> SemanticallyEqual(b, a)
    ensures SemanticallyEqual(a, b) && SemanticallyEqual(b, c) ==> SemanticallyEqual(a, c)
  {
  }

  /** A text compares equal to its own normal form. */
  lemma NormalFormIsEquivalent(xml: string)
    ensures SemanticallyEqual(Normalize(xml), xml)
  {
    NormalizeIdempotent(xml);
  }

  // ------------------------------------------------------------- structure

  /** `XMLStructure`. */
  datatype XmlStructure = XmlStructure(
    messageId: Option<string>,
    releaseCount: nat,
    soundRecordingCount: nat,
    version: Option<string>,
    isDdex: bool)

  const MESSAGE_ID_OPEN := "<MessageId>"
  const MESSAGE_ID_CLOSE := "</MessageId>"
  const VERSION_ATTRIBUTE := "MessageSchemaVersionId=\""

  /** The message id: the text between the first opening tag and the first
      closing tag, when the opening tag comes first. */
  function MessageIdOf(xml: string): Option<string> {
    match Find(xml, MESSAGE_ID_OPEN)
    case None => None
    case Some(start) =>
      match Find(xml, MESSAGE_ID_CLOSE)
      case None => None
      case Some(end) =>
        if start < end then
          CloseAfterOpen(xml, start, end);
          Some(xml[start + |MESSAGE_ID_OPEN|..end])
        else None
  }

  /** The schema version: the text after the first `MessageSchemaVersionId="`
      up to the next quote. */
  function VersionOf(xml: string): Option<string> {
    match Find(xml, VERSION_ATTRIBUTE)
    case None => None
    case Some(start) =>
      match Find(xml[start + |VERSION_ATTRIBUTE|..], "\"")
      case None => None
      case Some(end) =>
        Some(xml[start + |VERSION_ATTRIBUTE|..start + |VERSION_ATTRIBUTE| + end])
  }

  predicate IsDdex(xml: string) {
    Contains(xml, "ern:NewReleaseMessage") || Contains(xml, "xmlns:ern")
  }

  /** `extract_xml_structure`: starting from the default record, each field
      is filled in turn. */
  method ExtractXmlStructure(xml: string) returns (s: XmlStructure)
    ensures s.messageId == MessageIdOf(xml)
    ensures s.releaseCount == CountMatches(xml, "<Release>")
    ensures s.soundRecordingCount == CountMatches(xml, "<SoundRecording>")
    ensures s.version == VersionOf(xml)
    ensures s.isDdex <==> IsDdex(xml)
  {
    s := XmlStructure(None, 0, 0, None, false);
    var start := Find(xml, MESSAGE_ID_OPEN);
    if start.Some? {
      var end := Find(xml, MESSAGE_ID_CLOSE);
      if end.Some? && start.value < end.value {
        CloseAfterOpen(xml, start.value, end.value);
        s := s.(messageId := Some(xml[start.value + 11..end.value]));
      }
    }
    s := s.(releaseCount := CountMatches(xml, "<Release>"));
    s := s.(soundRecordingCount := CountMatches(xml, "<SoundRecording>"));
    var vstart := Find(xml, VERSION_ATTRIBUTE);
    if vstart.Some? {
      var vend := Find(xml[vstart.value + 24..], "\"");
      if vend.Some? {
        s := s.(version := Some(xml[vstart.value + 24..vstart.value + 24 + vend.value]));
      }
    }
    s := s.(isDdex := Contains(xml, "ern:NewReleaseMessage") || Contains(xml, "xmlns:ern"));
  }

  /** `is_compatible_with`. */
  predicate IsCompatibleWith(a: XmlStructure, b: XmlStructure) {
    && a.messageId == b.messageId
    && a.releaseCount == b.releaseCount
    && a.soundRecordingCount == b.soundRecordingCount
    && a.version == b.version
    && a.isDdex == b.isDdex
  }

  /** Compatibility compares every field, so it is equality of the
      records; in particular it is reflexive and symmetric. */
  lemma CompatibleIsEquality(a: XmlStructure, b: XmlStructure)
    ensures IsCompatibleWith(a, b) <==> a == b
    ensures IsCompatibleWith(a, a)
    ensures IsCompatibleWith(a, b) <==> IsCompatibleWith(b, a)
  {
  }

  // --------------------------------------------------------- search facts

  /** The first occurrence is at `k` when `pat` occurs there and nowhere
      before. */
  lemma FindIs(s: string, pat: string, k: nat)
    requires OccursAt(s, pat, k)
    requires forall j: nat :: j < k ==> !OccursAt(s, pat, j)
    ensures Find(s, pat) == Some(k)
  {
  }

  /** An occurrence agrees with the pattern at each of its positions. */
  lemma OccursAtChar(s: string, pat: string, j: nat, k: nat)
    ensures OccursAt(s, pat, j) && k < |pat| ==> s[j + k] == pat[k]
  {
    if OccursAt(s, pat, j) && k < |pat| {
      assert s[j..j + |pat|][k] == s[j + k];
    }
  }

  /** The closing tag cannot start inside the opening tag, so a closing tag
      found after an opening tag starts after its end. */
  lemma CloseAfterOpen(xml: string, start: nat, end: nat)
    requires OccursAt(xml, MESSAGE_ID_OPEN, start) && OccursAt(xml, MESSAGE_ID_CLOSE, end) && start < end
    ensures start + |MESSAGE_ID_OPEN| <= end
  {
    OccursAtChar(xml, MESSAGE_ID_CLOSE, end, 0);
    OccursAtChar(xml, MESSAGE_ID_OPEN, start, end - start);
  }

  /** With no `<` before it, the opening tag is found where it was
      written. */
  lemma MessageIdOpenFound(pre: string, rest: string)
    requires '<' !in pre
    ensures Find(pre + MESSAGE_ID_OPEN + rest, MESSAGE_ID_OPEN) == Some(|pre|)
  {
    var xml := pre + MESSAGE_ID_OPEN + rest;
    assert xml[|pre|..|pre| + 11] == MESSAGE_ID_OPEN;
    forall j: nat | j < |pre|
      ensures !OccursAt(xml, MESSAGE_ID_OPEN, j)
    {
      OccursAtChar(xml, MESSAGE_ID_OPEN, j, 0);
      assert xml[j] == pre[j];
    }
    FindIs(xml, MESSAGE_ID_OPEN, |pre|);
  }

  /** With no `<` before the closing tag other than the opening tag's, the
      closing tag is found where it was written. */
  lemma MessageIdCloseFound(pre: string, id: string, post: string)
    requires '<' !in pre && '<' !in id
    ensures Find(pre + MESSAGE_ID_OPEN + id + MESSAGE_ID_CLOSE + post, MESSAGE_ID_CLOSE) == Some(|pre| + 11 + |id|)
  {
    var xml := pre + MESSAGE_ID_OPEN + id + MESSAGE_ID_CLOSE + post;
    var start := |pre|;
    var end := |pre| + 11 + |id|;
    assert xml[end..end + 12] == MESSAGE_ID_CLOSE;
    forall j: nat | j < end
      ensures !OccursAt(xml, MESSAGE_ID_CLOSE, j)
    {
      if j == start {
        OccursAtChar(xml, MESSAGE_ID_CLOSE, j, 1);
        assert xml[j + 1] == MESSAGE_ID_OPEN[1];
      } else {
        OccursAtChar(xml, MESSAGE_ID_CLOSE, j, 0);
        if j < start {
          assert xml[j] == pre[j];
        } else if j < start + 11 {
          assert xml[j] == MESSAGE_ID_OPEN[j - start];
        } else {
          assert xml[j] == id[j - start - 11];
        }
      }
    }
    FindIs(xml, MESSAGE_ID_CLOSE, end);
  }

  /** Writing a message id between the two tags, with no `<` before it and
      none inside it, is read back as that id. */
  lemma MessageIdRoundTrip(pre: string, id: string, post: string)
    requires '<' !in pre && '<' !in id
    ensures MessageIdOf(pre + MESSAGE_ID_OPEN + id + MESSAGE_ID_CLOSE + post) == Some(id)
  {
    var xml := pre + MESSAGE_ID_OPEN + id + MESSAGE_ID_CLOSE + post;
    assert xml == pre + MESSAGE_ID_OPEN + (id + MESSAGE_ID_CLOSE + post);
    MessageIdOpenFound(pre, id + MESSAGE_ID_CLOSE + post);
    MessageIdCloseFound(pre, id, post);
    assert xml[|pre| + 11..|pre| + 11 + |id|] == id;
  }

  /** With no quote before it, the attribute is found where it was
      written: any earlier occurrence would end in a quote of its own. */
  lemma VersionAttributeFound(pre: string, rest: string)
    requires '"' !in pre
    ensures Find(pre + VERSION_ATTRIBUTE + rest, VERSION_ATTRIBUTE) == Some(|pre|)
  {
    var xml := pre + VERSION_ATTRIBUTE + rest;
    var start := |pre|;
    assert xml[start..start + 24] == VERSION_ATTRIBUTE;
    forall j: nat | j < start
      ensures !OccursAt(xml, VERSION_ATTRIBUTE, j)
    {
      OccursAtChar(xml, VERSION_ATTRIBUTE, j, 23);
      if j + 23 < start {
        assert xml[j + 23] == pre[j + 23];
      } else {
        assert xml[j + 23] == VERSION_ATTRIBUTE[j + 23 - start];
      }
    }
    FindIs(xml, VERSION_ATTRIBUTE, start);
  }

  /** The first quote of a text is the one after its quote-free head. */
  lemma FirstQuote(v: string, post: string)
    requires '"' !in v
    ensures Find(v + "\"" + post, "\"") == Some(|v|)
  {
    var rest := v + "\"" + post;
    assert rest[|v|..|v| + 1] == "\"";
    forall j: nat | j < |v|
      ensures !OccursAt(rest, "\"", j)
    {
      OccursAtChar(rest, "\"", j, 0);
      assert rest[j] == v[j];
    }
    FindIs(rest, "\"", |v|);
  }

  /** Writing `MessageSchemaVersionId="v"`, with no quote before it and
      none inside `v`, is read back as `v`. */
  lemma VersionRoundTrip(pre: string, v: string, post: string)
    requires '"' !in pre && '"' !in v
    ensures VersionOf(pre + VERSION_ATTRIBUTE + v + "\"" + post) == Some(v)
  {
    var rest := v + "\"" + post;
    var xml := pre + VERSION_ATTRIBUTE + v + "\"" + post;
    assert xml == pre + VERSION_ATTRIBUTE + rest;
    VersionAttributeFound(pre, rest);
    assert xml[|pre| + 24..] == rest;
    FirstQuote(v, post);
    assert xml[|pre| + 24..|pre| + 24 + |v|] == v;
  }

  // ----------------------------------------------------------- tag counting

  /** Scanning from `|a| + k` in `a + b` is scanning `b` from `k`. */
  lemma {:induction false} CountShift(a: string, b: string, pat: string, k: nat)
    requires |pat| > 0
    ensures CountMatchesFrom(a + b, pat, |a| + k) == CountMatchesFrom(b, pat, k)
    decreases |b| - k
  {
    if k + |pat| <= |b| {
      assert (a + b)[|a| + k..|a| + k + |pat|] == b[k..k + |pat|];
      if OccursAt(b, pat, k) {
        CountShift(a, b, pat, k + |pat|);
      } else {
        CountShift(a, b, pat, k + 1);
      }
    }
  }

  /** The part of the scan that starts in `a`: when no occurrence in
      `a + b` straddles the seam, the scan of `a + b` from `i` counts `a`'s
      matches from `i`, then `b`'s. */
  lemma {:induction false} CountSplitFrom(a: string, b: string, pat: string, i: nat)
    requires |pat| > 0 && i <= |a|
    requires forall j: nat :: j < |a| < j + |pat| ==> !OccursAt(a + b, pat, j)
    ensures CountMatchesFrom(a + b, pat, i) == CountMatchesFrom(a, pat, i) + CountMatchesFrom(b, pat, 0)
    decreases |a| - i
  {
    if i == |a| {
      CountShift(a, b, pat, 0);
    } else if OccursAt(a + b, pat, i) {
      assert i + |pat| <= |a|;
      assert (a + b)[i..i + |pat|] == a[i..i + |pat|];
      CountSplitFrom(a, b, pat, i + |pat|);
    } else {
      if i + |pat| <= |a| {
        assert (a + b)[i..i + |pat|] == a[i..i + |pat|];
      }
      CountSplitFrom(a, b, pat, i + 1);
    }
  }

  /** Counts add up across a seam that no occurrence straddles. */
  lemma CountSplit(a: string, b: string, pat: string)
    requires |pat| > 0
    requires forall j: nat :: j < |a| < j + |pat| ==> !OccursAt(a + b, pat, j)
    ensures CountMatches(a + b, pat) == CountMatches(a, pat) + CountMatches(b, pat)
  {
    CountSplitFrom(a, b, pat, 0);
  }

  /** No occurrence of a tag straddles the start of another tag: a tag
      holds `<` only at its start. */
  lemma TagSeam(a: string, b: string, tag: string)
    requires |tag| > 0 && tag[0] == '<' && '<' !in tag[1..]
    requires b != [] && b[0] == '<'
    ensures forall j: nat :: j < |a| < j + |tag| ==> !OccursAt(a + b, tag, j)
  {
    forall j: nat | j < |a| < j + |tag|
      ensures !OccursAt(a + b, tag, j)
    {
      OccursAtChar(a + b, tag, j, |a| - j);
      assert (a + b)[|a|] == '<';
      assert tag[1..][|a| - j - 1] == tag[|a| - j];
    }
  }

  /** Tags are counted whole, one after the other: in a text made of a
      part `a` followed by a part `b` that opens a tag, the release count
      and the sound-recording count are the sums of the parts' counts. */
  lemma CountsAddAtTags(a: string, b: string)
    requires b != [] && b[0] == '<'
    ensures CountMatches(a + b, "<Release>") == CountMatches(a, "<Release>") + CountMatches(b, "<Release>")
    ensures CountMatches(a + b, "<SoundRecording>") ==
            CountMatches(a, "<SoundRecording>") + CountMatches(b, "<SoundRecording>")
  {
    TagSeam(a, b, "<Release>");
    CountSplit(a, b, "<Release>");
    TagSeam(a, b, "<SoundRecording>");
    CountSplit(a, b, "<SoundRecording>");
  }

  /** A `<ReleaseList>` tag is not a release. */
  lemma ReleaseListIsNotARelease()
    ensures CountMatches("<ReleaseList>", "<Release>") == 0
  {
    var s := "<ReleaseList>";
    forall j: nat | true
      ensures !OccursAt(s, "<Release>", j)
    {
      OccursAtChar(s, "<Release>", j, 0);
      OccursAtChar(s, "<Release>", j, 8);
    }
    CountMatchesFromZero(s, "<Release>", 0);
  }

  /** A release list around releases is not counted with them: when the
      list's opening tag is followed by another tag, the count is what the
      text before it and the text after it hold. */
  lemma ReleaseListNotCounted(pre: string, post: string)
    requires post != [] && post[0] == '<'
    ensures CountMatches(pre + "<ReleaseList>" + post, "<Release>") ==
            CountMatches(pre, "<Release>") + CountMatches(post, "<Release>")
  {
    var list := "<ReleaseList>";
    assert pre + list + post == pre + (list + post);
    CountsAddAtTags(pre, list + post);
    CountsAddAtTags(list, post);
    ReleaseListIsNotARelease();
  }

  /** One release tag counts as one release. */
  lemma ReleaseTagCounts()
    ensures CountMatches("<Release>", "<Release>") == 1
  {
    assert OccursAt("<Release>", "<Release>", 0);
  }
}
