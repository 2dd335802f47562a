/** The parser's Node.js binding (ddex-parser `bindings/node/src/lib.rs`): a
    stand-in parser that recognises the ERN version by substring, runs three
    structural checks, and streams three fixed releases. The binding holds no
    state of its own, so its methods are functions here; the release stream
    keeps a position and is a class. */
module NodeParser {
  import opened Util

  // --------------------------------------------------------- version sniffing

  /** `detect_version`: the first of ERN 4.3, 4.2 and 3.8.2 whose namespace
      fragment occurs, otherwise "Unknown". */
  function DetectVersion(xml: string): (version: string)
    ensures version in ["V4_3", "V4_2", "V3_8_2", "Unknown"]
  {
    if Contains(xml, "ern/43") || Contains(xml, "xml/ern/43") then "V4_3"
    else if Contains(xml, "ern/42") || Contains(xml, "xml/ern/42") then "V4_2"
    else if Contains(xml, "ern/382") || Contains(xml, "xml/ern/382") then "V3_8_2"
    else "Unknown"
  }

  /** The longer `xml/ern/..` alternatives never decide anything: each
      contains the shorter fragment, so the detection is first-match over
      "ern/43", "ern/42", "ern/382". */
  lemma DetectVersionFirstMatch(xml: string)
    ensures DetectVersion(xml) == "V4_3" <==> Contains(xml, "ern/43")
    ensures DetectVersion(xml) == "V4_2" <==> !Contains(xml, "ern/43") && Contains(xml, "ern/42")
    ensures DetectVersion(xml) == "V3_8_2" <==>
      !Contains(xml, "ern/43") && !Contains(xml, "ern/42") && Contains(xml, "ern/382")
    ensures DetectVersion(xml) == "Unknown" <==>
      !Contains(xml, "ern/43") && !Contains(xml, "ern/42") && !Contains(xml, "ern/382")
  {
    assert "xml/ern/43"[4..10] == "ern/43";
    assert "xml/ern/42"[4..10] == "ern/42";
    assert "xml/ern/382"[4..11] == "ern/382";
    if Contains(xml, "xml/ern/43") { ContainsInner(xml, "xml/ern/43", 4, 6); }
    if Contains(xml, "xml/ern/42") { ContainsInner(xml, "xml/ern/42", 4, 6); }
    if Contains(xml, "xml/ern/382") { ContainsInner(xml, "xml/ern/382", 4, 7); }
    assert "V4_3"[3] != "V4_2"[3] && |"V4_3"| != |"V3_8_2"|;
    assert |"Unknown"| != |"V4_3"| && |"Unknown"| != |"V3_8_2"|;
  }

  // ----------------------------------------------------------------- parsing

  /** The only napi status the stand-in reports. */
  datatype Status = InvalidArg

  datatype NapiError = NapiError(status: Status, reason: string)

  /** `ParsedMessage`. The duration is an `f64` that is always 0. */
  datatype ParsedMessage = ParsedMessage(
    messageId: string,
    messageType: string,
    messageDate: string,
    senderName: string,
    senderId: string,
    recipientName: string,
    recipientId: string,
    version: string,
    profile: Option<string>,
    releaseCount: nat,
    trackCount: nat,
    dealCount: nat,
    resourceCount: nat,
    totalDurationSeconds: real)

  /** Both angle brackets occur somewhere. */
  predicate HasAngleBrackets(xml: string) {
    '<' in xml && '>' in xml
  }

  /** One of the three message-type names occurs. */
  predicate NamesMessageType(xml: string) {
    Contains(xml, "NewReleaseMessage") || Contains(xml, "UpdateReleaseMessage") || Contains(xml, "TakedownMessage")
  }

  /** As many `<` as `>`. */
  predicate BracketsBalanced(xml: string) {
    CountChar(xml, '<') == CountChar(xml, '>')
  }

  /** `parse_sync`: the three checks in order, each failing with its own
      reason; on success a fixed message whose version is the detected one.
      `now` is the RFC 3339 time stamp the clock gives. The options are not
      read. */
  function ParseSync(xml: string, now: string): (r: Result<ParsedMessage, NapiError>)
    ensures r.Err? ==> r.error.status == InvalidArg && r.error.reason in PARSE_REASONS
  {
    if !HasAngleBrackets(xml) then Err(NapiError(InvalidArg, "Invalid XML: missing angle brackets"))
    else if !NamesMessageType(xml) then Err(NapiError(InvalidArg, "Invalid DDEX: not a valid DDEX message type"))
    else if !BracketsBalanced(xml) then Err(NapiError(InvalidArg, "Invalid XML: unclosed tags"))
    else
      Ok(ParsedMessage("TEST_001", "NewReleaseMessage", now, "Test Sender", "sender_001",
                       "Test Recipient", "recipient_001", DetectVersion(xml), None, 1, 0, 0, 0, 0.0))
  }

  /** A successful parse reports the detected version and the clock's time,
      and one release. */
  lemma ParseSyncSuccess(xml: string, now: string)
    ensures ParseSync(xml, now).Ok? <==> HasAngleBrackets(xml) && NamesMessageType(xml) && BracketsBalanced(xml)
    ensures ParseSync(xml, now).Ok? ==>
      var m := ParseSync(xml, now).value;
      m.version == DetectVersion(xml) && m.messageDate == now && m.releaseCount == 1 && m.profile.None?
  {
  }

  // ------------------------------------------------------------ sanity check

  datatype SanityCheckResult = SanityCheckResult(isValid: bool, version: string, errors: seq<string>, warnings: seq<string>)

  const PARSE_REASONS: seq<string> := ["Invalid XML: missing angle brackets",
                                       "Invalid DDEX: not a valid DDEX message type",
                                       "Invalid XML: unclosed tags"]

  const SANITY_ERRORS: seq<string> := ["Invalid XML structure", "Not a valid DDEX message", "Unclosed XML tags"]

  /** The three checks, numbered in the order both operations run them. */
  predicate Passes(xml: string, k: nat)
    requires k < 3
  {
    if k == 0 then HasAngleBrackets(xml) else if k == 1 then NamesMessageType(xml) else BracketsBalanced(xml)
  }

  /** The errors `sanity_check` collects: one per failing check, in order. */
  function SanityErrors(xml: string): seq<string> {
    (if HasAngleBrackets(xml) then [] else [SANITY_ERRORS[0]])
    + (if NamesMessageType(xml) then [] else [SANITY_ERRORS[1]])
    + (if BracketsBalanced(xml) then [] else [SANITY_ERRORS[2]])
  }

  /** `sanity_check`: pushes an error for each failing check; the warnings
      list is never filled. */
  method SanityCheck(xml: string) returns (r: SanityCheckResult)
    ensures r.errors == SanityErrors(xml)
    ensures r.isValid <==> r.errors == []
    ensures r.warnings == [] && r.version == DetectVersion(xml)
  {
    var errors: seq<string> := [];
    var warnings: seq<string> := [];
    if !('<' in xml) || !('>' in xml) {
      errors := errors + ["Invalid XML structure"];
    }
    if !Contains(xml, "NewReleaseMessage") && !Contains(xml, "UpdateReleaseMessage") && !Contains(xml, "TakedownMessage") {
      errors := errors + ["Not a valid DDEX message"];
    }
    if CountChar(xml, '<') != CountChar(xml, '>') {
      errors := errors + ["Unclosed XML tags"];
    }
    var version := DetectVersion(xml);
    r := SanityCheckResult(errors == [], version, errors, warnings);
  }

  /** The sanity errors are exactly the failing checks' messages, in check
      order, so there are at most three. */
  lemma SanityErrorsAreFailingChecks(xml: string)
    ensures |SanityErrors(xml)| <= 3
    ensures forall k :: 0 <= k < 3 ==> (SANITY_ERRORS[k] in SanityErrors(xml) <==> !Passes(xml, k))
    ensures forall i, j :: 0 <= i < j < |SanityErrors(xml)| ==>
      exists a, b :: 0 <= a < b < 3 && SanityErrors(xml)[i] == SANITY_ERRORS[a] && SanityErrors(xml)[j] == SANITY_ERRORS[b]
  {
    assert SANITY_ERRORS[0][0] != SANITY_ERRORS[1][0] && SANITY_ERRORS[0][0] != SANITY_ERRORS[2][0];
    assert SANITY_ERRORS[1][0] != SANITY_ERRORS[2][0];
  }

  /** Parsing and the sanity check agree: `parse_sync` succeeds exactly when
      the sanity check finds the input valid, and otherwise fails on the
      first check the sanity check reports, in its own wording. */
  lemma ParseAgreesWithSanityCheck(xml: string, now: string)
    ensures ParseSync(xml, now).Ok? <==> SanityErrors(xml) == []
    ensures ParseSync(xml, now).Err? ==>
      exists k :: 0 <= k < 3 && !Passes(xml, k) && (forall j :: 0 <= j < k ==> Passes(xml, j))
        && ParseSync(xml, now).error.reason == PARSE_REASONS[k] && SanityErrors(xml)[0] == SANITY_ERRORS[k]
  {
    if !HasAngleBrackets(xml) {
      assert !Passes(xml, 0);
    } else if !NamesMessageType(xml) {
      assert Passes(xml, 0) && !Passes(xml, 1);
    } else if !BracketsBalanced(xml) {
      assert Passes(xml, 0) && Passes(xml, 1) && !Passes(xml, 2);
    }
  }

  // ---------------------------------------------------------- release stream

  datatype StreamedRelease = StreamedRelease(releaseReference: string, title: string, releaseType: Option<string>, resourceCount: nat)

  /** The `n`-th release the stream hands out, counting from 1: "R" and the
      number padded to three digits. */
  function StreamItem(n: nat): StreamedRelease {
    StreamedRelease("R" + ZeroPad3(n), "Test Release " + NatToString(n), Some("Album"), 10)
  }

  /** What `next` returns from a given position, and the position after. */
  function NextSpec(position: nat): (Option<StreamedRelease>, nat) {
    if position < 3 then (Some(StreamItem(position + 1)), position + 1) else (None, position)
  }

  /** The results of `n` calls of `next` starting at `position`. */
  function Run(position: nat, n: nat): (r: seq<Option<StreamedRelease>>)
    ensures |r| == n
    decreases n
  {
    if n == 0 then [] else [NextSpec(position).0] + Run(NextSpec(position).1, n - 1)
  }

  /** From any position in 0..3, the `i`-th call hands out release number
      `position + i + 1` while that is at most 3, and nothing afterwards. */
  lemma {:induction false} RunFrom(position: nat, n: nat)
    requires position <= 3
    ensures forall i :: 0 <= i < n ==>
      Run(position, n)[i] == (if position + i < 3 then Some(StreamItem(position + i + 1)) else None)
    decreases n
  {
    if n > 0 {
      var next := NextSpec(position).1;
      RunFrom(next, n - 1);
      forall i | 0 <= i < n
        ensures Run(position, n)[i] == (if position + i < 3 then Some(StreamItem(position + i + 1)) else None)
      {
        if i > 0 {
          assert Run(position, n)[i] == Run(next, n - 1)[i - 1];
        }
      }
    }
  }

  /** A fresh stream yields R001, R002 and R003, then nothing forever. */
  lemma FreshStreamYieldsThreeReleases(n: nat)
    requires n >= 3
    ensures Run(0, n)[0].Some? && Run(0, n)[0].value.releaseReference == "R001"
    ensures Run(0, n)[1].Some? && Run(0, n)[1].value.releaseReference == "R002"
    ensures Run(0, n)[2].Some? && Run(0, n)[2].value.releaseReference == "R003"
    ensures forall i :: 3 <= i < n ==> Run(0, n)[i].None?
  {
    RunFrom(0, n);
    assert NatToString(1) == "1" && NatToString(2) == "2" && NatToString(3) == "3";
  }

  datatype ProgressInfo = ProgressInfo(bytesProcessed: real, releasesParsed: real, elapsedMs: real)

  /** `ReleaseStream`: the number of releases handed out so far. */
  class ReleaseStream {
    /** An `i32` in the binding; it never leaves 0..3. */
    var position: nat
    /** The releases handed out so far. */
    ghost var handedOut: seq<StreamedRelease>

    ghost predicate Valid()
      reads this
    {
      && position <= 3
      && |handedOut| == position
      && forall i :: 0 <= i < position ==> handedOut[i] == StreamItem(i + 1)
    }

    /** `ReleaseStream::new`, reached through `stream`, which ignores its
        arguments. */
    constructor ()
      ensures Valid() && position == 0 && handedOut == []
    {
      position := 0;
      handedOut := [];
    }

    /** `next`: the next of the three releases, or nothing once they are
        gone; the position counts the releases handed out. */
    method Next() returns (r: Option<StreamedRelease>)
      requires Valid()
      modifies this
      ensures Valid()
      ensures (r, position) == NextSpec(old(position))
      ensures r.Some? ==> handedOut == old(handedOut) + [r.value]
      ensures r.None? ==> handedOut == old(handedOut) && position == 3
    {
      if position < 3 {
        position := position + 1;
        var item := StreamedRelease("R" + ZeroPad3(position), "Test Release " + NatToString(position), Some("Album"), 10);
        handedOut := handedOut + [item];
        r := Some(item);
      } else {
        r := None;
      }
    }

    /** `progress`: a thousand bytes per release handed out, a fixed 100 ms. */
    function Progress(): (p: ProgressInfo)
      reads this
      requires Valid()
      ensures p.releasesParsed == |handedOut| as real
      ensures p.bytesProcessed == 1000.0 * p.releasesParsed
      ensures p.elapsedMs == 100.0
    {
      ProgressInfo((position * 1000) as real, position as real, 100.0)
    }
  }
}
