/** The bookkeeping of the round-trip fidelity test suite (ddex-builder
    `tests/fidelity/mod.rs`): the record kept for each tested file, the suite
    that counts successes and failures and keeps a histogram of failure
    messages, the file-size buckets of the performance report, and the
    version detection used to label each file. */
module Fidelity {
  import opened Util
  import NodeParser

  /** `u64`: `as u64` keeps the low 64 bits. */
  function U64(n: nat): (r: nat)
    ensures r < 0x1_0000_0000_0000_0000
    ensures n < 0x1_0000_0000_0000_0000 ==> r == n
  {
    n % 0x1_0000_0000_0000_0000
  }

  // ------------------------------------------------------------- differences

  /** `ByteDifference`; the two bytes are `u8` values. */
  datatype ByteDifference = ByteDifference(position: nat, expected: bv8, actual: bv8, context: string)

  datatype AttributeDifferenceType = Missing | Added | ValueChanged | OrderChanged

  datatype AttributeDifference = AttributeDifference(
    elementPath: string,
    attributeName: string,
    expectedValue: Option<string>,
    actualValue: Option<string>,
    differenceType: AttributeDifferenceType)

  datatype StructureDifferenceType = MissingElement | ExtraElement | OrderChanged | ContentChanged | NamespaceChanged

  datatype StructureDifference = StructureDifference(
    elementPath: string,
    differenceType: StructureDifferenceType,
    description: string)

  // ---------------------------------------------------------------- a result

  /** The value of a `FidelityTestResult`: what the suite stores when the
      result is handed to it. */
  datatype TestRecord = TestRecord(
    testName: string,
    filePath: string,
    ernVersion: string,
    fileSizeBytes: nat,
    success: bool,
    roundTripSuccess: bool,
    modificationSuccess: bool,
    canonicalizationSuccess: bool,
    extensionPreservationSuccess: bool,
    commentPreservationSuccess: bool,
    parseTimeMs: nat,
    buildTimeMs: nat,
    totalTimeMs: nat,
    memoryPeakMb: real,
    errorMessage: Option<string>,
    byteDifferences: seq<ByteDifference>,
    attributeDifferences: seq<AttributeDifference>,
    structureDifferences: seq<StructureDifference>)

  /** The five category checks pass and no difference of any kind was
      recorded. */
  predicate AllChecksPass(r: TestRecord) {
    && r.roundTripSuccess && r.modificationSuccess && r.canonicalizationSuccess
    && r.extensionPreservationSuccess && r.commentPreservationSuccess
    && r.byteDifferences == [] && r.attributeDifferences == [] && r.structureDifferences == []
  }

  /** `FidelityTestResult`. */
  class FidelityTestResult {
    var testName: string
    var filePath: string
    var ernVersion: string
    var fileSizeBytes: nat
    var success: bool
    var roundTripSuccess: bool
    var modificationSuccess: bool
    var canonicalizationSuccess: bool
    var extensionPreservationSuccess: bool
    var commentPreservationSuccess: bool
    var parseTimeMs: nat
    var buildTimeMs: nat
    var totalTimeMs: nat
    var memoryPeakMb: real
    var errorMessage: Option<string>
    var byteDifferences: seq<ByteDifference>
    var attributeDifferences: seq<AttributeDifference>
    var structureDifferences: seq<StructureDifference>

    function Record(): TestRecord
      reads this
    {
      TestRecord(testName, filePath, ernVersion, fileSizeBytes, success, roundTripSuccess,
                 modificationSuccess, canonicalizationSuccess, extensionPreservationSuccess,
                 commentPreservationSuccess, parseTimeMs, buildTimeMs, totalTimeMs, memoryPeakMb,
                 errorMessage, byteDifferences, attributeDifferences, structureDifferences)
    }

    /** `FidelityTestResult::new`: the two names, an empty version, every
        flag false, every size and time zero, no error and no differences. */
    constructor (testName: string, filePath: string)
      ensures Record() == TestRecord(testName, filePath, "", 0, false, false, false, false, false, false,
                                     0, 0, 0, 0.0, None, [], [], [])
    {
      this.testName := testName;
      this.filePath := filePath;
      ernVersion := "";
      fileSizeBytes := 0;
      success := false;
      roundTripSuccess := false;
      modificationSuccess := false;
      canonicalizationSuccess := false;
      extensionPreservationSuccess := false;
      commentPreservationSuccess := false;
      parseTimeMs := 0;
      buildTimeMs := 0;
      totalTimeMs := 0;
      memoryPeakMb := 0.0;
      errorMessage := None;
      byteDifferences := [];
      attributeDifferences := [];
      structureDifferences := [];
    }

    /** `mark_success`: only the overall flag changes. */
    method MarkSuccess()
      modifies this
      ensures Record() == old(Record()).(success := true)
    {
      success := true;
    }

    /** `mark_failure`: the overall flag is cleared and the message kept,
        replacing any earlier one. */
    method MarkFailure(error: string)
      modifies this
      ensures Record() == old(Record()).(success := false, errorMessage := Some(error))
    {
      success := false;
      errorMessage := Some(error);
    }

    /** `add_timing`: both durations in whole milliseconds, cut to 64 bits,
        and their sum as the total. */
    method AddTiming(parseMillis: nat, buildMillis: nat)
      modifies this
      ensures Record() == old(Record()).(parseTimeMs := U64(parseMillis), buildTimeMs := U64(buildMillis),
                                         totalTimeMs := U64(parseMillis) + U64(buildMillis))
      ensures totalTimeMs == parseTimeMs + buildTimeMs
    {
      parseTimeMs := U64(parseMillis);
      buildTimeMs := U64(buildMillis);
      totalTimeMs := parseTimeMs + buildTimeMs;
    }

    /** `add_byte_difference`: one difference appended at the end. */
    method AddByteDifference(position: nat, expected: bv8, actual: bv8, context: string)
      modifies this
      ensures Record() == old(Record()).(byteDifferences := old(byteDifferences) + [ByteDifference(position, expected, actual, context)])
    {
      byteDifferences := byteDifferences + [ByteDifference(position, expected, actual, context)];
    }

    /** `add_attribute_difference`: appended at the end. */
    method AddAttributeDifference(diff: AttributeDifference)
      modifies this
      ensures Record() == old(Record()).(attributeDifferences := old(attributeDifferences) + [diff])
    {
      attributeDifferences := attributeDifferences + [diff];
    }

    /** `add_structure_difference`: appended at the end. */
    method AddStructureDifference(diff: StructureDifference)
      modifies this
      ensures Record() == old(Record()).(structureDifferences := old(structureDifferences) + [diff])
    {
      structureDifferences := structureDifferences + [diff];
    }

    /** `calculate_overall_success`: the overall flag becomes whether every
        check passed; nothing else changes. */
    method CalculateOverallSuccess()
      modifies this
      ensures Record() == old(Record()).(success := AllChecksPass(old(Record())))
    {
      success := roundTripSuccess && modificationSuccess && canonicalizationSuccess
        && extensionPreservationSuccess && commentPreservationSuccess
        && |byteDifferences| == 0 && |attributeDifferences| == 0 && |structureDifferences| == 0;
    }
  }

  // -------------------------------------------------------------- the suite

  /** Number of successful results. */
  function SuccessCount(rs: seq<TestRecord>): (n: nat)
    ensures n <= |rs|
  {
    if rs == [] then 0 else SuccessCount(rs[..|rs| - 1]) + (if rs[|rs| - 1].success then 1 else 0)
  }

  /** A failed result that carries a message feeds the histogram. */
  predicate FailedWith(r: TestRecord, message: string) {
    !r.success && r.errorMessage == Some(message)
  }

  /** Number of failed results whose message is `message`. */
  function MessageCount(rs: seq<TestRecord>, message: string): nat {
    if rs == [] then 0
    else MessageCount(rs[..|rs| - 1], message) + (if FailedWith(rs[|rs| - 1], message) then 1 else 0)
  }

  /** Number of failed results that carry a message of any kind. */
  function MessagedFailures(rs: seq<TestRecord>): (n: nat)
    ensures n <= |rs| - SuccessCount(rs)
  {
    if rs == [] then 0
    else
      var r := rs[|rs| - 1];
      MessagedFailures(rs[..|rs| - 1]) + (if !r.success && r.errorMessage.Some? then 1 else 0)
  }

  /** `*entry(key).or_insert(0) += 1`. */
  function Bump(m: map<string, nat>, key: string): (b: map<string, nat>)
    ensures key in b && b[key] == (if key in m then m[key] else 0) + 1
    ensures forall k :: k in m && k != key ==> k in b && b[k] == m[k]
    ensures b.Keys == m.Keys + {key}
  {
    m[key := if key in m then m[key] + 1 else 1]
  }

  /** The `error_patterns` map that the added results build up. */
  function ErrorHistogram(rs: seq<TestRecord>): map<string, nat> {
    if rs == [] then map[]
    else
      var r := rs[|rs| - 1];
      var m := ErrorHistogram(rs[..|rs| - 1]);
      if !r.success && r.errorMessage.Some? then Bump(m, r.errorMessage.value) else m
  }

  /** The sum of the counts in a histogram. */
  ghost function Total(m: map<string, nat>): nat
    decreases |m|
  {
    if m == map[] then 0
    else
      var k :| k in m;
      m[k] + Total(m - {k})
  }

  /** `FidelityTestSuite`, with the counters and collections that adding a
      result maintains. */
  class FidelityTestSuite {
    var startTime: string
    var totalFilesTested: nat
    var successCount: nat
    var failureCount: nat
    var results: seq<TestRecord>
    var errorPatterns: map<string, nat>

    /** The counters count the stored results, and the histogram is the one
        those results build up. */
    ghost predicate Valid()
      reads this
    {
      && totalFilesTested == |results|
      && successCount == SuccessCount(results)
      && successCount + failureCount == totalFilesTested
      && errorPatterns == ErrorHistogram(results)
    }

    /** `FidelityTestSuite::new`, with the clock reading as `startTime`:
        nothing tested, nothing counted. */
    constructor (startTime: string)
      ensures Valid()
      ensures this.startTime == startTime
      ensures totalFilesTested == 0 && successCount == 0 && failureCount == 0
      ensures results == [] && errorPatterns == map[]
    {
      this.startTime := startTime;
      totalFilesTested := 0;
      successCount := 0;
      failureCount := 0;
      results := [];
      errorPatterns := map[];
    }

    /** `add_result`: one more file tested; a success or a failure counted;
        a failure's message counted once more in the histogram; the result
        stored at the end. The suite keeps a copy, so later changes to the
        result object do not reach it. */
    method AddResult(result: FidelityTestResult)
      requires Valid()
      modifies this
      ensures Valid()
      ensures results == old(results) + [result.Record()]
      ensures totalFilesTested == old(totalFilesTested) + 1
      ensures successCount == old(successCount) + (if result.success then 1 else 0)
      ensures failureCount == old(failureCount) + (if result.success then 0 else 1)
      ensures startTime == old(startTime)
    {
      var record := result.Record();
      var before := results;
      totalFilesTested := totalFilesTested + 1;
      if record.success {
        successCount := successCount + 1;
      } else {
        failureCount := failureCount + 1;
        if record.errorMessage.Some? {
          var error := record.errorMessage.value;
          errorPatterns := errorPatterns[error := if error in errorPatterns then errorPatterns[error] + 1 else 1];
        }
      }
      results := before + [record];
      assert results[..|results| - 1] == before;
    }
  }

  // ------------------------------------------------------- histogram facts

  /** Each message's count in the histogram is the number of failed
      results carrying it, and a message appears exactly when some failed
      result carries it. */
  lemma {:induction false} HistogramCounts(rs: seq<TestRecord>, message: string)
    ensures message in ErrorHistogram(rs) <==> MessageCount(rs, message) > 0
    ensures message in ErrorHistogram(rs) ==> ErrorHistogram(rs)[message] == MessageCount(rs, message)
  {
    if rs != [] {
      HistogramCounts(rs[..|rs| - 1], message);
    }
  }

  /** Removing one key takes its count off the total, whichever key the
      total happened to start from. */
  lemma {:induction false} TotalRemove(m: map<string, nat>, key: string)
    requires key in m
    ensures Total(m) == m[key] + Total(m - {key})
    decreases |m|
  {
    var k :| k in m && Total(m) == m[k] + Total(m - {k});
    if k != key {
      TotalRemove(m - {k}, key);
      TotalRemove(m - {key}, k);
      assert m - {k} - {key} == m - {key} - {k};
    }
  }

  /** Counting one more occurrence adds one to the total. */
  lemma TotalBump(m: map<string, nat>, key: string)
    ensures Total(Bump(m, key)) == Total(m) + 1
  {
    var b := Bump(m, key);
    TotalRemove(b, key);
    if key in m {
      TotalRemove(m, key);
      assert b - {key} == m - {key};
    } else {
      assert b - {key} == m;
    }
  }

  /** Every failure with a message is counted once in the histogram, so its
      counts add up to at most the number of failures. */
  lemma {:induction false} HistogramTotal(rs: seq<TestRecord>)
    ensures Total(ErrorHistogram(rs)) == MessagedFailures(rs)
    ensures Total(ErrorHistogram(rs)) <= |rs| - SuccessCount(rs)
  {
    if rs != [] {
      var r := rs[|rs| - 1];
      HistogramTotal(rs[..|rs| - 1]);
      if !r.success && r.errorMessage.Some? {
        TotalBump(ErrorHistogram(rs[..|rs| - 1]), r.errorMessage.value);
      }
    }
  }

  /** In a consistent suite the histogram's counts add up to at most the
      failure count. */
  lemma PatternsBoundedByFailures(suite: FidelityTestSuite)
    requires suite.Valid()
    ensures Total(suite.errorPatterns) <= suite.failureCount
  {
    HistogramTotal(suite.results);
  }

  // ------------------------------------------------------------ size buckets

  const BUCKET_LABELS: seq<string> := ["0-10KB", "10-100KB", "100KB-1MB", "1-10MB", "10MB+"]

  /** The largest size of each bucket but the last. */
  const BUCKET_LIMITS: seq<nat> := [10_000, 100_000, 1_000_000, 10_000_000]

  /** The position of a file size among the five ranges of the performance
      report. */
  function BucketIndex(size: nat): (k: nat)
    ensures k < 5
  {
    if size <= 10_000 then 0
    else if size <= 100_000 then 1
    else if size <= 1_000_000 then 2
    else if size <= 10_000_000 then 3
    else 4
  }

  /** The bucket label of a file size. */
  function SizeBucket(size: nat): (tag: string)
    ensures tag in BUCKET_LABELS
  {
    BUCKET_LABELS[BucketIndex(size)]
  }

  /** Each size falls in exactly one range: the one whose bounds enclose it.
      The ranges are therefore disjoint and together cover every size. */
  lemma BucketRange(size: nat, k: nat)
    requires k < 5
    ensures BucketIndex(size) == k <==>
      (k == 0 || BUCKET_LIMITS[k - 1] < size) && (k == 4 || size <= BUCKET_LIMITS[k])
  {
  }

  /** A larger file never lands in a smaller bucket. */
  lemma BucketMonotone(a: nat, b: nat)
    requires a <= b
    ensures BucketIndex(a) <= BucketIndex(b)
  {
  }

  /** The five labels are distinct, so the label names the range. */
  lemma BucketLabelNamesRange(a: nat, b: nat)
    ensures SizeBucket(a) == SizeBucket(b) <==> BucketIndex(a) == BucketIndex(b)
  {
    var ka, kb := BucketIndex(a), BucketIndex(b);
    if ka != kb {
      assert BUCKET_LABELS[0][1] != BUCKET_LABELS[1][1] && BUCKET_LABELS[0][1] != BUCKET_LABELS[2][1];
      assert BUCKET_LABELS[1][2] != BUCKET_LABELS[3][2] && BUCKET_LABELS[1][2] != BUCKET_LABELS[4][2];
      assert BUCKET_LABELS[0][0] != BUCKET_LABELS[3][0] && BUCKET_LABELS[0][0] != BUCKET_LABELS[4][0];
      assert BUCKET_LABELS[2][2] != BUCKET_LABELS[3][2] && BUCKET_LABELS[2][3] != BUCKET_LABELS[4][3];
      assert BUCKET_LABELS[3][1] != BUCKET_LABELS[4][1];
    }
  }

  // -------------------------------------------------------- version labels

  /** `detect_ern_version`. */
  function DetectErnVersion(xml: string): (tag: string)
    ensures tag in ["ERN-3.8.2", "ERN-4.2", "ERN-4.3", "ERN-3.4.1", "Unknown"]
  {
    if Contains(xml, "ern/382") then "ERN-3.8.2"
    else if Contains(xml, "ern/42") then "ERN-4.2"
    else if Contains(xml, "ern/43") then "ERN-4.3"
    else if Contains(xml, "ern/341") then "ERN-3.4.1"
    else "Unknown"
  }

  /** The first fragment found, in the order ern/382, ern/42, ern/43,
      ern/341, decides the label; with none of them the label is
      "Unknown". */
  lemma DetectErnVersionFirstMatch(xml: string)
    ensures DetectErnVersion(xml) == "ERN-3.8.2" <==> Contains(xml, "ern/382")
    ensures DetectErnVersion(xml) == "ERN-4.2" <==> !Contains(xml, "ern/382") && Contains(xml, "ern/42")
    ensures DetectErnVersion(xml) == "ERN-4.3" <==>
      !Contains(xml, "ern/382") && !Contains(xml, "ern/42") && Contains(xml, "ern/43")
    ensures DetectErnVersion(xml) == "ERN-3.4.1" <==>
      !Contains(xml, "ern/382") && !Contains(xml, "ern/42") && !Contains(xml, "ern/43") && Contains(xml, "ern/341")
    ensures DetectErnVersion(xml) == "Unknown" <==>
      !Contains(xml, "ern/382") && !Contains(xml, "ern/42") && !Contains(xml, "ern/43") && !Contains(xml, "ern/341")
    ensures Contains(xml, "ern/382") && Contains(xml, "ern/43") ==> DetectErnVersion(xml) == "ERN-3.8.2"
  {
    assert "ERN-3.8.2"[6] != "ERN-3.4.1"[6] && "ERN-4.2"[6] != "ERN-4.3"[6];
    assert |"ERN-3.8.2"| != |"ERN-4.2"| && |"ERN-3.8.2"| != |"Unknown"|;
    assert |"ERN-3.4.1"| != |"ERN-4.3"| && |"ERN-3.4.1"| != |"Unknown"|;
    assert "ERN-4.2"[0] != "Unknown"[0] && "ERN-4.3"[0] != "Unknown"[0];
  }

  /** The fidelity label and the Node binding's `detect_version` check their
      fragments in different orders, so a document naming both ERN 3.8.2 and
      ERN 4.3 is labelled ERN-3.8.2 here and V4_3 by the binding. */
  lemma DetectorsDisagreeOnMixedDocument(xml: string)
    ensures Contains(xml, "ern/382") && Contains(xml, "ern/43") ==>
      DetectErnVersion(xml) == "ERN-3.8.2" && NodeParser.DetectVersion(xml) == "V4_3"
  {
    DetectErnVersionFirstMatch(xml);
    NodeParser.DetectVersionFirstMatch(xml);
  }
}
