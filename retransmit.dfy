/** `RetransmitData` (Analyzer/src/data.py): the optional retransmission log.
    Each line is `marker,/s/s/...[,/tx/...,/rx/...]`; the marker `F` flags a
    failed transmission. After parsing, the per-line counts are summarised by
    their maximum, minimum and a dense histogram. */
module Retransmission {
  import opened Wrappers
  import opened Errors
  import opened Text
  import opened Seqs

  const PathPrefix := "../result/retransmission_batch_"

  /** `line.split(',')`. */
  function Fields(line: string): seq<string>
  {
    Split(line, {','})
  }

  /** `field.split('/')[1:]`: every part but the one before the first `/`. */
  function AfterFirstSlash(field: string): seq<string>
  {
    Split(field, {'/'})[1..]
  }

  /** The five lists `parseFile` fills. */
  datatype RetransmitLog = RetransmitLog(
    failureCount: nat,
    step: seq<seq<string>>,
    txStep: seq<seq<string>>,
    rxStep: seq<seq<string>>,
    num: seq<int>)

  const EmptyLog := RetransmitLog(0, [], [], [], [])

  /** One line's contribution, given its comma-separated fields. */
  function AddLine(log: RetransmitLog, datas: seq<string>): RetransmitLog
    requires |datas| >= 2
  {
    RetransmitLog(
      if datas[0] == "F" then log.failureCount + 1 else log.failureCount,
      log.step + [AfterFirstSlash(datas[1])],
      log.txStep + [if |datas| == 4 then AfterFirstSlash(datas[2]) else []],
      log.rxStep + [if |datas| == 4 then AfterFirstSlash(datas[3]) else []],
      log.num + [|datas[1]| - 1])
  }

  /** The whole file; a line without a second field raises IndexError. */
  function ParseLog(lines: seq<string>): Result<RetransmitLog, Error>
  {
    if lines == [] then Success(EmptyLog)
    else
      var log :- ParseLog(lines[..|lines| - 1]);
      var datas := Fields(lines[|lines| - 1]);
      if |datas| < 2 then Failure(MissingToken(1)) else Success(AddLine(log, datas))
  }

  /** `[len([j for j in nums if i == j]) for i in range(n)]`. */
  function Histogram(nums: seq<int>, n: int): (h: seq<nat>)
    ensures |h| == if n > 0 then n else 0
    decreases n
  {
    if n <= 0 then [] else Histogram(nums, n - 1) + [Count(nums, n - 1)]
  }

  // ---------------------------------------------------------------------
  // Properties of the parsed log

  lemma PrefixOfSnoc(lines: seq<string>, line: string)
    ensures (lines + [line])[..|lines|] == lines && (lines + [line])[|lines|] == line
  {
  }

  /** A failure in a prefix is the failure of the whole file. */
  lemma {:induction false} FailureStops(lines: seq<string>, i: nat)
    requires i <= |lines| && ParseLog(lines[..i]).Failure?
    ensures ParseLog(lines) == ParseLog(lines[..i])
    decreases |lines| - i
  {
    if i < |lines| {
      assert lines[..i + 1][..i] == lines[..i];
      FailureStops(lines, i + 1);
    } else {
      assert lines[..i] == lines;
    }
  }

  /** The file parses exactly when every line has at least two fields. */
  lemma {:induction false} ParseLogSucceeds(lines: seq<string>)
    ensures ParseLog(lines).Success? <==> forall k :: 0 <= k < |lines| ==> |Fields(lines[k])| >= 2
    decreases |lines|
  {
    if lines != [] {
      var p := lines[..|lines| - 1];
      ParseLogSucceeds(p);
      assert forall k :: 0 <= k < |p| ==> p[k] == lines[k];
    }
  }

  /** `len([l for l in lines if l.split(',')[0] == "F"])`. */
  function FailedLines(lines: seq<string>): nat
  {
    if lines == [] then 0
    else FailedLines(lines[..|lines| - 1]) + if Fields(lines[|lines| - 1])[0] == "F" then 1 else 0
  }

  /** One step of `ParseLog`. */
  lemma ParseLogSnoc(lines: seq<string>, i: nat)
    requires i < |lines|
    ensures ParseLog(lines[..i + 1]) ==
      if ParseLog(lines[..i]).Failure? then ParseLog(lines[..i])
      else if |Fields(lines[i])| < 2 then Failure(MissingToken(1))
      else Success(AddLine(ParseLog(lines[..i]).value, Fields(lines[i])))
  {
    assert lines[..i + 1][..i] == lines[..i];
  }

  /** `retransmitFailureCount` is the number of lines whose first field is `F`. */
  lemma {:induction false} FailureCountIsFailedLines(lines: seq<string>)
    requires ParseLog(lines).Success?
    ensures ParseLog(lines).value.failureCount == FailedLines(lines)
    decreases |lines|
  {
    if lines != [] {
      FailureCountIsFailedLines(lines[..|lines| - 1]);
    }
  }

  /** Each list gets exactly one entry per line. */
  lemma {:induction false} OneEntryPerLine(lines: seq<string>)
    requires ParseLog(lines).Success?
    ensures var log := ParseLog(lines).value;
      |log.step| == |log.txStep| == |log.rxStep| == |log.num| == |lines|
    decreases |lines|
  {
    if lines != [] {
      OneEntryPerLine(lines[..|lines| - 1]);
    }
  }

  /** Entry `k` of each list is read from line `k` as the source reads it: the
      retry count is the character length of field 1 less one, and the tx/rx
      lists are read only from lines of exactly four fields. */
  lemma {:induction false} LogEntries(lines: seq<string>, k: nat)
    requires ParseLog(lines).Success? && k < |lines|
    ensures var log, datas := ParseLog(lines).value, Fields(lines[k]);
      && |datas| >= 2 && k < |log.step| && k < |log.txStep| && k < |log.rxStep| && k < |log.num|
      && log.step[k] == AfterFirstSlash(datas[1])
      && log.num[k] == |datas[1]| - 1
      && log.txStep[k] == (if |datas| == 4 then AfterFirstSlash(datas[2]) else [])
      && log.rxStep[k] == (if |datas| == 4 then AfterFirstSlash(datas[3]) else [])
    decreases |lines|
  {
    var p := lines[..|lines| - 1];
    OneEntryPerLine(p);
    if k < |p| {
      LogEntries(p, k);
      assert p[k] == lines[k];
    }
  }

  /** Every retry count is at least -1, and at least 0 when field 1 is not empty. */
  lemma {:induction false} RetryCountBounds(lines: seq<string>)
    requires ParseLog(lines).Success?
    ensures forall k :: 0 <= k < |ParseLog(lines).value.num| ==> ParseLog(lines).value.num[k] >= -1
    decreases |lines|
  {
    if lines != [] {
      RetryCountBounds(lines[..|lines| - 1]);
    }
  }

  /** A log of one line holds that line's entries. */
  lemma OneLine(line: string)
    requires |Fields(line)| >= 2
    ensures ParseLog([line]) == Success(AddLine(EmptyLog, Fields(line)))
  {
    assert [line][..0] == [];
  }

  lemma SuccessLineFields(line: string)
    requires line == "S,/0/3/7"
    ensures Fields(line) == ["S", "/0/3/7"]
  {
    assert Join(["S", "/0/3/7"], ',') == line;
    JoinSplit(["S", "/0/3/7"], ',');
  }

  lemma SuccessLineSteps(field: string)
    requires field == "/0/3/7"
    ensures AfterFirstSlash(field) == ["0", "3", "7"]
  {
    assert Join(["", "0", "3", "7"], '/') == field;
    JoinSplit(["", "0", "3", "7"], '/');
  }

  /** A success line with three retry steps. The count is the number of
      characters after the first, not the number of steps. */
  lemma SuccessLineExample(line: string)
    requires line == "S,/0/3/7"
    ensures ParseLog([line]) == Success(RetransmitLog(0, [["0", "3", "7"]], [[]], [[]], [5]))
  {
    SuccessLineFields(line);
    SuccessLineSteps(Fields(line)[1]);
    OneLine(line);
    var d := Fields(line);
    assert d[0] != "F";
    assert |d[1]| - 1 == 5;
    assert |d| != 4;
    assert AddLine(EmptyLog, d).step == [["0", "3", "7"]];
    assert AddLine(EmptyLog, d).num == [5];
    assert AddLine(EmptyLog, d).txStep == [[]];
    assert AddLine(EmptyLog, d).failureCount == 0;
  }

  lemma FailureLineFields(line: string)
    requires line == "F,/0/1,/0/5/9,/0/2/4"
    ensures Fields(line) == ["F", "/0/1", "/0/5/9", "/0/2/4"]
  {
    assert Join(["F", "/0/1", "/0/5/9", "/0/2/4"], ',') == line;
    JoinSplit(["F", "/0/1", "/0/5/9", "/0/2/4"], ',');
  }

  lemma FailureLineSteps(d: seq<string>)
    requires d == ["F", "/0/1", "/0/5/9", "/0/2/4"]
    ensures AfterFirstSlash(d[1]) == ["0", "1"]
    ensures AfterFirstSlash(d[2]) == ["0", "5", "9"]
    ensures AfterFirstSlash(d[3]) == ["0", "2", "4"]
  {
    assert Join(["", "0", "1"], '/') == d[1];
    JoinSplit(["", "0", "1"], '/');
    assert Join(["", "0", "5", "9"], '/') == d[2];
    JoinSplit(["", "0", "5", "9"], '/');
    assert Join(["", "0", "2", "4"], '/') == d[3];
    JoinSplit(["", "0", "2", "4"], '/');
  }

  /** A failed line with tx and rx lists: each keeps its leading `0` step. */
  lemma FailureLineExample(line: string)
    requires line == "F,/0/1,/0/5/9,/0/2/4"
    ensures ParseLog([line]) ==
      Success(RetransmitLog(1, [["0", "1"]], [["0", "5", "9"]], [["0", "2", "4"]], [3]))
  {
    FailureLineFields(line);
    FailureLineSteps(Fields(line));
    OneLine(line);
    var d := Fields(line);
    assert d[0] == "F";
    assert |d[1]| - 1 == 3;
    assert |d| == 4;
    assert AddLine(EmptyLog, d).step == [["0", "1"]];
    assert AddLine(EmptyLog, d).num == [3];
    assert AddLine(EmptyLog, d).txStep == [["0", "5", "9"]];
    assert AddLine(EmptyLog, d).rxStep == [["0", "2", "4"]];
    assert AddLine(EmptyLog, d).failureCount == 1;
  }

  // ---------------------------------------------------------------------
  // Properties of the histogram

  /** Bucket `i` holds the number of lines whose retry count is `i`. */
  lemma {:induction false} HistogramCounts(nums: seq<int>, n: int, i: nat)
    requires i < n
    ensures Histogram(nums, n)[i] == Count(nums, i)
    decreases n
  {
    if i < n - 1 {
      HistogramCounts(nums, n - 1, i);
    }
  }

  /** Sorting first does not change any bucket. */
  lemma SortedHistogram(nums: seq<int>, n: int)
    ensures Histogram(Sort(nums), n) == Histogram(nums, n)
  {
    var a, b := Histogram(Sort(nums), n), Histogram(nums, n);
    forall i | 0 <= i < |a| ensures a[i] == b[i] {
      HistogramCounts(Sort(nums), n, i);
      HistogramCounts(nums, n, i);
      CountIsMultiplicity(Sort(nums), i);
      CountIsMultiplicity(nums, i);
    }
  }

  /** The number of elements in `[0, n)`. */
  function CountBelow(nums: seq<int>, n: int): nat
  {
    if nums == [] then 0
    else CountBelow(nums[..|nums| - 1], n) + if 0 <= nums[|nums| - 1] < n then 1 else 0
  }

  lemma {:induction false} CountBelowStep(nums: seq<int>, n: nat)
    ensures CountBelow(nums, n + 1) == CountBelow(nums, n) + Count(nums, n)
    decreases |nums|
  {
    if nums != [] {
      CountBelowStep(nums[..|nums| - 1], n);
    }
  }

  /** The buckets below `n` hold the elements in `[0, n)`. */
  lemma {:induction false} HistogramSumBelow(nums: seq<int>, n: nat)
    ensures Sum(Histogram(nums, n)) == CountBelow(nums, n)
    decreases n
  {
    if n == 0 {
      CountBelowNone(nums);
    } else {
      HistogramSumBelow(nums, n - 1);
      CountBelowStep(nums, n - 1);
      SumAppend(Histogram(nums, n - 1), [Count(nums, n - 1)]);
      assert Sum([Count(nums, n - 1) as int]) == Count(nums, n - 1);
    }
  }

  lemma {:induction false} CountBelowNone(nums: seq<int>)
    ensures CountBelow(nums, 0) == 0
    decreases |nums|
  {
    if nums != [] {
      CountBelowNone(nums[..|nums| - 1]);
    }
  }

  lemma {:induction false} CountBelowAll(nums: seq<int>, n: int)
    requires forall k :: 0 <= k < |nums| ==> 0 <= nums[k] < n
    ensures CountBelow(nums, n) == |nums|
    decreases |nums|
  {
    if nums != [] {
      CountBelowAll(nums[..|nums| - 1], n);
    }
  }

  /** Conservation: with no negative count, the buckets `0..max` together hold
      every line. */
  lemma HistogramSum(nums: seq<int>)
    requires nums != [] && forall k :: 0 <= k < |nums| ==> nums[k] >= 0
    ensures Sum(Histogram(nums, Max(nums) + 1)) == |nums|
  {
    HistogramSumBelow(nums, Max(nums) + 1);
    CountBelowAll(nums, Max(nums) + 1);
  }

  // ---------------------------------------------------------------------
  // The object

  /** The values the constructor derives from the counts. */
  datatype Summary = Summary(maxNum: int, minNum: int, sortedNum: seq<int>, histogram: seq<nat>)

  /** `np.max`, `np.min`, `sorted` and the histogram of bucket `i` = number of
      lines with count `i`, for `i` in `range(max + 1)`. */
  function Summarize(nums: seq<int>): Summary
    requires nums != []
  {
    Summary(Max(nums), Min(nums), Sort(nums), Histogram(nums, Max(nums) + 1))
  }

  /** The constructor's statistics over the counts, the histogram built by
      counting in the sorted list as the source does. */
  method SummariseCounts(nums: seq<int>) returns (summary: Summary)
    requires nums != []
    ensures summary == Summarize(nums)
  {
    var top := Max(nums);
    var sorted := Sort(nums);
    var data := CountRetries(sorted, top + 1);
    SortedHistogram(nums, top + 1);
    summary := Summary(top, Min(nums), sorted, data);
  }

  /** The `retransmitNumData` loop: one bucket per count in `range(n)`. */
  method CountRetries(nums: seq<int>, n: int) returns (data: seq<nat>)
    ensures data == Histogram(nums, n)
  {
    data := [];
    var i := 0;
    while i < n
      invariant 0 <= i <= if n > 0 then n else 0
      invariant data == Histogram(nums, i)
    {
      data := data + [Count(nums, i)];
      i := i + 1;
    }
    assert data == Histogram(nums, n);
  }

  class RetransmitData {
    const fileName: string
    /** Whether the log existed; when it does not, the source sets no field. */
    var loaded: bool
    var retransmitFailureCount: nat
    var retransmitStep: seq<seq<string>>
    var retransmitTxStep: seq<seq<string>>
    var retransmitRxStep: seq<seq<string>>
    var retransmitNum: seq<int>
    var maxRetransmitNum: int
    var minRetransmitNum: int
    var retransmitNumData: seq<nat>

    /** The lists `parseFile` fills, as one value. */
    function Log(): RetransmitLog
      reads this
    {
      RetransmitLog(retransmitFailureCount, retransmitStep, retransmitTxStep, retransmitRxStep, retransmitNum)
    }

    constructor (outputFileName: string)
      ensures fileName == PathPrefix + outputFileName && !loaded
      ensures Log() == EmptyLog && retransmitNumData == []
    {
      fileName := PathPrefix + outputFileName;
      loaded := false;
      retransmitFailureCount, retransmitStep, retransmitTxStep, retransmitRxStep, retransmitNum := 0, [], [], [], [];
      maxRetransmitNum, minRetransmitNum, retransmitNumData := 0, 0, [];
    }

    /** The body of the `parseFile` loop for one line of at least two fields. */
    method AppendLine(datas: seq<string>)
      requires |datas| >= 2
      modifies this
      ensures Log() == AddLine(old(Log()), datas)
      ensures loaded == old(loaded) && retransmitNumData == old(retransmitNumData)
      ensures maxRetransmitNum == old(maxRetransmitNum) && minRetransmitNum == old(minRetransmitNum)
    {
      if datas[0] == "F" {
        retransmitFailureCount := retransmitFailureCount + 1;
      }
      retransmitStep := retransmitStep + [Split(datas[1], {'/'})[1..]];
      retransmitNum := retransmitNum + [|datas[1]| - 1];
      if |datas| == 4 {
        retransmitTxStep := retransmitTxStep + [Split(datas[2], {'/'})[1..]];
        retransmitRxStep := retransmitRxStep + [Split(datas[3], {'/'})[1..]];
      } else {
        retransmitTxStep := retransmitTxStep + [[]];
        retransmitRxStep := retransmitRxStep + [[]];
      }
    }

    /** `parseFile` over the lines of the log. */
    method ParseFile(lines: seq<string>) returns (err: Option<Error>)
      modifies this
      ensures err.None? <==> ParseLog(lines).Success?
      ensures err.None? ==> Log() == ParseLog(lines).value
      ensures err.Some? ==> ParseLog(lines) == Failure(err.value)
      ensures loaded == old(loaded) && retransmitNumData == old(retransmitNumData)
      ensures maxRetransmitNum == old(maxRetransmitNum) && minRetransmitNum == old(minRetransmitNum)
    {
      err := None;
      retransmitFailureCount, retransmitStep, retransmitTxStep, retransmitRxStep, retransmitNum := 0, [], [], [], [];
      var i := 0;
      while i < |lines|
        invariant 0 <= i <= |lines|
        invariant ParseLog(lines[..i]) == Success(Log()) && err.None?
        invariant loaded == old(loaded) && retransmitNumData == old(retransmitNumData)
        invariant maxRetransmitNum == old(maxRetransmitNum) && minRetransmitNum == old(minRetransmitNum)
      {
        ParseLogSnoc(lines, i);
        var datas := Fields(lines[i]);
        if |datas| < 2 {
          err := Some(MissingToken(1));
          FailureStops(lines, i + 1);
          return;
        }
        AppendLine(datas);
        i := i + 1;
      }
      assert lines[..i] == lines;
    }

    /** What the constructor derives from the counts, as one value. */
    function Derived(): Summary
      reads this
    {
      Summary(maxRetransmitNum, minRetransmitNum, retransmitNum, retransmitNumData)
    }

    /** The maximum and minimum count (`np.max` of an empty list raises), the
        counts sorted, and one histogram bucket for each count from 0 to the
        maximum. */
    method Summarise() returns (err: Option<Error>)
      modifies this
      ensures err.None? <==> old(retransmitNum) != []
      ensures err.Some? ==> err.value == EmptyData && unchanged(this)
      ensures err.None? ==> Derived() == Summarize(old(retransmitNum))
      ensures loaded == old(loaded) && retransmitFailureCount == old(retransmitFailureCount)
      ensures retransmitStep == old(retransmitStep)
      ensures retransmitTxStep == old(retransmitTxStep) && retransmitRxStep == old(retransmitRxStep)
    {
      var nums := retransmitNum;
      if nums == [] {
        return Some(EmptyData);
      }
      err := None;
      var summary := SummariseCounts(nums);
      SetDerived(summary);
    }

    /** The four fields the statistics are stored in. */
    method SetDerived(summary: Summary)
      modifies this
      ensures Derived() == summary
      ensures loaded == old(loaded) && retransmitFailureCount == old(retransmitFailureCount)
      ensures retransmitStep == old(retransmitStep)
      ensures retransmitTxStep == old(retransmitTxStep) && retransmitRxStep == old(retransmitRxStep)
    {
      maxRetransmitNum, minRetransmitNum := summary.maxNum, summary.minNum;
      retransmitNum, retransmitNumData := summary.sortedNum, summary.histogram;
    }

    /** The constructor's work once the path is known: nothing when the log is
        absent; otherwise `parseFile` and then `Summarise`. */
    method Load(files: FileSystem) returns (err: Option<Error>)
      modifies this
      ensures fileName !in files ==> err.None? && unchanged(this)
      ensures fileName in files ==>
        var parsed := ParseLog(files[fileName]);
        && (parsed.Failure? ==> err == Some(parsed.error))
        && (parsed.Success? && parsed.value.num == [] ==> err == Some(EmptyData))
        && (err.None? <==> parsed.Success? && parsed.value.num != [])
        && (err.None? ==>
          && loaded
          && Log() == parsed.value.(num := Sort(parsed.value.num))
          && Derived() == Summarize(parsed.value.num))
    {
      if fileName !in files {
        return None;
      }
      loaded := true;
      err := ParseFile(files[fileName]);
      if err.Some? {
        return;
      }
      err := Summarise();
    }
  }
}
