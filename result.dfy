/** `ResultData` (Analyzer/src/data.py): the mandatory result log, one step
    count per line, and its extremes. */
module Results {
  import opened Wrappers
  import opened Errors
  import opened Text
  import opened Seqs

  const PathPrefix := "../result/batch_"

  /** `int(line.strip())`. */
  function ReadStep(line: string): (r: Result<int, Error>)
    ensures r.Failure? ==> r == Failure(NotAnInteger(Strip(line)))
    ensures r.Success? ==> ParseInt(Strip(line)) == Some(r.value)
  {
    var token := Strip(line);
    match ParseInt(token)
    case None => Failure(NotAnInteger(token))
    case Some(v) => Success(v)
  }

  /** `np.array([line.strip() for line in f], dtype=int)`: one integer per line. */
  function ParseSteps(lines: seq<string>): (r: Result<seq<int>, Error>)
    ensures r.Success? ==> |r.value| == |lines|
  {
    if lines == [] then Success([])
    else
      var front :- ParseSteps(lines[..|lines| - 1]);
      var v :- ReadStep(lines[|lines| - 1]);
      Success(front + [v])
  }

  /** The lines of a log of the given step counts, one decimal number each. */
  function FormatSteps(steps: seq<int>): (lines: seq<string>)
    ensures |lines| == |steps|
  {
    if steps == [] then [] else FormatSteps(steps[..|steps| - 1]) + [IntToString(steps[|steps| - 1])]
  }

  /** A printed number has no surrounding whitespace to strip. */
  lemma StripNumber(n: int)
    ensures Strip(IntToString(n)) == IntToString(n)
  {
    var s := IntToString(n);
    var digits := NatToString(if n < 0 then -n else n);
    assert s[|s| - 1] == digits[|digits| - 1];
    assert IsDigit(s[|s| - 1]);
    assert s[0] == '-' || IsDigit(s[0]);
    StripTrimmed(s);
  }

  lemma ReadNumber(n: int)
    ensures ReadStep(IntToString(n)) == Success(n)
  {
    StripNumber(n);
    IntRoundTrip(n);
  }

  /** A number padded with whitespace on either side, as a line read from a
      file may be, reads as that number. */
  lemma ReadPadded(w1: string, n: int, w2: string)
    requires forall k :: 0 <= k < |w1| ==> IsSpace(w1[k])
    requires forall k :: 0 <= k < |w2| ==> IsSpace(w2[k])
    ensures ReadStep(w1 + IntToString(n) + w2) == Success(n)
  {
    var s := IntToString(n);
    var digits := NatToString(if n < 0 then -n else n);
    assert s[|s| - 1] == digits[|digits| - 1];
    assert IsDigit(s[|s| - 1]);
    assert s[0] == '-' || IsDigit(s[0]);
    StripPadded(w1, s, w2);
    IntRoundTrip(n);
  }

  lemma ParseStepsSnoc(lines: seq<string>, line: string, front: seq<int>, v: int)
    requires ParseSteps(lines) == Success(front) && ReadStep(line) == Success(v)
    ensures ParseSteps(lines + [line]) == Success(front + [v])
  {
    assert (lines + [line])[..|lines|] == lines;
  }

  /** Reading back a written log gives the step counts that were written. */
  lemma {:induction false} StepsRoundTrip(steps: seq<int>)
    ensures ParseSteps(FormatSteps(steps)) == Success(steps)
    decreases |steps|
  {
    if steps != [] {
      var p := steps[..|steps| - 1];
      var last := steps[|steps| - 1];
      var lines, line := FormatSteps(p), IntToString(last);
      StepsRoundTrip(p);
      ReadNumber(last);
      ParseStepsSnoc(lines, line, p, last);
      assert FormatSteps(steps) == lines + [line];
      assert steps == p + [last];
    }
  }

  /** Parsing succeeds exactly when every stripped line is an integer. */
  lemma {:induction false} ParseStepsSucceeds(lines: seq<string>)
    ensures ParseSteps(lines).Success? <==>
      forall k :: 0 <= k < |lines| ==> ReadStep(lines[k]).Success?
    decreases |lines|
  {
    if lines != [] {
      var p := lines[..|lines| - 1];
      ParseStepsSucceeds(p);
      assert forall k :: 0 <= k < |p| ==> p[k] == lines[k];
    }
  }

  /** The k-th step of a parsed log is the value of its k-th line. */
  lemma {:induction false} StepEntry(lines: seq<string>, k: nat)
    requires ParseSteps(lines).Success? && k < |lines|
    ensures ReadStep(lines[k]).Success? && ParseSteps(lines).value[k] == ReadStep(lines[k]).value
    decreases |lines|
  {
    var p := lines[..|lines| - 1];
    assert ParseSteps(lines).value == ParseSteps(p).value + [ReadStep(lines[|lines| - 1]).value];
    if k < |p| {
      StepEntry(p, k);
      assert p[k] == lines[k];
    }
  }

  /** Parsing succeeds exactly when every stripped line is an integer, and
      then the k-th step is the k-th line's value. */
  lemma {:induction false} ParseStepsLines(lines: seq<string>)
    ensures ParseSteps(lines).Success? <==>
      forall k :: 0 <= k < |lines| ==> ReadStep(lines[k]).Success?
    ensures ParseSteps(lines).Success? ==>
      forall k :: 0 <= k < |lines| ==> ParseSteps(lines).value[k] == ReadStep(lines[k]).value
  {
    ParseStepsSucceeds(lines);
    if ParseSteps(lines).Success? {
      forall k | 0 <= k < |lines| ensures ParseSteps(lines).value[k] == ReadStep(lines[k]).value {
        StepEntry(lines, k);
      }
    }
  }

  lemma {:induction false} FailureStops(lines: seq<string>, i: nat)
    requires i <= |lines| && ParseSteps(lines[..i]).Failure?
    ensures ParseSteps(lines) == ParseSteps(lines[..i])
    decreases |lines| - i
  {
    if i < |lines| {
      assert lines[..i + 1][..i] == lines[..i];
      FailureStops(lines, i + 1);
    } else {
      assert lines[..i] == lines;
    }
  }

  class ResultData {
    const fileName: string
    var steps: seq<int>
    var minStep: int
    var maxStep: int

    constructor (outputFileName: string)
      ensures fileName == PathPrefix + outputFileName && steps == []
    {
      fileName := PathPrefix + outputFileName;
      steps, minStep, maxStep := [], 0, 0;
    }

    /** `parseFile` over the lines of the log. */
    method ParseFile(lines: seq<string>) returns (err: Option<Error>)
      modifies this
      ensures err.None? <==> ParseSteps(lines).Success?
      ensures err.None? ==> steps == ParseSteps(lines).value
      ensures err.Some? ==> ParseSteps(lines) == Failure(err.value)
      ensures minStep == old(minStep) && maxStep == old(maxStep)
    {
      err := None;
      steps := [];
      var i := 0;
      while i < |lines|
        invariant 0 <= i <= |lines|
        invariant ParseSteps(lines[..i]) == Success(steps) && err.None?
        invariant minStep == old(minStep) && maxStep == old(maxStep)
      {
        assert lines[..i + 1][..i] == lines[..i];
        var v := ReadStep(lines[i]);
        if v.Failure? {
          err := Some(v.error);
          FailureStops(lines, i + 1);
          return;
        }
        steps := steps + [v.value];
        i := i + 1;
      }
      assert lines[..i] == lines;
    }

    /** The constructor's work once the path is known: the log must exist,
        parse, and hold at least one step for `np.min` and `np.max`. */
    method Load(files: FileSystem) returns (err: Option<Error>)
      modifies this
      ensures fileName !in files ==> err == Some(NoSuchFile(fileName))
      ensures fileName in files ==>
        var parsed := ParseSteps(files[fileName]);
        && (err.None? <==> parsed.Success? && parsed.value != [])
        && (parsed.Failure? ==> err == Some(parsed.error))
        && (parsed.Success? && parsed.value == [] ==> err == Some(EmptyData))
        && (err.None? ==> steps == parsed.value && minStep == Min(steps) && maxStep == Max(steps))
    {
      if fileName !in files {
        return Some(NoSuchFile(fileName));
      }
      err := ParseFile(files[fileName]);
      if err.Some? {
        return;
      }
      if steps == [] {
        return Some(EmptyData);
      }
      minStep := Min(steps);
      maxStep := Max(steps);
    }
  }
}
