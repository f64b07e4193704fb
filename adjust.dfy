/** `AdjustData` (Analyzer/src/data.py): the optional rate-adjustment log. Each
    line is a comma-separated list of `step/tx/rx` triples of integers; every
    line gives one list of steps, one of tx counts and one of rx counts. */
module Adjust {
  import opened Wrappers
  import opened Errors
  import opened Text

  const PathPrefix := "../result/adjust_batch_"

  datatype Triple = Triple(step: int, tx: int, rx: int)

  /** `step, tx, rx = group.split('/')` followed by the three `int()` calls:
      anything but exactly three parts fails the unpacking. */
  function ParseGroup(group: string): (r: Result<Triple, Error>)
    ensures r.Success? <==>
      var parts := Split(group, {'/'});
      |parts| == 3 && ParseInt(parts[0]).Some? && ParseInt(parts[1]).Some? && ParseInt(parts[2]).Some?
  {
    var parts := Split(group, {'/'});
    if |parts| != 3 then Failure(NotATriple(group))
    else
      var step :- IntAt(parts, 0);
      var tx :- IntAt(parts, 1);
      var rx :- IntAt(parts, 2);
      Success(Triple(step, tx, rx))
  }

  /** The three lists one line contributes. */
  datatype AdjustLine = AdjustLine(steps: seq<int>, tx: seq<int>, rx: seq<int>)

  /** The groups of one line, in order. */
  function ParseGroups(groups: seq<string>): (r: Result<AdjustLine, Error>)
    ensures r.Success? ==> |r.value.steps| == |r.value.tx| == |r.value.rx| == |groups|
  {
    if groups == [] then Success(AdjustLine([], [], []))
    else
      var front :- ParseGroups(groups[..|groups| - 1]);
      var t :- ParseGroup(groups[|groups| - 1]);
      Success(AdjustLine(front.steps + [t.step], front.tx + [t.tx], front.rx + [t.rx]))
  }

  /** One line of the file: `line.split(',')`, then each group. */
  function ParseLine(line: string): (r: Result<AdjustLine, Error>)
    ensures r.Success? ==> |r.value.steps| == |Split(line, {','})|
  {
    ParseGroups(Split(line, {','}))
  }

  /** The three lists `parseFile` fills, one entry per line. */
  datatype AdjustLog = AdjustLog(adjustStep: seq<seq<int>>, adjustNumTx: seq<seq<int>>, adjustNumRx: seq<seq<int>>)

  function ParseLog(lines: seq<string>): (r: Result<AdjustLog, Error>)
    ensures r.Success? ==>
      |r.value.adjustStep| == |r.value.adjustNumTx| == |r.value.adjustNumRx| == |lines|
  {
    if lines == [] then Success(AdjustLog([], [], []))
    else
      var log :- ParseLog(lines[..|lines| - 1]);
      var line :- ParseLine(lines[|lines| - 1]);
      Success(AdjustLog(log.adjustStep + [line.steps], log.adjustNumTx + [line.tx], log.adjustNumRx + [line.rx]))
  }

  /** A line parses exactly when each of its groups does. */
  lemma {:induction false} ParseGroupsSucceeds(groups: seq<string>)
    ensures ParseGroups(groups).Success? <==> forall i :: 0 <= i < |groups| ==> ParseGroup(groups[i]).Success?
    decreases |groups|
  {
    if groups != [] {
      var p := groups[..|groups| - 1];
      ParseGroupsSucceeds(p);
      assert forall i :: 0 <= i < |p| ==> p[i] == groups[i];
    }
  }

  /** Element `i` of each list is the matching field of group `i`. */
  lemma {:induction false} GroupEntry(groups: seq<string>, i: nat)
    requires ParseGroups(groups).Success? && i < |groups|
    ensures ParseGroup(groups[i]).Success?
    ensures var line, g := ParseGroups(groups).value, ParseGroup(groups[i]).value;
      line.steps[i] == g.step && line.tx[i] == g.tx && line.rx[i] == g.rx
    decreases |groups|
  {
    var p := groups[..|groups| - 1];
    if i < |p| {
      GroupEntry(p, i);
      assert p[i] == groups[i];
    }
  }

  /** A line parses exactly when each of its groups does, and element `i` of
      each list is the matching field of group `i`. */
  lemma {:induction false} ParseGroupsContents(groups: seq<string>)
    ensures ParseGroups(groups).Success? <==> forall i :: 0 <= i < |groups| ==> ParseGroup(groups[i]).Success?
    ensures ParseGroups(groups).Success? ==>
      var line := ParseGroups(groups).value;
      forall i :: 0 <= i < |groups| ==>
        && line.steps[i] == ParseGroup(groups[i]).value.step
        && line.tx[i] == ParseGroup(groups[i]).value.tx
        && line.rx[i] == ParseGroup(groups[i]).value.rx
  {
    ParseGroupsSucceeds(groups);
    if ParseGroups(groups).Success? {
      forall i | 0 <= i < |groups|
        ensures ParseGroup(groups[i]).Success?
        ensures var line, g := ParseGroups(groups).value, ParseGroup(groups[i]).value;
          line.steps[i] == g.step && line.tx[i] == g.tx && line.rx[i] == g.rx
      {
        GroupEntry(groups, i);
      }
    }
  }

  /** One more line: an earlier failure stands, a failing line fails, and
      otherwise the line's three lists are appended. */
  lemma ParseLogSnoc(lines: seq<string>)
    requires lines != []
    ensures var p, last := lines[..|lines| - 1], ParseLine(lines[|lines| - 1]);
      ParseLog(lines) ==
        if ParseLog(p).Failure? then ParseLog(p)
        else if last.Failure? then Failure(last.error)
        else Success(AdjustLog(
          ParseLog(p).value.adjustStep + [last.value.steps],
          ParseLog(p).value.adjustNumTx + [last.value.tx],
          ParseLog(p).value.adjustNumRx + [last.value.rx]))
  {
  }

  /** The file parses exactly when each of its lines does. */
  lemma {:induction false} ParseLogSucceeds(lines: seq<string>)
    ensures ParseLog(lines).Success? <==> forall k :: 0 <= k < |lines| ==> ParseLine(lines[k]).Success?
    decreases |lines|
  {
    if lines != [] {
      var p := lines[..|lines| - 1];
      ParseLogSucceeds(p);
      ParseLogSnoc(lines);
      assert forall k :: 0 <= k < |p| ==> p[k] == lines[k];
    }
  }

  /** Entry `k` of the three lists is line `k`'s lists. */
  lemma {:induction false} LogEntry(lines: seq<string>, k: nat)
    requires ParseLog(lines).Success? && k < |lines|
    ensures ParseLine(lines[k]).Success?
    ensures var log, line := ParseLog(lines).value, ParseLine(lines[k]).value;
      && log.adjustStep[k] == line.steps
      && log.adjustNumTx[k] == line.tx
      && log.adjustNumRx[k] == line.rx
    decreases |lines|
  {
    var p := lines[..|lines| - 1];
    ParseLogSnoc(lines);
    if k < |p| {
      LogEntry(p, k);
      assert p[k] == lines[k];
    }
  }

  /** The file parses exactly when each line's comma groups do, and entry `k`
      of the three lists is line `k`'s lists, one element per group. */
  lemma {:induction false} ParseLogLines(lines: seq<string>)
    ensures ParseLog(lines).Success? <==> forall k :: 0 <= k < |lines| ==> ParseLine(lines[k]).Success?
    ensures ParseLog(lines).Success? ==>
      var log := ParseLog(lines).value;
      forall k :: 0 <= k < |lines| ==>
        && log.adjustStep[k] == ParseLine(lines[k]).value.steps
        && log.adjustNumTx[k] == ParseLine(lines[k]).value.tx
        && log.adjustNumRx[k] == ParseLine(lines[k]).value.rx
        && |log.adjustStep[k]| == |Split(lines[k], {','})|
  {
    ParseLogSucceeds(lines);
    if ParseLog(lines).Success? {
      var log := ParseLog(lines).value;
      forall k | 0 <= k < |lines|
        ensures log.adjustStep[k] == ParseLine(lines[k]).value.steps
        ensures log.adjustNumTx[k] == ParseLine(lines[k]).value.tx
        ensures log.adjustNumRx[k] == ParseLine(lines[k]).value.rx
      {
        LogEntry(lines, k);
      }
    }
  }

  // ---------------------------------------------------------------------
  // Writing a line, and reading it back

  function FormatGroup(t: Triple): string
  {
    Join([IntToString(t.step), IntToString(t.tx), IntToString(t.rx)], '/')
  }

  function FormatGroups(ts: seq<Triple>): (r: seq<string>)
    ensures |r| == |ts|
  {
    if ts == [] then [] else FormatGroups(ts[..|ts| - 1]) + [FormatGroup(ts[|ts| - 1])]
  }

  /** A line of triples as the simulator writes it. */
  function FormatLine(ts: seq<Triple>): string
  {
    Join(FormatGroups(ts), ',')
  }

  /** The lists of the line: the steps, the tx counts and the rx counts, in order. */
  function Unzip(ts: seq<Triple>): AdjustLine
  {
    if ts == [] then AdjustLine([], [], [])
    else
      var front := Unzip(ts[..|ts| - 1]);
      var t := ts[|ts| - 1];
      AdjustLine(front.steps + [t.step], front.tx + [t.tx], front.rx + [t.rx])
  }

  /** A printed triple reads back as itself. */
  lemma GroupRoundTrip(t: Triple)
    ensures ParseGroup(FormatGroup(t)) == Success(t)
    ensures Free(FormatGroup(t), {','})
  {
    var parts := [IntToString(t.step), IntToString(t.tx), IntToString(t.rx)];
    JoinSplit(parts, '/');
    IntRoundTrip(t.step);
    IntRoundTrip(t.tx);
    IntRoundTrip(t.rx);
    assert forall i :: 0 <= i < 3 ==> Free(parts[i], Delims);
    JoinFree(parts, '/', {','});
  }

  lemma {:induction false} GroupsRoundTrip(ts: seq<Triple>)
    ensures ParseGroups(FormatGroups(ts)) == Success(Unzip(ts))
    decreases |ts|
  {
    if ts != [] {
      var p := ts[..|ts| - 1];
      GroupsRoundTrip(p);
      GroupRoundTrip(ts[|ts| - 1]);
      var g := FormatGroups(ts);
      assert g[..|g| - 1] == FormatGroups(p);
    }
  }

  lemma {:induction false} FormatGroupsFree(ts: seq<Triple>)
    ensures forall i :: 0 <= i < |FormatGroups(ts)| ==> Free(FormatGroups(ts)[i], {','})
    decreases |ts|
  {
    if ts != [] {
      FormatGroupsFree(ts[..|ts| - 1]);
      GroupRoundTrip(ts[|ts| - 1]);
    }
  }

  /** Reading a written line gives back its steps, tx and rx counts. A line
      with no triple at all is the empty string, which has no triple to read. */
  lemma LineRoundTrip(ts: seq<Triple>)
    requires ts != []
    ensures ParseGroups(Split(FormatLine(ts), {','})) == Success(Unzip(ts))
  {
    FormatGroupsFree(ts);
    JoinSplit(FormatGroups(ts), ',');
    GroupsRoundTrip(ts);
  }

  /** A group that does not split into exactly three parts fails the line. */
  lemma {:induction false} BadGroupFails(groups: seq<string>, k: nat)
    requires k < |groups| && |Split(groups[k], {'/'})| != 3
    ensures ParseGroups(groups).Failure?
    decreases |groups|
  {
    var p := groups[..|groups| - 1];
    if k < |p| {
      assert p[k] == groups[k];
      BadGroupFails(p, k);
    }
  }

  // ---------------------------------------------------------------------
  // The object

  lemma {:induction false} GroupsStop(groups: seq<string>, i: nat)
    requires i <= |groups| && ParseGroups(groups[..i]).Failure?
    ensures ParseGroups(groups) == ParseGroups(groups[..i])
    decreases |groups| - i
  {
    if i < |groups| {
      assert groups[..i + 1][..i] == groups[..i];
      GroupsStop(groups, i + 1);
    } else {
      assert groups[..i] == groups;
    }
  }

  lemma {:induction false} FailureStops(lines: seq<string>, i: nat)
    requires i <= |lines| && ParseLog(lines[..i]).Failure?
    ensures ParseLog(lines) == ParseLog(lines[..i])
    decreases |lines| - i
  {
    if i < |lines| {
      assert lines[..i + 1][..i] == lines[..i];
      FailureStops(lines, i + 1);
    } else {
      assert lines[..i] == lines;
    }
  }

  /** The inner loop of `parseFile`: the groups of one line into three local lists. */
  method ReadGroups(datas: seq<string>) returns (r: Result<AdjustLine, Error>)
    ensures r == ParseGroups(datas)
  {
    var steps, adjustTx, adjustRx := [], [], [];
    var i := 0;
    while i < |datas|
      invariant 0 <= i <= |datas|
      invariant ParseGroups(datas[..i]) == Success(AdjustLine(steps, adjustTx, adjustRx))
    {
      assert datas[..i + 1][..i] == datas[..i];
      var t := ParseGroup(datas[i]);
      if t.Failure? {
        GroupsStop(datas, i + 1);
        return Failure(t.error);
      }
      steps := steps + [t.value.step];
      adjustTx := adjustTx + [t.value.tx];
      adjustRx := adjustRx + [t.value.rx];
      i := i + 1;
    }
    assert datas[..i] == datas;
    r := Success(AdjustLine(steps, adjustTx, adjustRx));
  }

  class AdjustData {
    const fileName: string
    /** Whether the log existed; when it does not, the source sets no field. */
    var loaded: bool
    var adjustStep: seq<seq<int>>
    var adjustNumTx: seq<seq<int>>
    var adjustNumRx: seq<seq<int>>

    function Log(): AdjustLog
      reads this
    {
      AdjustLog(adjustStep, adjustNumTx, adjustNumRx)
    }

    constructor (outputFileName: string)
      ensures fileName == PathPrefix + outputFileName && !loaded && Log() == AdjustLog([], [], [])
    {
      fileName := PathPrefix + outputFileName;
      loaded := false;
      adjustStep, adjustNumTx, adjustNumRx := [], [], [];
    }

    /** `parseFile` over the lines of the log. */
    method ParseFile(lines: seq<string>) returns (err: Option<Error>)
      modifies this
      ensures err.None? <==> ParseLog(lines).Success?
      ensures err.None? ==> Log() == ParseLog(lines).value
      ensures err.Some? ==> ParseLog(lines) == Failure(err.value)
      ensures loaded == old(loaded)
    {
      err := None;
      adjustStep, adjustNumTx, adjustNumRx := [], [], [];
      var i := 0;
      while i < |lines|
        invariant 0 <= i <= |lines|
        invariant ParseLog(lines[..i]) == Success(Log()) && err.None? && loaded == old(loaded)
      {
        assert lines[..i + 1][..i] == lines[..i];
        var line := ReadGroups(Split(lines[i], {','}));
        if line.Failure? {
          err := Some(line.error);
          FailureStops(lines, i + 1);
          return;
        }
        adjustStep := adjustStep + [line.value.steps];
        adjustNumTx := adjustNumTx + [line.value.tx];
        adjustNumRx := adjustNumRx + [line.value.rx];
        i := i + 1;
      }
      assert lines[..i] == lines;
    }

    /** The constructor's work once the path is known: nothing when the log is
        absent, `parseFile` otherwise. */
    method Load(files: FileSystem) returns (err: Option<Error>)
      modifies this
      ensures fileName !in files ==> err.None? && unchanged(this)
      ensures fileName in files ==>
        && (err.None? <==> ParseLog(files[fileName]).Success?)
        && (err.None? ==> loaded && Log() == ParseLog(files[fileName]).value)
        && (err.Some? ==> ParseLog(files[fileName]) == Failure(err.value))
    {
      if fileName !in files {
        return None;
      }
      loaded := true;
      err := ParseFile(files[fileName]);
    }
  }
}
