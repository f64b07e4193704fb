/** `CollisionData` (Analyzer/src/data.py): the optional collision log. Each
    line is `s/s/...,aa/ai/an/ii/in`: the `/`-separated collision steps, then
    five sub-counts. The nonzero steps of all lines, sorted, are what the
    collision histogram is drawn from. */
module Collision {
  import opened Wrappers
  import opened Errors
  import opened Text
  import opened Seqs

  const PathPrefix := "../result/collision_batch_"

  /** How many `/`-separated sub-counts `appendCollision` reads. */
  const SubCounts := 5

  /** One line: the step tokens of field 0, once field 1 has been checked to
      hold the five sub-counts that `appendCollision` indexes. */
  function ParseLine(line: string): (r: Result<seq<string>, Error>)
    ensures |Split(line, {','})| < 2 ==> r == Failure(MissingToken(1))
    ensures r.Success? ==> |Split(Split(line, {','})[1], {'/'})| >= SubCounts
    ensures r.Success? ==> r.value != [] && Join(r.value, '/') == Split(line, {','})[0]
  {
    var datas := Split(line, {','});
    if |datas| < 2 then Failure(MissingToken(1))
    else if |Split(datas[1], {'/'})| < SubCounts then Failure(MissingToken(SubCounts - 1))
    else
      SplitJoin(datas[0], '/');
      Success(Split(datas[0], {'/'}))
  }

  /** A line without a comma has no sub-count field: `datas[1]` raises IndexError. */
  lemma NoCommaFails(line: string)
    requires Free(line, {','})
    ensures ParseLine(line) == Failure(MissingToken(1))
  {
    SplitFree(line, {','});
  }

  /** A line written as steps, a comma and at least five sub-counts reads back
      as its steps. */
  lemma LineRoundTrip(steps: seq<string>, subs: seq<string>)
    requires steps != [] && |subs| >= SubCounts
    requires forall i :: 0 <= i < |steps| ==> Free(steps[i], {',', '/'})
    requires forall i :: 0 <= i < |subs| ==> Free(subs[i], {',', '/'})
    ensures ParseLine(Join(steps, '/') + "," + Join(subs, '/')) == Success(steps)
  {
    var a, b := Join(steps, '/'), Join(subs, '/');
    assert forall i :: 0 <= i < |steps| ==> Free(steps[i], {','}) && Free(steps[i], {'/'});
    assert forall i :: 0 <= i < |subs| ==> Free(subs[i], {','}) && Free(subs[i], {'/'});
    JoinFree(steps, '/', {','});
    JoinFree(subs, '/', {','});
    SplitAround(a, ',', b, {','});
    assert a + "," + b == a + [','] + b;
    SplitFree(a, {','});
    SplitFree(b, {','});
    JoinSplit(steps, '/');
    JoinSplit(subs, '/');
  }

  /** `collisionStep` after `parseFile`: one list of step tokens per line. */
  function ParseLog(lines: seq<string>): Result<seq<seq<string>>, Error>
  {
    if lines == [] then Success([])
    else
      var steps :- ParseLog(lines[..|lines| - 1]);
      var tokens :- ParseLine(lines[|lines| - 1]);
      Success(steps + [tokens])
  }

  /** `[int(j) for j in tokens if int(j) != 0]`: every token must be an
      integer; the zeros are dropped. */
  function NonzeroSteps(tokens: seq<string>): (r: Result<seq<int>, Error>)
  {
    if tokens == [] then Success([])
    else
      var front :- NonzeroSteps(tokens[..|tokens| - 1]);
      var last := tokens[|tokens| - 1];
      match ParseInt(last)
      case None => Failure(NotAnInteger(last))
      case Some(v) => Success(if v != 0 then front + [v] else front)
  }

  /** `collisionAllStep`: the nonzero steps of every line, line by line. */
  function AllSteps(groups: seq<seq<string>>): Result<seq<int>, Error>
  {
    if groups == [] then Success([])
    else
      var front :- AllSteps(groups[..|groups| - 1]);
      var more :- NonzeroSteps(groups[|groups| - 1]);
      Success(front + more)
  }

  // ---------------------------------------------------------------------
  // Properties

  /** A failure in a prefix is the failure of the whole file. */
  lemma {:induction false} FailureStops(lines: seq<string>, i: nat)
    requires i <= |lines| && ParseLog(lines[..i]).Failure?
    ensures ParseLog(lines) == ParseLog(lines[..i])
    decreases |lines| - i
  {
    if i < |lines| {
      assert lines[..i + 1][..i] == lines[..i];
      FailureStops(lines, i + 1);
    } else {
      assert lines[..i] == lines;
    }
  }

  lemma ParseLogSnoc(lines: seq<string>, i: nat)
    requires i < |lines|
    ensures ParseLog(lines[..i + 1]) ==
      if ParseLog(lines[..i]).Failure? then ParseLog(lines[..i])
      else if ParseLine(lines[i]).Failure? then Failure(ParseLine(lines[i]).error)
      else Success(ParseLog(lines[..i]).value + [ParseLine(lines[i]).value])
  {
    assert lines[..i + 1][..i] == lines[..i];
  }

  /** The file parses exactly when every line has a second field of at least
      five sub-counts; then entry `k` is the split step field of line `k`. */
  lemma {:induction false} ParseLogLines(lines: seq<string>)
    ensures ParseLog(lines).Success? <==> forall k :: 0 <= k < |lines| ==> ParseLine(lines[k]).Success?
    ensures ParseLog(lines).Success? ==>
      |ParseLog(lines).value| == |lines| &&
      forall k :: 0 <= k < |lines| ==> ParseLog(lines).value[k] == ParseLine(lines[k]).value
    decreases |lines|
  {
    if lines != [] {
      var p := lines[..|lines| - 1];
      ParseLogLines(p);
      assert forall k :: 0 <= k < |p| ==> p[k] == lines[k];
    }
  }

  /** A line's steps parse exactly when every token is an integer. */
  lemma {:induction false} NonzeroStepsParse(tokens: seq<string>)
    ensures NonzeroSteps(tokens).Success? <==> forall k :: 0 <= k < |tokens| ==> ParseInt(tokens[k]).Some?
    decreases |tokens|
  {
    if tokens != [] {
      var p := tokens[..|tokens| - 1];
      NonzeroStepsParse(p);
      assert forall k :: 0 <= k < |p| ==> p[k] == tokens[k];
    }
  }

  /** The kept steps of one line are exactly its nonzero integer tokens, in order. */
  lemma {:induction false} NonzeroStepsMembers(tokens: seq<string>)
    ensures NonzeroSteps(tokens).Success? ==>
      forall v :: v in NonzeroSteps(tokens).value <==>
        v != 0 && exists k :: 0 <= k < |tokens| && ParseInt(tokens[k]) == Some(v)
    decreases |tokens|
  {
    NonzeroStepsParse(tokens);
    if tokens != [] && NonzeroSteps(tokens).Success? {
      var p, last := tokens[..|tokens| - 1], tokens[|tokens| - 1];
      NonzeroStepsMembers(p);
      var front, w := NonzeroSteps(p).value, ParseInt(last).value;
      assert NonzeroSteps(tokens).value == if w != 0 then front + [w] else front;
      forall v
        ensures v in NonzeroSteps(tokens).value <==>
          v != 0 && exists k :: 0 <= k < |tokens| && ParseInt(tokens[k]) == Some(v)
      {
        if v != 0 && w != v {
          if exists k :: 0 <= k < |tokens| && ParseInt(tokens[k]) == Some(v) {
            var k :| 0 <= k < |tokens| && ParseInt(tokens[k]) == Some(v);
            assert k < |p| && ParseInt(p[k]) == Some(v);
          }
        }
        if v != 0 && w == v {
          assert ParseInt(tokens[|tokens| - 1]) == Some(v);
        }
      }
    }
  }

  /** A zero never reaches `collisionAllStep`. */
  lemma {:induction false} AllStepsNonzero(groups: seq<seq<string>>)
    requires AllSteps(groups).Success?
    ensures forall k :: 0 <= k < |AllSteps(groups).value| ==> AllSteps(groups).value[k] != 0
    decreases |groups|
  {
    if groups != [] {
      AllStepsNonzero(groups[..|groups| - 1]);
      var more := NonzeroSteps(groups[|groups| - 1]).value;
      NonzeroStepsMembers(groups[|groups| - 1]);
      assert forall k :: 0 <= k < |more| ==> more[k] in more;
    }
  }

  /** Every integer token of every line that is not zero is kept. */
  lemma {:induction false} AllStepsKeep(groups: seq<seq<string>>, i: nat, k: nat)
    requires AllSteps(groups).Success? && i < |groups| && k < |groups[i]|
    requires ParseInt(groups[i][k]).Some? && ParseInt(groups[i][k]).value != 0
    ensures ParseInt(groups[i][k]).value in AllSteps(groups).value
    decreases |groups|
  {
    var p := groups[..|groups| - 1];
    if i < |p| {
      assert p[i] == groups[i];
      AllStepsKeep(p, i, k);
    } else {
      NonzeroStepsMembers(groups[i]);
    }
  }

  // ---------------------------------------------------------------------
  // The object

  /** The comprehension loop of the constructor: `extend` with the nonzero
      steps of each line in turn. */
  method CollectSteps(groups: seq<seq<string>>) returns (r: Result<seq<int>, Error>)
    ensures r == AllSteps(groups)
  {
    var all := [];
    var i := 0;
    while i < |groups|
      invariant 0 <= i <= |groups|
      invariant AllSteps(groups[..i]) == Success(all)
    {
      assert groups[..i + 1][..i] == groups[..i];
      var tokens := groups[i];
      var kept := [];
      var k := 0;
      while k < |tokens|
        invariant 0 <= k <= |tokens|
        invariant NonzeroSteps(tokens[..k]) == Success(kept)
      {
        assert tokens[..k + 1][..k] == tokens[..k];
        var v := ParseInt(tokens[k]);
        if v.None? {
          NonzeroStepsStop(tokens, k + 1);
          AllStepsStop(groups, i);
          return Failure(NotAnInteger(tokens[k]));
        }
        if v.value != 0 {
          kept := kept + [v.value];
        }
        k := k + 1;
      }
      assert tokens[..k] == tokens;
      all := all + kept;
      i := i + 1;
    }
    assert groups[..i] == groups;
    r := Success(all);
  }

  lemma {:induction false} NonzeroStepsStop(tokens: seq<string>, i: nat)
    requires i <= |tokens| && NonzeroSteps(tokens[..i]).Failure?
    ensures NonzeroSteps(tokens) == NonzeroSteps(tokens[..i])
    decreases |tokens| - i
  {
    if i < |tokens| {
      assert tokens[..i + 1][..i] == tokens[..i];
      NonzeroStepsStop(tokens, i + 1);
    } else {
      assert tokens[..i] == tokens;
    }
  }

  /** A line whose tokens fail makes every longer list of lines fail the same way. */
  lemma {:induction false} AllStepsStop(groups: seq<seq<string>>, i: nat)
    requires i < |groups| && AllSteps(groups[..i]).Success? && NonzeroSteps(groups[i]).Failure?
    ensures AllSteps(groups) == Failure(NonzeroSteps(groups[i]).error)
    decreases |groups| - i
  {
    assert groups[..i + 1][..i] == groups[..i];
    AllStepsFailure(groups, i + 1);
  }

  lemma {:induction false} AllStepsFailure(groups: seq<seq<string>>, i: nat)
    requires i <= |groups| && AllSteps(groups[..i]).Failure?
    ensures AllSteps(groups) == AllSteps(groups[..i])
    decreases |groups| - i
  {
    if i < |groups| {
      assert groups[..i + 1][..i] == groups[..i];
      AllStepsFailure(groups, i + 1);
    } else {
      assert groups[..i] == groups;
    }
  }

  /** The derived values the constructor adds to the parsed log. */
  datatype Summary = Summary(allStep: seq<int>, numData: seq<int>, sum: nat)

  /** `collisionAllStep`, `collisionNumData = sorted(...)` and `collisionSum`. */
  function Summarize(groups: seq<seq<string>>): Result<Summary, Error>
  {
    var all :- AllSteps(groups);
    Success(Summary(all, Sort(all), |all|))
  }

  class CollisionData {
    const fileName: string
    /** Whether the log existed; when it does not, the source sets no field. */
    var loaded: bool
    var collisionStep: seq<seq<string>>
    var collisionAllStep: seq<int>
    var collisionNumData: seq<int>
    var collisionSum: nat

    function Derived(): Summary
      reads this
    {
      Summary(collisionAllStep, collisionNumData, collisionSum)
    }

    constructor (outputFileName: string)
      ensures fileName == PathPrefix + outputFileName && !loaded
      ensures collisionStep == [] && Derived() == Summary([], [], 0)
    {
      fileName := PathPrefix + outputFileName;
      loaded := false;
      collisionStep, collisionAllStep, collisionNumData, collisionSum := [], [], [], 0;
    }

    /** `parseFile` over the lines of the log. The five sub-counts are only
        checked to be present. */
    method ParseFile(lines: seq<string>) returns (err: Option<Error>)
      modifies this
      ensures err.None? <==> ParseLog(lines).Success?
      ensures err.None? ==> collisionStep == ParseLog(lines).value
      ensures err.Some? ==> ParseLog(lines) == Failure(err.value)
      ensures loaded == old(loaded) && Derived() == old(Derived())
    {
      err := None;
      collisionStep := [];
      var i := 0;
      while i < |lines|
        invariant 0 <= i <= |lines|
        invariant ParseLog(lines[..i]) == Success(collisionStep) && err.None?
        invariant loaded == old(loaded) && Derived() == old(Derived())
      {
        ParseLogSnoc(lines, i);
        var datas := Split(lines[i], {','});
        if |datas| < 2 {
          err := Some(MissingToken(1));
          FailureStops(lines, i + 1);
          return;
        }
        var counts := Split(datas[1], {'/'});
        if |counts| < SubCounts {
          err := Some(MissingToken(SubCounts - 1));
          FailureStops(lines, i + 1);
          return;
        }
        collisionStep := collisionStep + [Split(datas[0], {'/'})];
        i := i + 1;
      }
      assert lines[..i] == lines;
    }

    /** The constructor's work once the path is known: nothing when the log is
        absent; otherwise `parseFile`, the nonzero steps of all lines, those
        steps sorted, and their number. */
    method Load(files: FileSystem) returns (err: Option<Error>)
      modifies this
      ensures fileName !in files ==> err.None? && unchanged(this)
      ensures fileName in files ==>
        var parsed := ParseLog(files[fileName]);
        && (parsed.Failure? ==> err == Some(parsed.error))
        && (parsed.Success? ==>
          var summary := Summarize(parsed.value);
          && (summary.Failure? ==> err == Some(summary.error))
          && (summary.Success? ==> err.None? && loaded && collisionStep == parsed.value &&
                                   Derived() == summary.value))
    {
      if fileName !in files {
        return None;
      }
      loaded := true;
      err := ParseFile(files[fileName]);
      if err.Some? {
        return;
      }
      var all := CollectSteps(collisionStep);
      if all.Failure? {
        return Some(all.error);
      }
      collisionAllStep := all.value;
      collisionNumData := Sort(collisionAllStep);
      collisionSum := |collisionAllStep|;
    }
  }
}
