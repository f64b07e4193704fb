/** `AllData` (Analyzer/src/data.py): one simulation run, loaded from its
    configuration file and the result logs the configuration names, and the
    values the analyzer derives from them. */
module RunData {
  import opened Wrappers
  import opened Errors
  import opened Text
  import opened Seqs
  import opened Geometry
  import opened Records
  import Config
  import Results
  import Adjust
  import Collision
  import Retransmission

  // ---------------------------------------------------------------------
  // Distance and duplication

  /** `getDistance`: `int()` of the Euclidean distance between the centres of
      the transmitter and the receiver; `config[...]` of a key the file never
      set is a KeyError. */
  function Distance(c: Config.Config): (r: Result<int, Error>)
    ensures c.transmitter.None? ==> r == Failure(MissingKey("transmitter"))
    ensures c.transmitter.Some? && c.receiver.None? ==> r == Failure(MissingKey("receiver"))
    ensures c.transmitter.Some? && c.receiver.Some? ==>
      var p, q := c.transmitter.value.centerPosition, c.receiver.value.centerPosition;
      && r.Success? && r.value >= 0
      && r.value * r.value <= SquaredDistance(p, q) < (r.value + 1) * (r.value + 1)
  {
    if c.transmitter.None? then Failure(MissingKey("transmitter"))
    else if c.receiver.None? then Failure(MissingKey("receiver"))
    else Success(CalcDistance(c.transmitter.value.centerPosition, c.receiver.value.centerPosition))
  }

  /** Swapping transmitter and receiver does not change the distance. */
  lemma DistanceSwap(c: Config.Config)
    requires c.transmitter.Some? && c.receiver.Some?
    ensures Distance(c.(transmitter := c.receiver, receiver := c.transmitter)) == Distance(c)
  {
    DistanceSymmetric(c.transmitter.value.centerPosition, c.receiver.value.centerPosition);
  }

  /** `getTxDuplication`: the duplication of the first INFO molecule in list
      order; the loop falls off the end (returning None) when there is none. */
  function TxDuplication(mps: seq<MoleculeParams>): (r: Option<int>)
    ensures r.None? <==> forall k :: 0 <= k < |mps| ==> mps[k].typeOfMolecule != INFO
    ensures r.Some? ==> exists k :: (0 <= k < |mps| && mps[k].typeOfMolecule == INFO &&
      r.value == mps[k].duplication &&
      forall j :: 0 <= j < k ==> mps[j].typeOfMolecule != INFO)
  {
    if mps == [] then None
    else if mps[0].typeOfMolecule == INFO then
      Some(mps[0].duplication)
    else
      var r := TxDuplication(mps[1..]);
      assert forall k :: 1 <= k < |mps| ==> mps[k] == mps[1..][k - 1];
      if r.Some? then
        var k :| 0 <= k < |mps[1..]| && mps[1..][k].typeOfMolecule == INFO &&
          r.value == mps[1..][k].duplication &&
          forall j :: 0 <= j < k ==> mps[1..][j].typeOfMolecule != INFO;
        assert forall j :: 1 <= j < k + 1 ==> mps[j].typeOfMolecule != INFO;
        r
      else r
  }

  /** Molecules appended after an INFO molecule do not change the answer. */
  lemma {:induction false} TxDuplicationFirstWins(mps: seq<MoleculeParams>, more: seq<MoleculeParams>)
    requires TxDuplication(mps).Some?
    ensures TxDuplication(mps + more) == TxDuplication(mps)
    decreases |mps|
  {
    if mps[0].typeOfMolecule != INFO {
      assert (mps + more)[1..] == mps[1..] + more;
      TxDuplicationFirstWins(mps[1..], more);
    }
  }

  // ---------------------------------------------------------------------
  // Rates

  /** `total / count` in Python's true division; a count of zero raises
      ZeroDivisionError. Used by `getCollisionNum` (collisions per line) and
      `getRetransmissionNum` (retransmissions per line). */
  function Ratio(total: int, count: nat): (r: Result<real, Error>)
    ensures r.Success? <==> count > 0
    ensures r.Failure? ==> r.error == DivisionByZero
    ensures r.Success? ==> r.value * count as real == total as real
  {
    if count == 0 then Failure(DivisionByZero) else Success(total as real / count as real)
  }

  /** The retransmission rate of a loaded log: the counts were sorted on
      loading, which does not change their sum, so the rate is the sum of the
      per-line counts over the number of lines. */
  lemma RetransmissionRate(lines: seq<string>, log: Retransmission.RetransmitLog)
    requires Retransmission.ParseLog(lines) == Success(log)
    ensures Ratio(Sum(Sort(log.num)), |log.step|) == Ratio(Sum(log.num), |lines|)
  {
    Retransmission.OneEntryPerLine(lines);
    SumPermutation(Sort(log.num), log.num);
  }

  // ---------------------------------------------------------------------
  // Plots

  datatype Plot = Plot(x: seq<int>, y: seq<int>)

  /** `getRetransmissionPlotData`: the histogram against `np.arange(0, len(Y))`. */
  function RetransmissionPlot(histogram: seq<nat>): (p: Plot)
    ensures |p.x| == |p.y| == |histogram|
    ensures forall i :: 0 <= i < |p.x| ==> p.x[i] == i && p.y[i] == histogram[i]
  {
    Plot(seq(|histogram|, i => i), histogram)
  }

  /** The retransmission plot of a loaded log: bar `i` is the number of lines
      that needed `i` retransmissions, for every `i` up to the largest count. */
  lemma RetransmissionPlotCounts(nums: seq<int>, i: nat)
    requires nums != [] && i <= Max(nums)
    ensures var p := RetransmissionPlot(Retransmission.Summarize(nums).histogram);
      |p.x| == Max(nums) + 1 && p.x[i] == i && p.y[i] == Count(nums, i)
  {
    Retransmission.HistogramCounts(nums, Max(nums) + 1, i);
  }

  /** The bucket width of the collision histogram. */
  const Step := 1000

  /** `len(np.arange(0, yMax + step, step))`. */
  function BucketCount(yMax: int): (n: nat)
    ensures n == 0 <==> yMax + Step <= 0
    ensures n > 0 ==> Step * (n - 1) < yMax + Step <= Step * n
  {
    if yMax + Step > 0 then (yMax + 2 * Step - 1) / Step else 0
  }

  /** `len([j for j in y if j > lo and j <= hi])`. */
  function CountIn(y: seq<int>, lo: int, hi: int): nat
  {
    if y == [] then 0
    else CountIn(y[..|y| - 1], lo, hi) + (if lo < y[|y| - 1] <= hi then 1 else 0)
  }

  /** The number of elements of `y` above `lo`. */
  function CountAbove(y: seq<int>, lo: int): (c: nat)
    ensures c <= |y|
  {
    if y == [] then 0
    else CountAbove(y[..|y| - 1], lo) + (if lo < y[|y| - 1] then 1 else 0)
  }

  lemma {:induction false} CountInDifference(y: seq<int>, lo: int, hi: int)
    requires lo <= hi
    ensures CountIn(y, lo, hi) == CountAbove(y, lo) - CountAbove(y, hi)
    ensures CountAbove(y, hi) <= CountAbove(y, lo)
    decreases |y|
  {
    if y != [] {
      CountInDifference(y[..|y| - 1], lo, hi);
    }
  }

  lemma {:induction false} NoneAbove(y: seq<int>, hi: int)
    requires forall k :: 0 <= k < |y| ==> y[k] <= hi
    ensures CountAbove(y, hi) == 0
    decreases |y|
  {
    if y != [] {
      NoneAbove(y[..|y| - 1], hi);
    }
  }

  /** The first `m` buckets: bucket `i` counts the values in `(Step * i, Step * (i + 1)]`. */
  function Buckets(y: seq<int>, m: nat): (b: seq<int>)
    ensures |b| == m
  {
    if m == 0 then [] else Buckets(y, m - 1) + [CountIn(y, Step * (m - 1), Step * m)]
  }

  lemma {:induction false} BucketsAt(y: seq<int>, m: nat, i: nat)
    requires i < m
    ensures Buckets(y, m)[i] == CountIn(y, Step * i, Step * (i + 1))
    decreases m
  {
    if i < m - 1 {
      BucketsAt(y, m - 1, i);
    }
  }

  /** The buckets together count the values in `(0, Step * m]`. */
  lemma {:induction false} BucketsSum(y: seq<int>, m: nat)
    ensures Sum(Buckets(y, m)) == CountAbove(y, 0) - CountAbove(y, Step * m)
    ensures CountAbove(y, Step * m) <= CountAbove(y, 0)
    decreases m
  {
    if m > 0 {
      BucketsSum(y, m - 1);
      CountInDifference(y, Step * (m - 1), Step * m);
      SumAppend(Buckets(y, m - 1), [CountIn(y, Step * (m - 1), Step * m)]);
      assert Sum([CountIn(y, Step * (m - 1), Step * m)]) == CountIn(y, Step * (m - 1), Step * m) by {
        assert [CountIn(y, Step * (m - 1), Step * m)][..0] == [];
      }
    }
  }

  /** `getCollisionPlotData` on non-empty data: X is `0, Step, 2 * Step, ...`
      below `max + Step`; Y has one bucket per consecutive pair of X values and
      a trailing 0. */
  function CollisionPlotOf(y: seq<int>): Plot
    requires y != []
  {
    var n := BucketCount(Max(y));
    Plot(seq(n, k => Step * k), Buckets(y, if n > 0 then n - 1 else 0) + [0])
  }

  /** The shape of the collision plot: X reaches the largest value and Y lines
      up with X, bucket by bucket, and ends in 0. When every value is at most
      `-Step`, X is empty and Y is the single trailing 0. */
  lemma CollisionPlotShape(y: seq<int>)
    requires y != []
    ensures var p := CollisionPlotOf(y);
      && (forall k :: 0 <= k < |p.x| ==> p.x[k] == Step * k)
      && (|p.x| > 0 <==> Max(y) > -Step)
      && (|p.x| > 0 ==> p.x[|p.x| - 1] >= Max(y) && |p.y| == |p.x|)
      && (|p.x| == 0 ==> p.y == [0])
      && p.y[|p.y| - 1] == 0
      && forall i :: 0 <= i < |p.y| - 1 ==> p.y[i] == CountIn(y, p.x[i], p.x[i + 1])
  {
    var p := CollisionPlotOf(y);
    var n := BucketCount(Max(y));
    var m := if n > 0 then n - 1 else 0;
    forall i | 0 <= i < |p.y| - 1 ensures p.y[i] == CountIn(y, p.x[i], p.x[i + 1]) {
      BucketsAt(y, m, i);
      assert p.y[i] == Buckets(y, m)[i];
    }
  }

  /** The bars of the collision plot add up to the number of positive values. */
  lemma CollisionPlotTotal(y: seq<int>)
    requires y != []
    ensures Sum(CollisionPlotOf(y).y) == CountAbove(y, 0)
  {
    var n := BucketCount(Max(y));
    var m := if n > 0 then n - 1 else 0;
    BucketsSum(y, m);
    if n > 0 {
      NoneAbove(y, Step * m);
    } else {
      NoneAbove(y, 0);
    }
    SumAppend(Buckets(y, m), [0]);
    assert Sum([0]) == 0 by {
      assert [0][..0] == [];
    }
  }

  /** The loop of `getCollisionPlotData`: `np.max` of empty data is an error. */
  method CollisionPlot(y: seq<int>) returns (r: Result<Plot, Error>)
    ensures y == [] ==> r == Failure(EmptyData)
    ensures y != [] ==> r == Success(CollisionPlotOf(y))
  {
    if y == [] {
      return Failure(EmptyData);
    }
    var yMax := Max(y);
    var n: int := BucketCount(yMax);
    var X := seq(n, k => Step * k);
    var Y: seq<int> := [];
    var i := 0;
    while i < n - 1
      invariant 0 <= i <= if n > 0 then n - 1 else 0
      invariant Y == Buckets(y, i)
    {
      Y := Y + [CountIn(y, X[i], X[i + 1])];
      i := i + 1;
    }
    assert i == if n > 0 then n - 1 else 0;
    Y := Y + [0];
    r := Success(Plot(X, Y));
  }

  // ---------------------------------------------------------------------
  // Loading a run

  /** `self.datData.config["outputFile"].strip()` after reading the
      configuration file, or the first error on the way. */
  function OutputFileName(fileName: string, files: FileSystem): Result<string, Error>
  {
    if fileName !in files then Failure(NoSuchFile(fileName))
    else
      var c :- Config.ParseConfig(files[fileName]);
      if c.outputFile.None? then Failure(MissingKey("outputFile")) else Success(Strip(c.outputFile.value))
  }

  /** The result log must exist, parse and hold a step; the three optional
      logs must parse when they exist. */
  predicate LogsLoad(files: FileSystem, out: string)
  {
    ResultLoads(files, out) && AdjustLoads(files, out) && CollisionLoads(files, out) && RetransmitLoads(files, out)
  }

  predicate ResultLoads(files: FileSystem, out: string)
  {
    var path := Results.PathPrefix + out;
    path in files && Results.ParseSteps(files[path]).Success? && Results.ParseSteps(files[path]).value != []
  }

  predicate AdjustLoads(files: FileSystem, out: string)
  {
    var path := Adjust.PathPrefix + out;
    path in files ==> Adjust.ParseLog(files[path]).Success?
  }

  predicate CollisionLoads(files: FileSystem, out: string)
  {
    var path := Collision.PathPrefix + out;
    path in files ==> Collision.ParseLog(files[path]).Success? &&
                      Collision.Summarize(Collision.ParseLog(files[path]).value).Success?
  }

  predicate RetransmitLoads(files: FileSystem, out: string)
  {
    var path := Retransmission.PathPrefix + out;
    path in files ==> Retransmission.ParseLog(files[path]).Success? &&
                      Retransmission.ParseLog(files[path]).value.num != []
  }

  /** `ResultData` after its constructor: the steps of the log and their extremes. */
  predicate ResultState(res: Results.ResultData, files: FileSystem, out: string)
    reads res
  {
    var path := Results.PathPrefix + out;
    && path in files && Results.ParseSteps(files[path]) == Success(res.steps) && res.steps != []
    && res.minStep == Min(res.steps) && res.maxStep == Max(res.steps)
  }

  /** An optional log is loaded exactly when its file exists, and then holds what its parser reads. */
  predicate AdjustState(adj: Adjust.AdjustData, files: FileSystem, out: string)
    reads adj
  {
    var path := Adjust.PathPrefix + out;
    && (adj.loaded <==> path in files)
    && (adj.loaded ==> Adjust.ParseLog(files[path]) == Success(adj.Log()))
  }

  predicate CollisionState(col: Collision.CollisionData, files: FileSystem, out: string)
    reads col
  {
    var path := Collision.PathPrefix + out;
    && (col.loaded <==> path in files)
    && (col.loaded ==> Collision.ParseLog(files[path]) == Success(col.collisionStep) &&
                       Collision.Summarize(col.collisionStep) == Success(col.Derived()))
  }

  predicate RetransmitState(ret: Retransmission.RetransmitData, files: FileSystem, out: string)
    reads ret
  {
    var path := Retransmission.PathPrefix + out;
    && (ret.loaded <==> path in files)
    && (ret.loaded ==>
          && Retransmission.ParseLog(files[path]).Success?
          && var log := Retransmission.ParseLog(files[path]).value;
             && log.num != []
             && ret.Log() == log.(num := Sort(log.num))
             && ret.Derived() == Retransmission.Summarize(log.num))
  }

  datatype Logs = Logs(
    result: Results.ResultData,
    adjust: Adjust.AdjustData,
    collision: Collision.CollisionData,
    retransmit: Retransmission.RetransmitData)

  method OpenResult(out: string, files: FileSystem) returns (res: Results.ResultData, err: Option<Error>)
    ensures fresh(res) && (err.None? <==> ResultLoads(files, out))
    ensures err.None? ==> ResultState(res, files, out)
  {
    res := new Results.ResultData(out);
    err := res.Load(files);
  }

  method OpenAdjust(out: string, files: FileSystem) returns (adj: Adjust.AdjustData, err: Option<Error>)
    ensures fresh(adj) && (err.None? <==> AdjustLoads(files, out))
    ensures err.None? ==> AdjustState(adj, files, out)
  {
    adj := new Adjust.AdjustData(out);
    err := adj.Load(files);
  }

  method OpenCollision(out: string, files: FileSystem) returns (col: Collision.CollisionData, err: Option<Error>)
    ensures fresh(col) && (err.None? <==> CollisionLoads(files, out))
    ensures err.None? ==> CollisionState(col, files, out)
  {
    col := new Collision.CollisionData(out);
    err := col.Load(files);
  }

  method OpenRetransmit(out: string, files: FileSystem) returns (ret: Retransmission.RetransmitData, err: Option<Error>)
    ensures fresh(ret) && (err.None? <==> RetransmitLoads(files, out))
    ensures err.None? ==> RetransmitState(ret, files, out)
  {
    ret := new Retransmission.RetransmitData(out);
    err := ret.Load(files);
  }

  /** The four log objects `AllData` builds from the output file name, in the
      source's order; the first exception is the error returned. */
  method OpenLogs(out: string, files: FileSystem) returns (r: Result<Logs, Error>)
    ensures r.Success? <==> LogsLoad(files, out)
    ensures r.Success? ==>
      && ResultState(r.value.result, files, out) && AdjustState(r.value.adjust, files, out)
      && CollisionState(r.value.collision, files, out) && RetransmitState(r.value.retransmit, files, out)
  {
    var res, err := OpenResult(out, files);
    if err.Some? {
      return Failure(err.value);
    }
    var adj, err2 := OpenAdjust(out, files);
    if err2.Some? {
      return Failure(err2.value);
    }
    var col, err3 := OpenCollision(out, files);
    if err3.Some? {
      return Failure(err3.value);
    }
    var ret, err4 := OpenRetransmit(out, files);
    if err4.Some? {
      return Failure(err4.value);
    }
    r := Success(Logs(res, adj, col, ret));
  }

  class AllData {
    const datFileName: string
    const datData: Config.DatData
    const resultData: Results.ResultData
    const adjustData: Adjust.AdjustData
    const collisionData: Collision.CollisionData
    const retransmitData: Retransmission.RetransmitData

    constructor (datFileName: string, datData: Config.DatData, logs: Logs)
      ensures this.datFileName == datFileName && this.datData == datData && resultData == logs.result
      ensures adjustData == logs.adjust && collisionData == logs.collision && retransmitData == logs.retransmit
    {
      this.datFileName := datFileName;
      this.datData := datData;
      resultData := logs.result;
      adjustData := logs.adjust;
      collisionData := logs.collision;
      retransmitData := logs.retransmit;
    }

    /** `AllData(fileName)`: the configuration, then the result log and the
        three optional logs named after its `outputFile`. Any exception on
        the way is the error returned. */
    static method Open(fileName: string, files: FileSystem) returns (r: Result<AllData, Error>)
      ensures OutputFileName(fileName, files).Failure? ==> r == Failure(OutputFileName(fileName, files).error)
      ensures r.Success? <==>
        OutputFileName(fileName, files).Success? && LogsLoad(files, OutputFileName(fileName, files).value)
      ensures r.Success? ==>
        var a, out := r.value, OutputFileName(fileName, files).value;
        && a.datFileName == fileName
        && Config.ParseConfig(files[fileName]) == Success(a.datData.config)
        && ResultState(a.resultData, files, out) && AdjustState(a.adjustData, files, out)
        && CollisionState(a.collisionData, files, out) && RetransmitState(a.retransmitData, files, out)
    {
      if fileName !in files {
        return Failure(NoSuchFile(fileName));
      }
      var dat := new Config.DatData(fileName);
      var err := dat.ParseFile(files[fileName]);
      if err.Some? {
        return Failure(err.value);
      }
      if dat.config.outputFile.None? {
        return Failure(MissingKey("outputFile"));
      }
      var out := Strip(dat.config.outputFile.value);
      assert OutputFileName(fileName, files) == Success(out);
      var logs := OpenLogs(out, files);
      if logs.Failure? {
        return Failure(logs.error);
      }
      var a := new AllData(fileName, dat, logs.value);
      r := Success(a);
    }

    function GetDistance(): Result<int, Error>
      reads datData
    {
      Distance(datData.config)
    }

    function GetTxDuplication(): Option<int>
      reads datData
    {
      TxDuplication(datData.config.moleculeParams)
    }

    /** An optional log that was absent leaves its attributes unset: reading
        them is an AttributeError. */
    function GetRetransmissionPlotData(): Result<Plot, Error>
      reads retransmitData
    {
      if !retransmitData.loaded then Failure(AbsentLog)
      else Success(RetransmissionPlot(retransmitData.retransmitNumData))
    }

    method GetCollisionPlotData() returns (r: Result<Plot, Error>)
      ensures !collisionData.loaded ==> r == Failure(AbsentLog)
      ensures collisionData.loaded && collisionData.collisionNumData == [] ==> r == Failure(EmptyData)
      ensures collisionData.loaded && collisionData.collisionNumData != [] ==>
        r == Success(CollisionPlotOf(collisionData.collisionNumData))
    {
      if !collisionData.loaded {
        return Failure(AbsentLog);
      }
      r := CollisionPlot(collisionData.collisionNumData);
    }

    function GetCollisionNum(): Result<real, Error>
      reads collisionData
    {
      if !collisionData.loaded then Failure(AbsentLog)
      else Ratio(collisionData.collisionSum, |collisionData.collisionStep|)
    }

    function GetRetransmissionNum(): Result<real, Error>
      reads retransmitData
    {
      if !retransmitData.loaded then Failure(AbsentLog)
      else Ratio(Sum(retransmitData.retransmitNum), |retransmitData.retransmitStep|)
    }
  }
}
