/** `Analyzer` (Analyzer/src/analyzer.py): the catalog of runs, the selectors
    that read one value of a run, the grouping of runs by such a value, and
    the series (distinct X values, distinct labels, one Y list per label) a
    graph is drawn from. */
module Analysis {
  import opened Wrappers
  import opened Errors
  import opened Seqs

  datatype XValue = DISTANCE | DUPLICATION | ALL
  datatype YValue = MEAN

  /** `getValue` accepts a member of either enumeration. */
  datatype Selector = X(x: XValue) | Y(y: YValue)

  /** What `getValue` returns: an int, None (no INFO molecule) or the mean. */
  datatype Value = IntValue(i: int) | NoneValue | MeanValue(m: real)

  /** The values of one run that the analyzer reads; the mean is opaque. */
  datatype RunValues = RunValues(distance: int, duplication: Option<int>, mean: real)

  /** `getValue`: DISTANCE, MEAN and DUPLICATION read the run; any other
      selector ends the program. */
  function GetValue(data: RunValues, value: Selector): (r: Result<Value, Error>)
    ensures r.Failure? <==> value == X(ALL)
    ensures r.Failure? ==> r.error == NotDefined
    ensures value == X(DISTANCE) ==> r == Success(IntValue(data.distance))
    ensures value == Y(MEAN) ==> r == Success(MeanValue(data.mean))
    ensures value == X(DUPLICATION) ==>
      r == Success(if data.duplication.Some? then IntValue(data.duplication.value) else NoneValue)
  {
    match value
    case X(DISTANCE) => Success(IntValue(data.distance))
    case Y(MEAN) => Success(MeanValue(data.mean))
    case X(DUPLICATION) =>
      Success(match data.duplication case None => NoneValue case Some(d) => IntValue(d))
    case X(ALL) => Failure(NotDefined)
  }

  type Catalog = map<string, RunValues>

  /** Every file of the list has an entry in the catalog. */
  predicate Known(dataDict: Catalog, files: seq<string>)
  {
    forall f :: f in files ==> f in dataDict
  }

  /** The value a selector reads from a catalogued run. */
  function Key(dataDict: Catalog, s: Selector, f: string): Value
    requires f in dataDict && s != X(ALL)
  {
    GetValue(dataDict[f], s).value
  }

  /** The selected value of each file, in list order. */
  function Keys(dataDict: Catalog, s: Selector, files: seq<string>): (ks: seq<Value>)
    requires Known(dataDict, files) && s != X(ALL)
    ensures |ks| == |files|
    ensures forall k :: 0 <= k < |files| ==> ks[k] == Key(dataDict, s, files[k])
  {
    if files == [] then []
    else
      var p := files[..|files| - 1];
      assert forall k :: 0 <= k < |p| ==> p[k] == files[k];
      Keys(dataDict, s, p) + [Key(dataDict, s, files[|files| - 1])]
  }

  /** The files whose selected value is `v`, in list order. */
  function Members(dataDict: Catalog, s: Selector, files: seq<string>, v: Value): (m: seq<string>)
    requires Known(dataDict, files) && s != X(ALL)
    ensures |m| <= |files| && Known(dataDict, m)
    ensures forall f :: f in m <==> f in files && Key(dataDict, s, f) == v
  {
    if files == [] then []
    else
      var p, f := files[..|files| - 1], files[|files| - 1];
      assert files == p + [f];
      Members(dataDict, s, p, v) + (if Key(dataDict, s, f) == v then [f] else [])
  }

  /** The distinct selected values, in first-seen order. */
  function Labels(dataDict: Catalog, s: Selector, files: seq<string>): seq<Value>
    requires Known(dataDict, files) && s != X(ALL)
  {
    Dedup(Keys(dataDict, s, files))
  }

  /** One group per label: the files with that label. */
  function Groups(dataDict: Catalog, s: Selector, files: seq<string>, labels: seq<Value>): (g: seq<seq<string>>)
    requires Known(dataDict, files) && s != X(ALL)
    ensures |g| == |labels|
    ensures forall i :: 0 <= i < |labels| ==> g[i] == Members(dataDict, s, files, labels[i])
  {
    seq(|labels|, i requires 0 <= i < |labels| => Members(dataDict, s, files, labels[i]))
  }

  /** `classifyDataFile` for a selector other than ALL. */
  function Classify(dataDict: Catalog, s: Selector, files: seq<string>): seq<seq<string>>
    requires Known(dataDict, files) && s != X(ALL)
  {
    Groups(dataDict, s, files, Labels(dataDict, s, files))
  }

  /** The first file of the list the catalog does not hold: `dataDict[fileName]`
      raises KeyError there. */
  function FirstMissing(dataDict: Catalog, files: seq<string>): (r: Option<string>)
    ensures r.None? <==> Known(dataDict, files)
    ensures r.Some? ==> r.value in files && r.value !in dataDict
  {
    if files == [] then None
    else if files[0] !in dataDict then Some(files[0])
    else
      assert forall f :: f in files ==> f == files[0] || f in files[1..];
      FirstMissing(dataDict, files[1..])
  }

  // ---------------------------------------------------------------------
  // Facts the loops use

  lemma {:induction false} FirstMissingAt(dataDict: Catalog, files: seq<string>, i: nat)
    requires i < |files| && Known(dataDict, files[..i]) && files[i] !in dataDict
    ensures FirstMissing(dataDict, files) == Some(files[i])
    decreases i
  {
    if i > 0 {
      assert files[0] in files[..i];
      assert files[1..][..i - 1] == files[..i][1..];
      FirstMissingAt(dataDict, files[1..], i - 1);
    }
  }

  lemma KnownPrefix(dataDict: Catalog, files: seq<string>, i: nat)
    requires i < |files| && Known(dataDict, files[..i]) && files[i] in dataDict
    ensures Known(dataDict, files[..i + 1])
  {
    assert files[..i + 1] == files[..i] + [files[i]];
  }

  lemma KeysSnoc(dataDict: Catalog, s: Selector, files: seq<string>, i: nat)
    requires i < |files| && Known(dataDict, files[..i + 1]) && s != X(ALL)
    ensures Known(dataDict, files[..i])
    ensures Keys(dataDict, s, files[..i + 1]) == Keys(dataDict, s, files[..i]) + [Key(dataDict, s, files[i])]
  {
    assert files[..i + 1][..i] == files[..i];
  }

  /** One more file adds its value to the distinct values unless it is there already. */
  lemma LabelsSnoc(dataDict: Catalog, s: Selector, files: seq<string>, i: nat)
    requires i < |files| && Known(dataDict, files[..i]) && files[i] in dataDict && s != X(ALL)
    ensures Known(dataDict, files[..i + 1])
    ensures var d, k := Labels(dataDict, s, files[..i]), Key(dataDict, s, files[i]);
      Labels(dataDict, s, files[..i + 1]) == if k in d then d else d + [k]
  {
    KnownPrefix(dataDict, files, i);
    KeysSnoc(dataDict, s, files, i);
    var ks := Keys(dataDict, s, files[..i + 1]);
    assert ks[..|ks| - 1] == Keys(dataDict, s, files[..i]);
  }

  lemma KeysAppendOne(dataDict: Catalog, s: Selector, files: seq<string>, f: string)
    requires Known(dataDict, files) && f in dataDict && s != X(ALL)
    ensures Known(dataDict, files + [f])
    ensures Keys(dataDict, s, files + [f]) == Keys(dataDict, s, files) + [Key(dataDict, s, f)]
  {
    assert (files + [f])[..|files|] == files;
  }

  lemma MembersSnoc(dataDict: Catalog, s: Selector, files: seq<string>, i: nat, v: Value)
    requires i < |files| && Known(dataDict, files) && s != X(ALL)
    ensures Known(dataDict, files[..i]) && Known(dataDict, files[..i + 1])
    ensures Members(dataDict, s, files[..i + 1], v) ==
      Members(dataDict, s, files[..i], v) + (if Key(dataDict, s, files[i]) == v then [files[i]] else [])
  {
    assert files[..i + 1][..i] == files[..i];
  }

  // ---------------------------------------------------------------------
  // Classification: a partition in first-seen order

  lemma KnownDrop(dataDict: Catalog, files: seq<string>, f: string)
    requires Known(dataDict, files + [f])
    ensures Known(dataDict, files) && f in dataDict
  {
    assert f in files + [f];
    forall g | g in files ensures g in dataDict {
      assert g in files + [f];
    }
  }

  lemma NoDuplicatesTail<T>(s: seq<T>)
    requires s != [] && NoDuplicates(s)
    ensures NoDuplicates(s[1..]) && s[0] !in s[1..]
  {
    forall i, j | 0 <= i < j < |s| - 1 ensures s[1..][i] != s[1..][j] {
      assert s[1..][i] == s[i + 1] && s[1..][j] == s[j + 1];
    }
    forall j | 0 <= j < |s| - 1 ensures s[1..][j] != s[0] {
      assert s[1..][j] == s[j + 1];
    }
  }

  lemma MembersAppend(dataDict: Catalog, s: Selector, files: seq<string>, f: string, v: Value)
    requires Known(dataDict, files + [f]) && s != X(ALL)
    ensures Known(dataDict, files) && f in dataDict
    ensures Members(dataDict, s, files + [f], v) ==
      Members(dataDict, s, files, v) + (if Key(dataDict, s, f) == v then [f] else [])
  {
    KnownDrop(dataDict, files, f);
    assert (files + [f])[..|files|] == files;
  }

  lemma GroupsCons(dataDict: Catalog, s: Selector, files: seq<string>, labels: seq<Value>)
    requires Known(dataDict, files) && s != X(ALL) && labels != []
    ensures Flatten(Groups(dataDict, s, files, labels)) ==
      Members(dataDict, s, files, labels[0]) + Flatten(Groups(dataDict, s, files, labels[1..]))
  {
    var g := Groups(dataDict, s, files, labels);
    assert g[1..] == Groups(dataDict, s, files, labels[1..]);
  }

  /** The multiset step of `GroupsGrow`, on plain sequences: one more item
      in the head, or in the rest, but not both. */
  lemma JoinGrows<T>(m0: seq<T>, m1: seq<T>, r0: seq<T>, r1: seq<T>, f: T, inHead: bool, inTail: bool)
    requires m1 == m0 + (if inHead then [f] else [])
    requires multiset(r1) == multiset(r0) + (if inTail then multiset{f} else multiset{})
    requires !(inHead && inTail)
    ensures multiset(m1 + r1) == multiset(m0 + r0) + (if inHead || inTail then multiset{f} else multiset{})
  {
    assert multiset(m0 + r0) == multiset(m0) + multiset(r0);
    assert multiset(m1 + r1) == multiset(m1) + multiset(r1);
  }

  /** Adding one more file to the list adds it to the group of its label and
      to no other, when the labels are distinct. */
  lemma {:induction false} GroupsGrow(dataDict: Catalog, s: Selector, files: seq<string>, f: string, labels: seq<Value>)
    requires Known(dataDict, files + [f]) && s != X(ALL) && NoDuplicates(labels)
    ensures Known(dataDict, files) && f in dataDict
    ensures multiset(Flatten(Groups(dataDict, s, files + [f], labels))) ==
      multiset(Flatten(Groups(dataDict, s, files, labels))) +
      (if Key(dataDict, s, f) in labels then multiset{f} else multiset{})
    decreases |labels|
  {
    KnownDrop(dataDict, files, f);
    if labels != [] {
      var tail := labels[1..];
      NoDuplicatesTail(labels);
      GroupsGrow(dataDict, s, files, f, tail);
      MembersAppend(dataDict, s, files, f, labels[0]);
      var key := Key(dataDict, s, f);
      GroupsCons(dataDict, s, files, labels);
      GroupsCons(dataDict, s, files + [f], labels);
      var m0, r0 := Members(dataDict, s, files, labels[0]), Flatten(Groups(dataDict, s, files, tail));
      var m1, r1 := Members(dataDict, s, files + [f], labels[0]), Flatten(Groups(dataDict, s, files + [f], tail));
      assert key in labels <==> key == labels[0] || key in tail;
      JoinGrows(m0, m1, r0, r1, f, key == labels[0], key in tail);
    }
  }

  lemma {:induction false} GroupsOfNothing(dataDict: Catalog, s: Selector, labels: seq<Value>)
    requires s != X(ALL)
    ensures Flatten(Groups(dataDict, s, [], labels)) == []
    decreases |labels|
  {
    if labels != [] {
      GroupsOfNothing(dataDict, s, labels[1..]);
      var g := Groups(dataDict, s, [], labels);
      assert g[1..] == Groups(dataDict, s, [], labels[1..]);
    }
  }

  /** With distinct labels that cover every file's label, the groups hold
      every file exactly as often as the list does. */
  lemma {:induction false} GroupsPartition(dataDict: Catalog, s: Selector, files: seq<string>, labels: seq<Value>)
    requires Known(dataDict, files) && s != X(ALL) && NoDuplicates(labels)
    requires forall f :: f in files ==> Key(dataDict, s, f) in labels
    ensures multiset(Flatten(Groups(dataDict, s, files, labels))) == multiset(files)
    decreases |files|
  {
    if files == [] {
      GroupsOfNothing(dataDict, s, labels);
    } else {
      var p, f := files[..|files| - 1], files[|files| - 1];
      assert files == p + [f];
      GroupsGrow(dataDict, s, p, f, labels);
      GroupsPartition(dataDict, s, p, labels);
    }
  }

  /** Every file's value is among the labels. */
  lemma KeysCovered(dataDict: Catalog, s: Selector, files: seq<string>)
    requires Known(dataDict, files) && s != X(ALL)
    ensures forall f :: f in files ==> Key(dataDict, s, f) in Labels(dataDict, s, files)
  {
    var ks := Keys(dataDict, s, files);
    forall f | f in files ensures Key(dataDict, s, f) in Labels(dataDict, s, files) {
      var k :| 0 <= k < |files| && files[k] == f;
      assert ks[k] in Dedup(ks);
    }
  }

  /** Every label is the value of some file, so no group is empty. */
  lemma GroupsNonEmpty(dataDict: Catalog, s: Selector, files: seq<string>)
    requires Known(dataDict, files) && s != X(ALL)
    ensures forall i :: 0 <= i < |Labels(dataDict, s, files)| ==>
      Members(dataDict, s, files, Labels(dataDict, s, files)[i]) != []
  {
    var ks, labels := Keys(dataDict, s, files), Labels(dataDict, s, files);
    forall i | 0 <= i < |labels| ensures Members(dataDict, s, files, labels[i]) != [] {
      var k :| 0 <= k < |ks| && ks[k] == labels[i];
      assert files[k] in Members(dataDict, s, files, labels[i]);
    }
  }

  /** `classifyDataFile` is a partition: the groups together are a
      permutation of the list, no group is empty, and a group holds exactly
      the files whose value is its label. */
  lemma ClassifyPartition(dataDict: Catalog, s: Selector, files: seq<string>)
    requires Known(dataDict, files) && s != X(ALL)
    ensures var groups, labels := Classify(dataDict, s, files), Labels(dataDict, s, files);
      && multiset(Flatten(groups)) == multiset(files)
      && (forall i :: 0 <= i < |groups| ==> groups[i] != [])
      && forall i, f :: 0 <= i < |groups| ==> (f in groups[i] <==> f in files && Key(dataDict, s, f) == labels[i])
  {
    KeysCovered(dataDict, s, files);
    GroupsPartition(dataDict, s, files, Labels(dataDict, s, files));
    GroupsNonEmpty(dataDict, s, files);
  }

  /** Groups come in the order in which their labels first occur. */
  lemma ClassifyOrder(dataDict: Catalog, s: Selector, files: seq<string>, i: nat, j: nat)
    requires Known(dataDict, files) && s != X(ALL) && i < j < |Classify(dataDict, s, files)|
    ensures var ks, labels := Keys(dataDict, s, files), Labels(dataDict, s, files);
      FirstIndex(ks, labels[i]) < FirstIndex(ks, labels[j])
  {
    DedupFirstSeen(Keys(dataDict, s, files), i, j);
  }

  // ---------------------------------------------------------------------
  // Series

  /** The selected y values of the files with label `v`, in list order. */
  function YList(dataDict: Catalog, ys: Selector, ls: Selector, files: seq<string>, v: Value): seq<Value>
    requires Known(dataDict, files) && ys != X(ALL) && ls != X(ALL)
  {
    Keys(dataDict, ys, Members(dataDict, ls, files, v))
  }

  /** `Y`: for each label, the selected y values of the files with that label. */
  function YLists(dataDict: Catalog, ys: Selector, ls: Selector, files: seq<string>, labels: seq<Value>): (r: seq<seq<Value>>)
    requires Known(dataDict, files) && ys != X(ALL) && ls != X(ALL)
    ensures |r| == |labels|
    ensures forall i :: 0 <= i < |labels| ==> r[i] == YList(dataDict, ys, ls, files, labels[i])
  {
    seq(|labels|, i requires 0 <= i < |labels| => YList(dataDict, ys, ls, files, labels[i]))
  }

  datatype Series = Series(xs: seq<Value>, ys: seq<seq<Value>>, labels: seq<Value>)

  /** The error `getLabelValues` stops with, if any: the first loop reads the
      run, its x and its label for every file; the second reads its y. */
  function LabelValuesError(dataDict: Catalog, xv: Selector, yv: Selector, lv: Selector, files: seq<string>): Option<Error>
  {
    if files == [] then None
    else if xv == X(ALL) || lv == X(ALL) then
      Some(if files[0] !in dataDict then MissingKey(files[0]) else NotDefined)
    else if FirstMissing(dataDict, files).Some? then Some(MissingKey(FirstMissing(dataDict, files).value))
    else if yv == X(ALL) then Some(NotDefined)
    else None
  }

  /** `getLabelValues` when it returns. */
  function LabelValues(dataDict: Catalog, xv: Selector, yv: Selector, lv: Selector, files: seq<string>): Series
    requires LabelValuesError(dataDict, xv, yv, lv, files).None?
  {
    if files == [] then Series([], [], [])
    else
      var labels := Labels(dataDict, lv, files);
      Series(Labels(dataDict, xv, files), YLists(dataDict, yv, lv, files, labels), labels)
  }

  lemma {:induction false} YListsTotal(dataDict: Catalog, ys: Selector, ls: Selector, files: seq<string>, labels: seq<Value>)
    requires Known(dataDict, files) && ys != X(ALL) && ls != X(ALL)
    ensures TotalLength(YLists(dataDict, ys, ls, files, labels)) == TotalLength(Groups(dataDict, ls, files, labels))
    decreases |labels|
  {
    if labels != [] {
      YListsTotal(dataDict, ys, ls, files, labels[1..]);
      var y := YLists(dataDict, ys, ls, files, labels);
      assert y[1..] == YLists(dataDict, ys, ls, files, labels[1..]);
      var g := Groups(dataDict, ls, files, labels);
      assert g[1..] == Groups(dataDict, ls, files, labels[1..]);
      assert |y[0]| == |g[0]|;
    }
  }

  /** The Y lists hold one value per file. */
  lemma YListsOnePerFile(dataDict: Catalog, ys: Selector, ls: Selector, files: seq<string>)
    requires Known(dataDict, files) && ys != X(ALL) && ls != X(ALL)
    ensures TotalLength(YLists(dataDict, ys, ls, files, Labels(dataDict, ls, files))) == |files|
  {
    var labels := Labels(dataDict, ls, files);
    KeysCovered(dataDict, ls, files);
    GroupsPartition(dataDict, ls, files, labels);
    YListsTotal(dataDict, ys, ls, files, labels);
    FlattenLength(Groups(dataDict, ls, files, labels));
    assert |Flatten(Groups(dataDict, ls, files, labels))| == |multiset(files)|;
  }

  /** The series: X and the labels are the distinct values in first-seen
      order, every file's x value is in X, there is one Y list per label, and
      the Y lists together hold one value per file. */
  lemma LabelValuesSeries(dataDict: Catalog, xv: Selector, yv: Selector, lv: Selector, files: seq<string>)
    requires LabelValuesError(dataDict, xv, yv, lv, files).None? && files != []
    ensures Known(dataDict, files) && xv != X(ALL)
    ensures var r := LabelValues(dataDict, xv, yv, lv, files);
      && NoDuplicates(r.xs) && NoDuplicates(r.labels)
      && (forall f :: f in files ==> Key(dataDict, xv, f) in r.xs)
      && |r.ys| == |r.labels|
      && TotalLength(r.ys) == |files|
  {
    KeysCovered(dataDict, xv, files);
    YListsOnePerFile(dataDict, yv, lv, files);
  }

  // ---------------------------------------------------------------------
  // The loops

  lemma KnownPrefixes(dataDict: Catalog, files: seq<string>)
    requires Known(dataDict, files)
    ensures forall j :: 0 <= j <= |files| ==> Known(dataDict, files[..j])
  {
    forall j, f | 0 <= j <= |files| && f in files[..j] ensures f in dataDict {
      var k :| 0 <= k < j && files[..j][k] == f;
      assert files[k] == f;
    }
  }

  /** The inner loop over the labels: the item goes to the list of every
      label equal to its own. */
  method Place<T>(lists: seq<seq<T>>, labels: seq<Value>, key: Value, item: T) returns (r: seq<seq<T>>)
    requires |lists| == |labels|
    ensures |r| == |labels|
    ensures forall m :: 0 <= m < |labels| ==> r[m] == lists[m] + (if labels[m] == key then [item] else [])
  {
    r := lists;
    var k := 0;
    while k < |labels|
      invariant 0 <= k <= |labels| && |r| == |labels|
      invariant forall m :: 0 <= m < |labels| ==> r[m] == lists[m] + (if m < k && labels[m] == key then [item] else [])
    {
      if labels[k] == key {
        r := r[k := r[k] + [item]];
      }
      k := k + 1;
    }
  }

  /** One turn of a first loop: the catalog entry of the i-th file is read
      (a missing one ends the loop) and its value kept if it is new. */
  method LabelStep(dataDict: Catalog, s: Selector, files: seq<string>, i: nat, labels: seq<Value>)
    returns (r: Result<seq<Value>, Error>)
    requires i < |files| && Known(dataDict, files[..i]) && s != X(ALL)
    requires labels == Labels(dataDict, s, files[..i])
    ensures r.Failure? <==> files[i] !in dataDict
    ensures r.Failure? ==> r.error == MissingKey(files[i]) && FirstMissing(dataDict, files) == Some(files[i])
    ensures r.Success? ==> Known(dataDict, files[..i + 1]) && r.value == Labels(dataDict, s, files[..i + 1])
  {
    var fileName := files[i];
    if fileName !in dataDict {
      FirstMissingAt(dataDict, files, i);
      return Failure(MissingKey(fileName));
    }
    var fileLabel := GetValue(dataDict[fileName], s).value;
    LabelsSnoc(dataDict, s, files, i);
    if fileLabel !in labels {
      return Success(labels + [fileLabel]);
    }
    return Success(labels);
  }

  /** The first loop of `classifyDataFile`: the distinct values in first-seen order. */
  method CollectLabels(dataDict: Catalog, s: Selector, files: seq<string>) returns (r: Result<seq<Value>, Error>)
    requires s != X(ALL)
    ensures FirstMissing(dataDict, files).Some? ==> r == Failure(MissingKey(FirstMissing(dataDict, files).value))
    ensures FirstMissing(dataDict, files).None? ==> r == Success(Labels(dataDict, s, files))
  {
    var labels: seq<Value> := [];
    var i := 0;
    while i < |files|
      invariant 0 <= i <= |files| && Known(dataDict, files[..i])
      invariant labels == Labels(dataDict, s, files[..i])
    {
      var next := LabelStep(dataDict, s, files, i, labels);
      if next.Failure? {
        return Failure(next.error);
      }
      labels := next.value;
      i := i + 1;
    }
    assert files[..i] == files;
    r := Success(labels);
  }

  lemma GroupsEqual(dataDict: Catalog, s: Selector, files: seq<string>, labels: seq<Value>, groups: seq<seq<string>>)
    requires Known(dataDict, files) && s != X(ALL) && |groups| == |labels|
    requires forall k :: 0 <= k < |labels| ==> groups[k] == Members(dataDict, s, files, labels[k])
    ensures groups == Groups(dataDict, s, files, labels)
  {
  }

  /** One more file joins the group of its label and no other. */
  lemma MembersStep(dataDict: Catalog, s: Selector, files: seq<string>, j: nat, v: Value)
    requires j < |files| && Known(dataDict, files) && s != X(ALL)
    ensures Known(dataDict, files[..j]) && Known(dataDict, files[..j + 1])
    ensures Members(dataDict, s, files[..j + 1], v) ==
      Members(dataDict, s, files[..j], v) + (if Key(dataDict, s, files[j]) == v then [files[j]] else [])
  {
    KnownPrefixes(dataDict, files);
    assert files[..j + 1] == files[..j] + [files[j]];
    MembersAppend(dataDict, s, files[..j], files[j], v);
  }

  /** The second loop of `classifyDataFile`: each file appended to the group of its label. */
  method CollectGroups(dataDict: Catalog, s: Selector, files: seq<string>, labels: seq<Value>)
    returns (groups: seq<seq<string>>)
    requires Known(dataDict, files) && s != X(ALL)
    ensures groups == Groups(dataDict, s, files, labels)
  {
    KnownPrefixes(dataDict, files);
    groups := seq(|labels|, _ => []);
    var j := 0;
    while j < |files|
      invariant 0 <= j <= |files| && |groups| == |labels|
      invariant forall k :: 0 <= k < |labels| ==> groups[k] == Members(dataDict, s, files[..j], labels[k])
    {
      var fileName := files[j];
      var fileLabel := GetValue(dataDict[fileName], s).value;
      forall v { MembersStep(dataDict, s, files, j, v); }
      groups := Place(groups, labels, fileLabel, fileName);
      j := j + 1;
    }
    assert files[..j] == files;
    GroupsEqual(dataDict, s, files, labels, groups);
  }

  /** The first loop of `getLabelValues`: for each file the run, its x and
      its label are read, and the distinct ones kept in first-seen order. */
  method CollectSeries(dataDict: Catalog, xv: Selector, lv: Selector, files: seq<string>)
    returns (r: Result<(seq<Value>, seq<Value>), Error>)
    ensures files == [] ==> r == Success(([], []))
    ensures files != [] && (xv == X(ALL) || lv == X(ALL)) ==>
      r == Failure(if files[0] !in dataDict then MissingKey(files[0]) else NotDefined)
    ensures xv != X(ALL) && lv != X(ALL) && FirstMissing(dataDict, files).Some? ==>
      r == Failure(MissingKey(FirstMissing(dataDict, files).value))
    ensures xv != X(ALL) && lv != X(ALL) && FirstMissing(dataDict, files).None? ==>
      r == Success((Labels(dataDict, xv, files), Labels(dataDict, lv, files)))
  {
    if files == [] {
      return Success(([], []));
    }
    if files[0] !in dataDict {
      return Failure(MissingKey(files[0]));
    }
    if xv == X(ALL) || lv == X(ALL) {
      return Failure(NotDefined);
    }
    var xs: seq<Value> := [];
    var labels: seq<Value> := [];
    var i := 0;
    while i < |files|
      invariant 0 <= i <= |files| && Known(dataDict, files[..i])
      invariant xs == Labels(dataDict, xv, files[..i])
      invariant labels == Labels(dataDict, lv, files[..i])
    {
      var nextX := LabelStep(dataDict, xv, files, i, xs);
      if nextX.Failure? {
        return Failure(nextX.error);
      }
      var nextLabels := LabelStep(dataDict, lv, files, i, labels);
      xs, labels := nextX.value, nextLabels.value;
      i := i + 1;
    }
    assert files[..i] == files;
    r := Success((xs, labels));
  }

  /** One more file adds its y value to the list of its label and to no other. */
  lemma YListSnoc(dataDict: Catalog, yv: Selector, lv: Selector, files: seq<string>, j: nat, v: Value)
    requires j < |files| && Known(dataDict, files) && yv != X(ALL) && lv != X(ALL)
    ensures Known(dataDict, files[..j]) && Known(dataDict, files[..j + 1])
    ensures YList(dataDict, yv, lv, files[..j + 1], v) ==
      YList(dataDict, yv, lv, files[..j], v) +
      (if Key(dataDict, lv, files[j]) == v then [Key(dataDict, yv, files[j])] else [])
  {
    KnownPrefixes(dataDict, files);
    assert files[..j + 1] == files[..j] + [files[j]];
    MembersAppend(dataDict, lv, files[..j], files[j], v);
    KeysAppendOne(dataDict, yv, Members(dataDict, lv, files[..j], v), files[j]);
  }

  lemma YListsEqual(dataDict: Catalog, yv: Selector, lv: Selector, files: seq<string>, labels: seq<Value>, ys: seq<seq<Value>>)
    requires Known(dataDict, files) && yv != X(ALL) && lv != X(ALL) && |ys| == |labels|
    requires forall k :: 0 <= k < |labels| ==> ys[k] == YList(dataDict, yv, lv, files, labels[k])
    ensures ys == YLists(dataDict, yv, lv, files, labels)
  {
  }

  /** One turn of the second loop of `getLabelValues`: the y value of the
      j-th file goes to the list of its label. */
  method AddY(dataDict: Catalog, yv: Selector, lv: Selector, files: seq<string>, j: nat,
              labels: seq<Value>, yLists: seq<seq<Value>>)
    returns (r: seq<seq<Value>>)
    requires j < |files| && Known(dataDict, files) && yv != X(ALL) && lv != X(ALL)
    requires Known(dataDict, files[..j]) && |yLists| == |labels|
    requires forall k :: 0 <= k < |labels| ==> yLists[k] == YList(dataDict, yv, lv, files[..j], labels[k])
    ensures Known(dataDict, files[..j + 1]) && |r| == |labels|
    ensures forall k :: 0 <= k < |labels| ==> r[k] == YList(dataDict, yv, lv, files[..j + 1], labels[k])
  {
    var data := dataDict[files[j]];
    var y := GetValue(data, yv).value;
    var fileLabel := GetValue(data, lv).value;
    forall v { YListSnoc(dataDict, yv, lv, files, j, v); }
    r := Place(yLists, labels, fileLabel, y);
  }

  /** The second loop of `getLabelValues`: each file's y value appended to
      the list of its label. */
  method CollectYLists(dataDict: Catalog, yv: Selector, lv: Selector, files: seq<string>, labels: seq<Value>)
    returns (r: Result<seq<seq<Value>>, Error>)
    requires Known(dataDict, files) && lv != X(ALL)
    ensures yv == X(ALL) && files != [] ==> r == Failure(NotDefined)
    ensures yv != X(ALL) ==> r == Success(YLists(dataDict, yv, lv, files, labels))
  {
    var yLists: seq<seq<Value>> := seq(|labels|, _ => []);
    if yv == X(ALL) {
      return if files == [] then Success(yLists) else Failure(NotDefined);
    }
    var j := 0;
    while j < |files|
      invariant 0 <= j <= |files| && |yLists| == |labels| && Known(dataDict, files[..j])
      invariant forall k :: 0 <= k < |labels| ==>
        yLists[k] == YList(dataDict, yv, lv, files[..j], labels[k])
    {
      yLists := AddY(dataDict, yv, lv, files, j, labels, yLists);
      j := j + 1;
    }
    assert files[..j] == files;
    YListsEqual(dataDict, yv, lv, files, labels, yLists);
    r := Success(yLists);
  }

  // ---------------------------------------------------------------------
  // The object

  class Analyzer {
    const dataDict: Catalog
    const allFileList: seq<string>

    constructor (dataDict: Catalog, allFileList: seq<string>)
      ensures this.dataDict == dataDict && this.allFileList == allFileList
    {
      this.dataDict := dataDict;
      this.allFileList := allFileList;
    }

    /** `classifyDataFile`: ALL gives the whole catalog list as one group (not
        the list passed in); any other selector groups the files by value. */
    method ClassifyDataFile(fileList: seq<string>, labelValue: Selector) returns (r: Result<seq<seq<string>>, Error>)
      ensures labelValue == X(ALL) ==> r == Success([allFileList])
      ensures labelValue != X(ALL) && FirstMissing(dataDict, fileList).Some? ==>
        r == Failure(MissingKey(FirstMissing(dataDict, fileList).value))
      ensures labelValue != X(ALL) && FirstMissing(dataDict, fileList).None? ==>
        r == Success(Classify(dataDict, labelValue, fileList))
    {
      if labelValue == X(ALL) {
        return Success([allFileList]);
      }
      var labels := CollectLabels(dataDict, labelValue, fileList);
      if labels.Failure? {
        return Failure(labels.error);
      }
      var classifyFiles := CollectGroups(dataDict, labelValue, fileList, labels.value);
      r := Success(classifyFiles);
    }

    /** `getLabelValues`: the distinct x values, one y list per distinct label
        and the distinct labels. */
    method GetLabelValues(xValue: Selector, yValue: Selector, labelValue: Selector, fileList: seq<string>)
      returns (r: Result<Series, Error>)
      ensures var err := LabelValuesError(dataDict, xValue, yValue, labelValue, fileList);
        && (err.Some? ==> r == Failure(err.value))
        && (err.None? ==> r == Success(LabelValues(dataDict, xValue, yValue, labelValue, fileList)))
    {
      var first := CollectSeries(dataDict, xValue, labelValue, fileList);
      if first.Failure? {
        return Failure(first.error);
      }
      if fileList == [] {
        return Success(Series([], [], []));
      }
      var (xs, labels) := first.value;
      var yLists := CollectYLists(dataDict, yValue, labelValue, fileList, labels);
      if yLists.Failure? {
        return Failure(yLists.error);
      }
      r := Success(Series(xs, yLists.value, labels));
    }
  }
}
