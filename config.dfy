/** `DatData` (Analyzer/src/data.py): the per-run configuration file. Each
    line that is not a comment or blank is `key value`; the key decides how the
    value is parsed. Python keeps the result in one dictionary; here it is a
    record with one field per known key, two maps for the float-valued and
    integer-valued keys, and `Get`, which reads the record back as that
    dictionary. */
module Config {
  import opened Wrappers
  import opened Errors
  import opened Text
  import opened Records

  /** Keys whose value is read with `float()`. */
  const FloatKeys: set<string> := {
    "probDRail", "stepLengthX", "stepLengthY", "stepLengthZ",
    "packetStepLengthX", "packetStepLengthY", "packetStepLengthZ", "packetDiameter"}

  /** Keys with a parser of their own; every other key is read with `int()`. */
  const NamedKeys: set<string> :=
    {"transmitter", "receiver", "intermediateNode", "moleculeParams", "microtubuleParams",
     "outputFile", "FEC"} + FloatKeys

  /** The two keys whose values are appended to a list. */
  const ListKeys: set<string> := {"moleculeParams", "microtubuleParams"}

  /** One parsed configuration line. */
  datatype Entry =
    | MachineEntry(key: string, machine: NanoMachine)   // transmitter or receiver
    | IntermediateEntry(node: IntermediateNode)
    | MoleculeEntry(molecule: MoleculeParams)
    | MicrotubuleEntry(microtubule: MicrotubuleParams)
    | FloatEntry(key: string, token: FloatToken)
    | OutputFileEntry(name: string)
    | FecEntry(fec: Fec)
    | IntEntry(key: string, value: int)

  /** The key of the line an entry came from. */
  function EntryKey(e: Entry): string
  {
    match e
    case MachineEntry(k, _) => k
    case IntermediateEntry(_) => "intermediateNode"
    case MoleculeEntry(_) => "moleculeParams"
    case MicrotubuleEntry(_) => "microtubuleParams"
    case FloatEntry(k, _) => k
    case OutputFileEntry(_) => "outputFile"
    case FecEntry(_) => "FEC"
    case IntEntry(k, _) => k
  }

  /** The entry kind agrees with its key, as the dispatch in `parseFile` makes it. */
  predicate WellKeyed(e: Entry)
  {
    match e
    case MachineEntry(k, _) => k == "transmitter" || k == "receiver"
    case FloatEntry(k, _) => k in FloatKeys
    case IntEntry(k, _) => k !in NamedKeys
    case _ => true
  }

  /** The value of one `key value` line, parsed as its key demands. */
  function ParseEntry(key: string, val: string): (r: Result<Entry, Error>)
    ensures r.Success? ==> EntryKey(r.value) == key && WellKeyed(r.value)
  {
    if key == "transmitter" || key == "receiver" then
      var m :- ParseNanoMachine(val);
      Success(MachineEntry(key, m))
    else if key == "intermediateNode" then
      var n :- ParseIntermediateNode(val);
      Success(IntermediateEntry(n))
    else if key == "moleculeParams" then
      var m :- ParseMoleculeParams(val);
      Success(MoleculeEntry(m))
    else if key == "microtubuleParams" then
      var m :- ParseMicrotubuleParams(val);
      Success(MicrotubuleEntry(m))
    else if key in FloatKeys then
      Success(FloatEntry(key, val))
    else if key == "outputFile" then
      Success(OutputFileEntry(val))
    else if key == "FEC" then
      var f :- ParseFec(val);
      Success(FecEntry(f))
    else
      match ParseInt(val)
      case None => Failure(NotAnInteger(val))
      case Some(v) => Success(IntEntry(key, v))
  }

  /** `line[0] == '*'` (a comment) or an empty line (`line[0] == '\n'` before
      the terminator is removed). */
  predicate IsSkipped(line: string)
  {
    line == [] || line[0] == '*'
  }

  /** One line of the file: nothing for a skipped line, otherwise the entry of
      its `key value` split at the first space. */
  function ParseLine(line: string): (r: Result<Option<Entry>, Error>)
    ensures IsSkipped(line) ==> r == Success(None)
    ensures !IsSkipped(line) && r.Success? ==>
      r.value.Some? && SplitOnce(line).Some? && EntryKey(r.value.value) == SplitOnce(line).value.0
  {
    if IsSkipped(line) then Success(None)
    else match SplitOnce(line)
      case None => Failure(NoKeyValue(line))
      case Some((key, val)) =>
        var e :- ParseEntry(key, val);
        Success(Some(e))
  }

  datatype Config = Config(
    transmitter: Option<NanoMachine>,
    receiver: Option<NanoMachine>,
    intermediateNode: Option<IntermediateNode>,
    moleculeParams: seq<MoleculeParams>,
    microtubuleParams: seq<MicrotubuleParams>,
    floatParams: map<string, FloatToken>,
    outputFile: Option<string>,
    fec: Option<Fec>,
    intParams: map<string, int>)

  /** The dictionary `parseFile` starts from: only the two empty lists. */
  const EmptyConfig := Config(None, None, None, [], [], map[], None, None, map[])

  /** Storing one entry: appended for the two list keys, overwritten otherwise. */
  function Apply(c: Config, e: Entry): Config
  {
    match e
    case MachineEntry(k, m) =>
      if k == "transmitter" then c.(transmitter := Some(m)) else c.(receiver := Some(m))
    case IntermediateEntry(n) => c.(intermediateNode := Some(n))
    case MoleculeEntry(m) => c.(moleculeParams := c.moleculeParams + [m])
    case MicrotubuleEntry(m) => c.(microtubuleParams := c.microtubuleParams + [m])
    case FloatEntry(k, t) => c.(floatParams := c.floatParams[k := t])
    case OutputFileEntry(name) => c.(outputFile := Some(name))
    case FecEntry(f) => c.(fec := Some(f))
    case IntEntry(k, v) => c.(intParams := c.intParams[k := v])
  }

  /** One more line read into the configuration so far: an earlier failure
      stands, a failing line fails, and an entry is stored. */
  function Step(soFar: Result<Config, Error>, line: Result<Option<Entry>, Error>): Result<Config, Error>
  {
    match soFar
    case Failure(err) => Failure(err)
    case Success(c) =>
      match line
      case Failure(err) => Failure(err)
      case Success(None) => Success(c)
      case Success(Some(e)) => Success(Apply(c, e))
  }

  /** The whole file: the lines in order, stopping at the first that fails. */
  function ParseConfig(lines: seq<string>): Result<Config, Error>
  {
    if lines == [] then Success(EmptyConfig)
    else Step(ParseConfig(lines[..|lines| - 1]), ParseLine(lines[|lines| - 1]))
  }

  /** `config[key]` for a key that holds a single value: the stored entry, or
      None where Python raises KeyError. */
  function Get(c: Config, key: string): Option<Entry>
  {
    if key == "transmitter" then
      if c.transmitter.Some? then Some(MachineEntry(key, c.transmitter.value)) else None
    else if key == "receiver" then
      if c.receiver.Some? then Some(MachineEntry(key, c.receiver.value)) else None
    else if key == "intermediateNode" then
      if c.intermediateNode.Some? then Some(IntermediateEntry(c.intermediateNode.value)) else None
    else if key in FloatKeys then
      if key in c.floatParams then Some(FloatEntry(key, c.floatParams[key])) else None
    else if key == "outputFile" then
      if c.outputFile.Some? then Some(OutputFileEntry(c.outputFile.value)) else None
    else if key == "FEC" then
      if c.fec.Some? then Some(FecEntry(c.fec.value)) else None
    else if key in ListKeys then None
    else if key in c.intParams then Some(IntEntry(key, c.intParams[key]))
    else None
  }

  // ---------------------------------------------------------------------
  // Reference definitions the lemmas compare `ParseConfig` with

  /** The entries of the lines that parse, in file order. */
  function Entries(lines: seq<string>): seq<Entry>
  {
    if lines == [] then []
    else
      Entries(lines[..|lines| - 1]) +
      match ParseLine(lines[|lines| - 1])
      case Success(Some(e)) => [e]
      case _ => []
  }

  /** The last entry written under `key`. */
  function LastEntry(entries: seq<Entry>, key: string): (r: Option<Entry>)
    ensures r.Some? ==> r.value in entries && EntryKey(r.value) == key
  {
    if entries == [] then None
    else if EntryKey(entries[|entries| - 1]) == key then Some(entries[|entries| - 1])
    else LastEntry(entries[..|entries| - 1], key)
  }

  /** The molecule values among the entries, in order. */
  function Molecules(entries: seq<Entry>): seq<MoleculeParams>
  {
    if entries == [] then []
    else
      Molecules(entries[..|entries| - 1]) +
      match entries[|entries| - 1]
      case MoleculeEntry(m) => [m]
      case _ => []
  }

  /** The microtubule values among the entries, in order. */
  function Microtubules(entries: seq<Entry>): seq<MicrotubuleParams>
  {
    if entries == [] then []
    else
      Microtubules(entries[..|entries| - 1]) +
      match entries[|entries| - 1]
      case MicrotubuleEntry(m) => [m]
      case _ => []
  }

  /** `[l for l in lines if not skipped]`. */
  function WithoutSkipped(lines: seq<string>): (r: seq<string>)
    ensures forall k :: 0 <= k < |r| ==> !IsSkipped(r[k])
  {
    if lines == [] then []
    else
      WithoutSkipped(lines[..|lines| - 1]) +
      if IsSkipped(lines[|lines| - 1]) then [] else [lines[|lines| - 1]]
  }

  // ---------------------------------------------------------------------
  // Properties of `ParseConfig`

  lemma Snoc(lines: seq<string>)
    requires lines != []
    ensures lines == lines[..|lines| - 1] + [lines[|lines| - 1]]
  {
  }

  lemma PrefixOfSnoc(lines: seq<string>, line: string)
    ensures (lines + [line])[..|lines|] == lines && (lines + [line])[|lines|] == line
  {
  }

  /** Comment and blank lines change nothing: the file parses as its other
      lines alone. */
  lemma {:induction false} SkippedLinesIgnored(lines: seq<string>)
    ensures ParseConfig(lines) == ParseConfig(WithoutSkipped(lines))
    decreases |lines|
  {
    if lines != [] {
      var p, l := lines[..|lines| - 1], lines[|lines| - 1];
      SkippedLinesIgnored(p);
      var w := WithoutSkipped(p);
      if !IsSkipped(l) {
        assert WithoutSkipped(lines) == w + [l];
        PrefixOfSnoc(w, l);
      } else {
        assert WithoutSkipped(lines) == w;
        assert ParseLine(l) == Success(None);
      }
    }
  }

  /** One more line: its failure, nothing, or its entry applied. */
  lemma ConfigSnoc(lines: seq<string>, i: nat, c: Config)
    requires i < |lines| && ParseConfig(lines[..i]) == Success(c)
    ensures ParseConfig(lines[..i + 1]) ==
      match ParseLine(lines[i])
      case Failure(err) => Failure(err)
      case Success(None) => Success(c)
      case Success(Some(e)) => Success(Apply(c, e))
  {
    assert lines[..i + 1][..i] == lines[..i];
  }

  /** A failure in a prefix is the failure of the whole file. */
  lemma {:induction false} FailureStops(lines: seq<string>, i: nat)
    requires i <= |lines| && ParseConfig(lines[..i]).Failure?
    ensures ParseConfig(lines) == ParseConfig(lines[..i])
    decreases |lines| - i
  {
    if i < |lines| {
      assert lines[..i + 1][..i] == lines[..i];
      FailureStops(lines, i + 1);
    } else {
      assert lines[..i] == lines;
    }
  }

  lemma StepFails(soFar: Result<Config, Error>, line: Result<Option<Entry>, Error>)
    requires line.Failure?
    ensures Step(soFar, line).Failure?
  {
  }

  lemma PrefixFails(lines: seq<string>, i: nat)
    requires i < |lines| && ParseLine(lines[i]).Failure?
    ensures ParseConfig(lines[..i + 1]).Failure?
  {
    assert lines[..i + 1][..i] == lines[..i];
    StepFails(ParseConfig(lines[..i]), ParseLine(lines[i]));
  }

  /** A line that is neither skipped nor split by a space makes the file fail. */
  lemma LineWithoutSpaceFails(lines: seq<string>, i: nat)
    requires i < |lines| && !IsSkipped(lines[i]) && ' ' !in lines[i]
    ensures ParseConfig(lines).Failure?
  {
    NoSpacePrefixFails(lines, i);
    FailureStops(lines, i + 1);
  }

  lemma NoSpacePrefixFails(lines: seq<string>, i: nat)
    requires i < |lines| && !IsSkipped(lines[i]) && ' ' !in lines[i]
    ensures ParseConfig(lines[..i + 1]).Failure?
  {
    NoSpaceLineFails(lines[i]);
    PrefixFails(lines, i);
  }

  /** A line that is not skipped and has no space has no `key value` to unpack. */
  lemma NoSpaceLineFails(line: string)
    requires !IsSkipped(line) && ' ' !in line
    ensures ParseLine(line) == Failure(NoKeyValue(line))
  {
    SplitOnceSpec(line);
  }

  /** `GetApply` for the entries stored in a field of their own. */
  lemma GetApplySingle(c: Config, e: Entry, key: string)
    requires WellKeyed(e) && key !in ListKeys
    requires e.MachineEntry? || e.IntermediateEntry? || e.OutputFileEntry? || e.FecEntry?
    ensures Get(Apply(c, e), key) == if EntryKey(e) == key then Some(e) else Get(c, key)
  {
  }

  /** `GetApply` for the entries stored in one of the two maps. */
  lemma GetApplyMap(c: Config, e: Entry, key: string)
    requires WellKeyed(e) && key !in ListKeys && (e.FloatEntry? || e.IntEntry?)
    ensures Get(Apply(c, e), key) == if EntryKey(e) == key then Some(e) else Get(c, key)
  {
  }

  /** `GetApply` for the entries appended to a list, which `Get` does not read. */
  lemma GetApplyList(c: Config, e: Entry, key: string)
    requires WellKeyed(e) && key !in ListKeys && (e.MoleculeEntry? || e.MicrotubuleEntry?)
    ensures Get(Apply(c, e), key) == if EntryKey(e) == key then Some(e) else Get(c, key)
  {
  }

  /** Reading the result back as a dictionary: one line's entry shadows the
      key it was written under and leaves every other single-valued key alone. */
  lemma GetApply(c: Config, e: Entry, key: string)
    requires WellKeyed(e) && key !in ListKeys
    ensures Get(Apply(c, e), key) == if EntryKey(e) == key then Some(e) else Get(c, key)
  {
    if e.FloatEntry? || e.IntEntry? {
      GetApplyMap(c, e, key);
    } else if e.MoleculeEntry? || e.MicrotubuleEntry? {
      GetApplyList(c, e, key);
    } else {
      GetApplySingle(c, e, key);
    }
  }

  /** Last write wins: each single-valued key holds the entry of the last line
      written under it, and is absent when no line wrote it. */
  lemma {:induction false} LastWriteWins(lines: seq<string>, key: string)
    requires ParseConfig(lines).Success? && key !in ListKeys
    ensures Get(ParseConfig(lines).value, key) == LastEntry(Entries(lines), key)
    decreases |lines|
  {
    if lines != [] {
      var p, l := lines[..|lines| - 1], lines[|lines| - 1];
      LastWriteWins(p, key);
      var e := ParseLine(l);
      if e.value.Some? {
        GetApply(ParseConfig(p).value, e.value.value, key);
        assert Entries(lines) == Entries(p) + [e.value.value];
        assert Entries(lines)[..|Entries(lines)| - 1] == Entries(p);
      } else {
        assert Entries(lines) == Entries(p);
      }
    }
  }

  /** One step of `ParseConfig` and `Entries` on a file that parses. */
  lemma ConfigStep(lines: seq<string>)
    requires lines != [] && ParseConfig(lines).Success?
    ensures var p, l := lines[..|lines| - 1], lines[|lines| - 1];
      ParseConfig(p).Success? && ParseLine(l).Success? &&
      (ParseLine(l).value.Some? ==>
        ParseConfig(lines).value == Apply(ParseConfig(p).value, ParseLine(l).value.value) &&
        Entries(lines) == Entries(p) + [ParseLine(l).value.value]) &&
      (ParseLine(l).value.None? ==>
        ParseConfig(lines) == ParseConfig(p) && Entries(lines) == Entries(p))
  {
  }

  lemma MoleculesSnoc(es: seq<Entry>, e: Entry)
    ensures Molecules(es + [e]) == Molecules(es) + Molecules([e])
  {
    assert (es + [e])[..|es|] == es;
  }

  lemma MicrotubulesSnoc(es: seq<Entry>, e: Entry)
    ensures Microtubules(es + [e]) == Microtubules(es) + Microtubules([e])
  {
    assert (es + [e])[..|es|] == es;
  }

  /** How one entry changes the two lists. */
  lemma ApplyLists(c: Config, e: Entry)
    ensures Apply(c, e).moleculeParams == c.moleculeParams + Molecules([e])
    ensures Apply(c, e).microtubuleParams == c.microtubuleParams + Microtubules([e])
  {
    assert [e][..0] == [];
  }

  /** `moleculeParams` values are appended in file order. */
  lemma {:induction false} MoleculesInFileOrder(lines: seq<string>)
    requires ParseConfig(lines).Success?
    ensures ParseConfig(lines).value.moleculeParams == Molecules(Entries(lines))
    decreases |lines|
  {
    if lines != [] {
      var p := lines[..|lines| - 1];
      ConfigStep(lines);
      MoleculesInFileOrder(p);
      var e := ParseLine(lines[|lines| - 1]).value;
      if e.Some? {
        MoleculesSnoc(Entries(p), e.value);
        ApplyLists(ParseConfig(p).value, e.value);
      }
    }
  }

  /** `microtubuleParams` values are appended in file order. */
  lemma {:induction false} MicrotubulesInFileOrder(lines: seq<string>)
    requires ParseConfig(lines).Success?
    ensures ParseConfig(lines).value.microtubuleParams == Microtubules(Entries(lines))
    decreases |lines|
  {
    if lines != [] {
      var p := lines[..|lines| - 1];
      ConfigStep(lines);
      MicrotubulesInFileOrder(p);
      var e := ParseLine(lines[|lines| - 1]).value;
      if e.Some? {
        MicrotubulesSnoc(Entries(p), e.value);
        ApplyLists(ParseConfig(p).value, e.value);
      }
    }
  }

  // ---------------------------------------------------------------------
  // The object

  /** `DatData`: the configuration file name and the dictionary `parseFile` fills. */
  class DatData {
    const fileName: string
    var config: Config

    constructor (fileName: string)
      ensures this.fileName == fileName && config == EmptyConfig
    {
      this.fileName := fileName;
      config := EmptyConfig;
    }

    /** The branch of `parseFile` for one `key value` line: the value parsed
        as its key demands and stored in `config`. */
    method Store(key: string, val: string) returns (err: Option<Error>)
      modifies this
      ensures err.None? <==> ParseEntry(key, val).Success?
      ensures err.None? ==> config == Apply(old(config), ParseEntry(key, val).value)
      ensures err.Some? ==> ParseEntry(key, val) == Failure(err.value) && config == old(config)
    {
      err := None;
      if key == "transmitter" || key == "receiver" {
        var m := ParseNanoMachine(val);
        if m.Failure? {
          return Some(m.error);
        }
        if key == "transmitter" {
          config := config.(transmitter := Some(m.value));
        } else {
          config := config.(receiver := Some(m.value));
        }
      } else if key == "intermediateNode" {
        var n := ParseIntermediateNode(val);
        if n.Failure? {
          return Some(n.error);
        }
        config := config.(intermediateNode := Some(n.value));
      } else if key == "moleculeParams" {
        var m := ParseMoleculeParams(val);
        if m.Failure? {
          return Some(m.error);
        }
        config := config.(moleculeParams := config.moleculeParams + [m.value]);
      } else if key == "microtubuleParams" {
        var m := ParseMicrotubuleParams(val);
        if m.Failure? {
          return Some(m.error);
        }
        config := config.(microtubuleParams := config.microtubuleParams + [m.value]);
      } else if key in FloatKeys {
        config := config.(floatParams := config.floatParams[key := val]);
      } else if key == "outputFile" {
        config := config.(outputFile := Some(val));
      } else if key == "FEC" {
        var f := ParseFec(val);
        if f.Failure? {
          return Some(f.error);
        }
        config := config.(fec := Some(f.value));
      } else {
        var v := ParseInt(val);
        if v.None? {
          return Some(NotAnInteger(val));
        }
        config := config.(intParams := config.intParams[key := v.value]);
      }
    }

    /** `parseFile` over the lines of the file: on success `config` is what
        `ParseConfig` gives; otherwise the error is the first line's failure. */
    method ParseFile(lines: seq<string>) returns (err: Option<Error>)
      modifies this
      ensures err.None? <==> ParseConfig(lines).Success?
      ensures err.None? ==> config == ParseConfig(lines).value
      ensures err.Some? ==> ParseConfig(lines) == Failure(err.value)
    {
      err := None;
      config := EmptyConfig;
      var i := 0;
      while i < |lines|
        invariant 0 <= i <= |lines|
        invariant ParseConfig(lines[..i]) == Success(config) && err.None?
      {
        var line := lines[i];
        ConfigSnoc(lines, i, config);
        if IsSkipped(line) {
          i := i + 1;
          continue;
        }
        var split := SplitOnce(line);
        if split.None? {
          err := Some(NoKeyValue(line));
          FailureStops(lines, i + 1);
          return;
        }
        var (key, val) := split.value;
        err := Store(key, val);
        if err.Some? {
          FailureStops(lines, i + 1);
          return;
        }
        i := i + 1;
      }
      assert lines[..i] == lines;
    }
  }
}
