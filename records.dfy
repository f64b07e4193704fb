/** The configuration values of Analyzer/src/data.py that are built by slicing a
    token list: `NanoMachine`, `IntermediateNode`, `MicrotubuleParams`,
    `MoleculeParams`, `FEC`, the `MoleculeType` and `MovementType` enums, and
    the `toString` methods that print them back. */
module Records {
  import opened Wrappers
  import opened Errors
  import opened Text
  import opened Geometry

  /** The text handed to `float()`. Float values are not modelled: a float
      field keeps the token it was read from. */
  type FloatToken = string

  /** `float(1)`, the default molecule size. */
  const DefaultSize: FloatToken := "1"

  // ---------------------------------------------------------------------
  // Enumerations

  datatype MoleculeType = INFO | ACK | NOISE
  datatype MovementType = PASSIVE | ACTIVE

  /** `MoleculeType.name`. */
  function MoleculeTypeName(t: MoleculeType): string
  {
    match t
    case INFO => "INFO"
    case ACK => "ACK"
    case NOISE => "NOISE"
  }

  /** `MoleculeType[name]`: None stands for the KeyError of an unknown name. */
  function MoleculeTypeNamed(name: string): Option<MoleculeType>
  {
    if name == "INFO" then Some(INFO)
    else if name == "ACK" then Some(ACK)
    else if name == "NOISE" then Some(NOISE)
    else None
  }

  /** `MovementType.name`. */
  function MovementTypeName(t: MovementType): string
  {
    match t
    case PASSIVE => "PASSIVE"
    case ACTIVE => "ACTIVE"
  }

  /** `MovementType[name]`. */
  function MovementTypeNamed(name: string): Option<MovementType>
  {
    if name == "PASSIVE" then Some(PASSIVE)
    else if name == "ACTIVE" then Some(ACTIVE)
    else None
  }

  /** Lookup by name finds exactly the member with that name. */
  lemma MoleculeTypeLookup(name: string, t: MoleculeType)
    ensures MoleculeTypeNamed(name) == Some(t) <==> name == MoleculeTypeName(t)
  {
  }

  lemma MovementTypeLookup(name: string, t: MovementType)
    ensures MovementTypeNamed(name) == Some(t) <==> name == MovementTypeName(t)
  {
  }

  // ---------------------------------------------------------------------
  // Nano machines (transmitter, receiver)

  datatype NanoMachine = NanoMachine(centerPosition: Position, size: int, releasePosition: Position)

  /** The first `n` tokens exist and are integers. */
  predicate IntTokens(args: seq<string>, n: nat)
  {
    |args| >= n && forall k :: 0 <= k < n ==> ParseInt(args[k]).Some?
  }

  /** `NanoMachine(val)`: the center from tokens 0-2, the size from token 3,
      the release position from tokens 4-6; later tokens are ignored. */
  function ParseNanoMachine(val: string): (r: Result<NanoMachine, Error>)
    ensures r.Success? <==> IntTokens(Tokenize(val), 7)
    ensures r.Success? ==> Some(r.value.size) == ParseInt(Tokenize(val)[3])
  {
    var args := Tokenize(val);
    var center :- ParsePosition(Slice(args, 0, 3));
    var size :- IntAt(args, 3);
    var release :- ParsePosition(Slice(args, 4, 7));
    Success(NanoMachine(center, size, release))
  }

  /** `NanoMachine.toString`: `"{} {} {}"` of the center, the size and the release position. */
  function NanoMachineToString(n: NanoMachine): string
  {
    PositionToString(n.centerPosition) + " " + IntToString(n.size) + " " + PositionToString(n.releasePosition)
  }

  /** The three printed coordinates parse back to the point. */
  lemma ParsePrintedPosition(p: Position)
    ensures ParsePosition([IntToString(p.x), IntToString(p.y), IntToString(p.z)]) == Success(p)
  {
    IntRoundTrip(p.x);
    IntRoundTrip(p.y);
    IntRoundTrip(p.z);
  }

  /** Tokens on the two sides of a space. */
  lemma TokenizeSpaced(a: string, b: string)
    ensures Tokenize(a + " " + b) == Tokenize(a) + Tokenize(b)
  {
    assert a + " " + b == a + [' '] + b;
    TokenizeAround(a, ' ', b);
  }

  lemma IntTokenizes(n: int)
    ensures Tokenize(IntToString(n)) == [IntToString(n)]
  {
    TokenizeWord(IntToString(n));
  }

  /** Parsing the printed nano machine gives a field-equal record. */
  lemma NanoMachineRoundTrip(n: NanoMachine)
    ensures ParseNanoMachine(NanoMachineToString(n)) == Success(n)
  {
    var c, s, r := n.centerPosition, n.size, n.releasePosition;
    PositionTokens(c);
    PositionTokens(r);
    IntTokenizes(s);
    TokenizeSpaced(PositionToString(c), IntToString(s));
    TokenizeSpaced(PositionToString(c) + " " + IntToString(s), PositionToString(r));
    var args := Tokenize(NanoMachineToString(n));
    assert args == [IntToString(c.x), IntToString(c.y), IntToString(c.z), IntToString(s),
                    IntToString(r.x), IntToString(r.y), IntToString(r.z)];
    assert Slice(args, 0, 3) == [IntToString(c.x), IntToString(c.y), IntToString(c.z)];
    assert Slice(args, 4, 7) == [IntToString(r.x), IntToString(r.y), IntToString(r.z)];
    ParsePrintedPosition(c);
    ParsePrintedPosition(r);
    IntRoundTrip(s);
  }

  // ---------------------------------------------------------------------
  // Intermediate node

  datatype IntermediateNode = IntermediateNode(
    centerPosition: Position, size: int, infoReleasePosition: Position, ackReleasePosition: Position)

  /** `IntermediateNode(val)`: center from tokens 0-2, size from token 3, info
      release position from 4-6, ack release position from 7-9. */
  function ParseIntermediateNode(val: string): (r: Result<IntermediateNode, Error>)
    ensures r.Success? <==> IntTokens(Tokenize(val), 10)
    ensures r.Success? ==> Some(r.value.size) == ParseInt(Tokenize(val)[3])
  {
    var args := Tokenize(val);
    var center :- ParsePosition(Slice(args, 0, 3));
    var size :- IntAt(args, 3);
    var info :- ParsePosition(Slice(args, 4, 7));
    var ack :- ParsePosition(Slice(args, 7, 10));
    Success(IntermediateNode(center, size, info, ack))
  }

  /** `IntermediateNode.toString`: `"{} {} {} {}"`. */
  function IntermediateNodeToString(n: IntermediateNode): string
  {
    PositionToString(n.centerPosition) + " " + IntToString(n.size) + " " +
    PositionToString(n.infoReleasePosition) + " " + PositionToString(n.ackReleasePosition)
  }

  lemma IntermediateNodeRoundTrip(n: IntermediateNode)
    ensures ParseIntermediateNode(IntermediateNodeToString(n)) == Success(n)
  {
    var c, s, i, a := n.centerPosition, n.size, n.infoReleasePosition, n.ackReleasePosition;
    PositionTokens(c);
    PositionTokens(i);
    PositionTokens(a);
    IntTokenizes(s);
    var t1 := PositionToString(c) + " " + IntToString(s);
    TokenizeSpaced(PositionToString(c), IntToString(s));
    var t2 := t1 + " " + PositionToString(i);
    TokenizeSpaced(t1, PositionToString(i));
    TokenizeSpaced(t2, PositionToString(a));
    var args := Tokenize(IntermediateNodeToString(n));
    assert args == [IntToString(c.x), IntToString(c.y), IntToString(c.z), IntToString(s),
                    IntToString(i.x), IntToString(i.y), IntToString(i.z),
                    IntToString(a.x), IntToString(a.y), IntToString(a.z)];
    assert Slice(args, 0, 3) == [IntToString(c.x), IntToString(c.y), IntToString(c.z)];
    assert Slice(args, 4, 7) == [IntToString(i.x), IntToString(i.y), IntToString(i.z)];
    assert Slice(args, 7, 10) == [IntToString(a.x), IntToString(a.y), IntToString(a.z)];
    ParsePrintedPosition(c);
    ParsePrintedPosition(i);
    ParsePrintedPosition(a);
    IntRoundTrip(s);
  }

  // ---------------------------------------------------------------------
  // Microtubule

  datatype MicrotubuleParams = MicrotubuleParams(startPosition: Position, endPosition: Position)

  /** `MicrotubuleParams(val)`: start from tokens 0-2, end from tokens 3-5. */
  function ParseMicrotubuleParams(val: string): (r: Result<MicrotubuleParams, Error>)
    ensures r.Success? <==> IntTokens(Tokenize(val), 6)
  {
    var args := Tokenize(val);
    var start :- ParsePosition(Slice(args, 0, 3));
    var end :- ParsePosition(Slice(args, 3, 6));
    Success(MicrotubuleParams(start, end))
  }

  /** `MicrotubuleParams.toString`: `"{} {}"` of the two positions. */
  function MicrotubuleParamsToString(m: MicrotubuleParams): string
  {
    PositionToString(m.startPosition) + " " + PositionToString(m.endPosition)
  }

  lemma MicrotubuleParamsRoundTrip(m: MicrotubuleParams)
    ensures ParseMicrotubuleParams(MicrotubuleParamsToString(m)) == Success(m)
  {
    var s, e := m.startPosition, m.endPosition;
    PositionTokens(s);
    PositionTokens(e);
    TokenizeSpaced(PositionToString(s), PositionToString(e));
    var args := Tokenize(MicrotubuleParamsToString(m));
    assert Slice(args, 0, 3) == [IntToString(s.x), IntToString(s.y), IntToString(s.z)];
    assert Slice(args, 3, 6) == [IntToString(e.x), IntToString(e.y), IntToString(e.z)];
    ParsePrintedPosition(s);
    ParsePrintedPosition(e);
  }

  // ---------------------------------------------------------------------
  // Molecule parameters

  /** The movement part, present for INFO and ACK molecules only. */
  datatype Movement = Movement(typeOfMovement: MovementType, adaptiveChangeNumber: int)

  datatype MoleculeParams = MoleculeParams(
    duplication: int, typeOfMolecule: MoleculeType, movement: Option<Movement>, size: FloatToken)
  {
    /** The shape the parser produces: a movement exactly for non-NOISE kinds. */
    predicate WellFormed()
    {
      movement.Some? <==> typeOfMolecule != NOISE
    }
  }

  /** `[i for i in re.split(r"[ ]", val) if i != '']`. */
  function MoleculeArgs(val: string): seq<string>
  {
    RemoveEmpty(Split(val, {' '}))
  }

  /** `MoleculeParams(val)`: duplication from token 0, kind from token 1; a
      non-NOISE kind then reads a movement name (token 2) and an adaptive
      change count (token 3), and a size only when there are exactly 5 tokens;
      NOISE reads a size only when there are exactly 3 tokens. */
  function ParseMoleculeParams(val: string): (r: Result<MoleculeParams, Error>)
    ensures r.Success? ==>
      var args := MoleculeArgs(val);
      && r.value.WellFormed()
      && |args| >= 2
      && Some(r.value.duplication) == ParseInt(args[0])
      && Some(r.value.typeOfMolecule) == MoleculeTypeNamed(args[1])
      && (r.value.typeOfMolecule != NOISE ==>
            && |args| >= 4
            && Some(r.value.movement.value.typeOfMovement) == MovementTypeNamed(args[2])
            && Some(r.value.movement.value.adaptiveChangeNumber) == ParseInt(args[3])
            && r.value.size == if |args| == 5 then args[4] else DefaultSize)
      && (r.value.typeOfMolecule == NOISE ==>
            r.value.size == if |args| == 3 then args[2] else DefaultSize)
    ensures |MoleculeArgs(val)| >= 2 && MoleculeTypeNamed(MoleculeArgs(val)[1]).None? ==> r.Failure?
    ensures
      (|MoleculeArgs(val)| >= 3 && MoleculeTypeNamed(MoleculeArgs(val)[1]) != Some(NOISE) &&
       MovementTypeNamed(MoleculeArgs(val)[2]).None?) ==> r.Failure?
  {
    var args := MoleculeArgs(val);
    var duplication :- IntAt(args, 0);
    if |args| < 2 then Failure(MissingToken(1))
    else match MoleculeTypeNamed(args[1])
      case None => Failure(UnknownName(args[1]))
      case Some(kind) =>
        if kind != NOISE then
          if |args| < 3 then Failure(MissingToken(2))
          else match MovementTypeNamed(args[2])
            case None => Failure(UnknownName(args[2]))
            case Some(move) =>
              var adaptive :- IntAt(args, 3);
              var size := if |args| == 5 then args[4] else DefaultSize;
              Success(MoleculeParams(duplication, kind, Some(Movement(move, adaptive)), size))
        else
          var size := if |args| == 3 then args[2] else DefaultSize;
          Success(MoleculeParams(duplication, kind, None, size))
  }

  /** The printed fields of a molecule, in the order `toString` prints them. */
  function MoleculeFields(m: MoleculeParams): seq<string>
    requires m.WellFormed()
  {
    if m.typeOfMolecule != NOISE then
      [IntToString(m.duplication), MoleculeTypeName(m.typeOfMolecule),
       MovementTypeName(m.movement.value.typeOfMovement),
       IntToString(m.movement.value.adaptiveChangeNumber), m.size]
    else
      [IntToString(m.duplication), MoleculeTypeName(m.typeOfMolecule), m.size]
  }

  /** `MoleculeParams.toString`: the fields joined by single spaces (the
      size is printed as its token). */
  function MoleculeParamsToString(m: MoleculeParams): string
    requires m.WellFormed()
  {
    Join(MoleculeFields(m), ' ')
  }

  lemma RemoveEmptyNone(parts: seq<string>)
    requires forall i :: 0 <= i < |parts| ==> parts[i] != []
    ensures RemoveEmpty(parts) == parts
  {
    if parts != [] {
      RemoveEmptyNone(parts[1..]);
      assert parts == [parts[0]] + parts[1..];
    }
  }

  /** A printed molecule parses back to itself when its size token is a
      single word. */
  lemma MoleculeParamsRoundTrip(m: MoleculeParams)
    requires m.WellFormed()
    requires m.size != [] && Free(m.size, {' '})
    ensures ParseMoleculeParams(MoleculeParamsToString(m)) == Success(m)
  {
    var fields := MoleculeFields(m);
    assert forall i :: 0 <= i < |fields| ==> fields[i] != [] && Free(fields[i], {' '});
    JoinSplit(fields, ' ');
    RemoveEmptyNone(fields);
    assert MoleculeArgs(MoleculeParamsToString(m)) == fields;
    ParseMoleculeFields(m);
  }

  lemma ParseMoleculeFields(m: MoleculeParams)
    requires m.WellFormed()
    ensures var fields := MoleculeFields(m);
      MoleculeArgs(Join(fields, ' ')) == fields ==> ParseMoleculeParams(Join(fields, ' ')) == Success(m)
  {
    var fields := MoleculeFields(m);
    IntRoundTrip(m.duplication);
    assert MoleculeTypeNamed(MoleculeTypeName(m.typeOfMolecule)) == Some(m.typeOfMolecule);
    if m.typeOfMolecule != NOISE {
      var mv := m.movement.value;
      IntRoundTrip(mv.adaptiveChangeNumber);
      assert MovementTypeNamed(MovementTypeName(mv.typeOfMovement)) == Some(mv.typeOfMovement);
      assert |fields| == 5;
    } else {
      assert |fields| == 3;
    }
  }

  // ---------------------------------------------------------------------
  // Forward error correction

  datatype Fec = Fec(fecType: string, requirePacket: int, rate: FloatToken)

  /** `FEC(val)`: the scheme name is token 0, the required packet count token
      1, the rate token 2. */
  function ParseFec(val: string): (r: Result<Fec, Error>)
    ensures var args := Tokenize(val);
      r.Success? <==> |args| >= 3 && ParseInt(args[1]).Some?
    ensures r.Success? ==>
      var args := Tokenize(val);
      r.value.fecType == args[0] && Some(r.value.requirePacket) == ParseInt(args[1]) && r.value.rate == args[2]
  {
    var args := Tokenize(val);
    if |args| < 1 then Failure(MissingToken(0))
    else
      var requirePacket :- IntAt(args, 1);
      if |args| < 3 then Failure(MissingToken(2))
      else Success(Fec(args[0], requirePacket, args[2]))
  }

  /** A scheme name, a count and a rate written with spaces between them are
      read back as they were written. */
  lemma FecReadsWrittenFields(t: string, n: int, rate: FloatToken)
    requires t != [] && Free(t, Delims) && rate != [] && Free(rate, Delims)
    ensures ParseFec(t + " " + IntToString(n) + " " + rate) == Success(Fec(t, n, rate))
  {
    TokenizeWord(t);
    TokenizeWord(rate);
    IntTokenizes(n);
    TokenizeSpaced(t, IntToString(n));
    TokenizeSpaced(t + " " + IntToString(n), rate);
    IntRoundTrip(n);
  }
}
