/** `Position` (Analyzer/src/data.py): a point with integer coordinates, read
    from three tokens, printed as `(x, y, z)`, with the distance between two
    points. `math.sqrt` followed by `int()` is modelled as the integer square
    root. */
module Geometry {
  import opened Wrappers
  import opened Errors
  import opened Text

  datatype Position = Position(x: int, y: int, z: int)

  /** `Position(args)`: `int(args[0])`, `int(args[1])`, `int(args[2])`; extra
      tokens are ignored, a missing one raises IndexError. */
  function ParsePosition(args: seq<string>): (r: Result<Position, Error>)
    ensures r.Success? <==>
      |args| >= 3 && ParseInt(args[0]).Some? && ParseInt(args[1]).Some? && ParseInt(args[2]).Some?
    ensures r.Success? ==>
      Some(r.value.x) == ParseInt(args[0]) && Some(r.value.y) == ParseInt(args[1]) &&
      Some(r.value.z) == ParseInt(args[2])
  {
    var x :- IntAt(args, 0);
    var y :- IntAt(args, 1);
    var z :- IntAt(args, 2);
    Success(Position(x, y, z))
  }

  /** `Position.toString`: `"({}, {}, {})".format(x, y, z)`. */
  function PositionToString(p: Position): string
  {
    "(" + IntToString(p.x) + ", " + IntToString(p.y) + ", " + IntToString(p.z) + ")"
  }

  /** A word after a delimiter adds one token. */
  lemma TokenizeThenWord(a: string, w: string)
    requires a != [] && a[|a| - 1] in Delims
    requires w != [] && Free(w, Delims)
    ensures Tokenize(a + w) == Tokenize(a) + [w]
  {
    TokenizeAppend(a, w);
    TokenizeWord(w);
  }

  /** Delimiters after the text add no token. */
  lemma TokenizeThenDelims(a: string, d: string)
    requires d != [] && forall k :: 0 <= k < |d| ==> d[k] in Delims
    ensures Tokenize(a + d) == Tokenize(a)
  {
    TokenizeAppend(a, d);
    TokenizeOnlyDelims(d);
  }

  /** The printed point opens and closes with a parenthesis and tokenizes to
      its three coordinates. */
  lemma PositionTokens(p: Position)
    ensures var s := PositionToString(p);
      s != [] && s[0] == '(' && s[|s| - 1] == ')' &&
      Tokenize(s) == [IntToString(p.x), IntToString(p.y), IntToString(p.z)]
  {
    var x, y, z := IntToString(p.x), IntToString(p.y), IntToString(p.z);
    TokenizeOnlyDelims("(");
    var s1 := "(" + x;
    TokenizeThenWord("(", x);
    var s2 := s1 + ", ";
    TokenizeThenDelims(s1, ", ");
    var s3 := s2 + y;
    TokenizeThenWord(s2, y);
    var s4 := s3 + ", ";
    TokenizeThenDelims(s3, ", ");
    var s5 := s4 + z;
    TokenizeThenWord(s4, z);
    TokenizeThenDelims(s5, ")");
    assert PositionToString(p) == s5 + ")";
  }

  /** Parsing the printed point gives the point back. */
  lemma PositionRoundTrip(p: Position)
    ensures ParsePosition(Tokenize(PositionToString(p))) == Success(p)
  {
    PositionTokens(p);
    IntRoundTrip(p.x);
    IntRoundTrip(p.y);
    IntRoundTrip(p.z);
  }

  /** The integer square root: the largest r with r * r <= n. */
  function ISqrt(n: nat): (r: nat)
    ensures r * r <= n < (r + 1) * (r + 1)
  {
    if n == 0 then 0
    else
      var s := ISqrt(n - 1);
      if (s + 1) * (s + 1) <= n then
        assert (s + 2) * (s + 2) == (s + 1) * (s + 1) + 2 * s + 3;
        s + 1
      else s
  }

  /** Only one natural number lies between the two bounds, so `ISqrt(n)` is
      `floor(sqrt(n))`, which is what `int(math.sqrt(n))` truncates to. */
  lemma ISqrtUnique(n: nat, r: nat)
    requires r * r <= n < (r + 1) * (r + 1)
    ensures ISqrt(n) == r
  {
    var s := ISqrt(n);
    if s < r {
      SquareMonotone(s + 1, r);
    } else if r < s {
      SquareMonotone(r + 1, s);
    }
  }

  lemma SquareMonotone(a: nat, b: nat)
    requires a <= b
    ensures a * a <= b * b
  {
    assert a * a <= a * b <= b * b;
  }

  function SquaredDistance(p: Position, q: Position): nat
  {
    var dx, dy, dz := p.x - q.x, p.y - q.y, p.z - q.z;
    dx * dx + dy * dy + dz * dz
  }

  /** `int(p.calcDistance(q))`: the Euclidean distance truncated to an integer. */
  function CalcDistance(p: Position, q: Position): (d: nat)
    ensures d * d <= SquaredDistance(p, q) < (d + 1) * (d + 1)
  {
    ISqrt(SquaredDistance(p, q))
  }

  lemma DistanceSymmetric(p: Position, q: Position)
    ensures CalcDistance(p, q) == CalcDistance(q, p)
  {
    var dx, dy, dz := p.x - q.x, p.y - q.y, p.z - q.z;
    assert (-dx) * (-dx) == dx * dx && (-dy) * (-dy) == dy * dy && (-dz) * (-dz) == dz * dz;
    assert SquaredDistance(p, q) == SquaredDistance(q, p);
  }

  lemma DistanceToSelf(p: Position)
    ensures CalcDistance(p, p) == 0
  {
  }

  /** Points that differ along one axis only are as far apart as their
      coordinates on that axis. */
  lemma DistanceAlongX(p: Position, q: Position)
    requires p.y == q.y && p.z == q.z
    ensures CalcDistance(p, q) == if p.x <= q.x then q.x - p.x else p.x - q.x
  {
    var d := if p.x <= q.x then q.x - p.x else p.x - q.x;
    assert SquaredDistance(p, q) == d * d;
    assert d * d < (d + 1) * (d + 1);
    ISqrtUnique(d * d, d);
  }

  lemma DistanceExample()
    ensures CalcDistance(Position(10, 20, 30), Position(40, 20, 30)) == 30
  {
    DistanceAlongX(Position(10, 20, 30), Position(40, 20, 30));
  }
}
