/** String handling the parsers rely on: Python's `str.split` with one
    separator, `re.split` over a character class, `split(' ', 1)`, `int()` of a
    decimal token, `str(n)`, `strip()`, and list slicing. */
module Text {
  import opened Wrappers
  import opened Errors

  /** Path of a file mapped to its lines, each without its line terminator.
      A path that is not a key is a file that does not exist. */
  type FileSystem = map<string, seq<string>>

  /** True when no character of `t` is one of `seps`. */
  predicate Free(t: string, seps: set<char>)
  {
    forall k :: 0 <= k < |t| ==> t[k] !in seps
  }

  /** `s.split(c)` for one separator `c` (`seps == {c}`), and the `re.split`
      over a character class `[...]` (`seps` is the class): every separator
      ends one part, so empty parts are kept. */
  function Split(s: string, seps: set<char>): (parts: seq<string>)
    ensures |parts| >= 1
    decreases |s|
  {
    if s == [] then [[]]
    else
      var rest := Split(s[1..], seps);
      if s[0] in seps then [[]] + rest
      else [[s[0]] + rest[0]] + rest[1..]
  }

  /** No part of a split holds a separator. */
  lemma {:induction false} SplitPartsFree(s: string, seps: set<char>)
    ensures forall i :: 0 <= i < |Split(s, seps)| ==> Free(Split(s, seps)[i], seps)
    decreases |s|
  {
    if s != [] {
      SplitPartsFree(s[1..], seps);
      var rest := Split(s[1..], seps);
      if s[0] !in seps {
        var first := [s[0]] + rest[0];
        assert Free(first, seps) by {
          forall k | 0 <= k < |first| ensures first[k] !in seps {
            if k > 0 { assert first[k] == rest[0][k - 1]; }
          }
        }
      }
    }
  }

  /** `c.join(parts)`. */
  function Join(parts: seq<string>, c: char): string
  {
    if |parts| == 0 then []
    else if |parts| == 1 then parts[0]
    else parts[0] + [c] + Join(parts[1..], c)
  }

  lemma {:induction false} SplitJoin(s: string, c: char)
    ensures Join(Split(s, {c}), c) == s
    decreases |s|
  {
    if s != [] {
      var rest := Split(s[1..], {c});
      SplitJoin(s[1..], c);
      if s[0] == c {
        assert Split(s, {c}) == [[]] + rest;
      } else {
        var parts := Split(s, {c});
        assert parts == [[s[0]] + rest[0]] + rest[1..];
        if |rest| == 1 {
          assert Join(parts, c) == [s[0]] + rest[0];
        } else {
          assert rest == [rest[0]] + rest[1..];
          assert Join(rest, c) == rest[0] + [c] + Join(rest[1..], c);
          assert parts[1..] == rest[1..];
        }
      }
    }
  }

  /** One step of `Split`: the first character either ends the first part or joins it. */
  lemma SplitCons(x: char, t: string, seps: set<char>)
    ensures Split([x] + t, seps) ==
      if x in seps then [[]] + Split(t, seps)
      else [[x] + Split(t, seps)[0]] + Split(t, seps)[1..]
  {
    assert ([x] + t)[1..] == t;
  }

  lemma GlueFirst(x: char, left: seq<string>, right: seq<string>)
    requires |left| >= 1
    ensures [[x] + (left + right)[0]] + (left + right)[1..] == ([[x] + left[0]] + left[1..]) + right
  {
    assert (left + right)[0] == left[0];
    assert (left + right)[1..] == left[1..] + right;
  }

  /** A separator splits the text around it into the parts of each side. */
  lemma {:induction false} SplitAround(a: string, c: char, b: string, seps: set<char>)
    requires c in seps
    ensures Split(a + [c] + b, seps) == Split(a, seps) + Split(b, seps)
    decreases |a|
  {
    if a == [] {
      assert a + [c] + b == [c] + b;
      SplitCons(c, b, seps);
    } else {
      var a' := a[1..];
      assert a == [a[0]] + a';
      assert a + [c] + b == [a[0]] + (a' + [c] + b);
      SplitAround(a', c, b, seps);
      SplitAroundCons(a[0], a', a' + [c] + b, b, seps);
    }
  }

  /** The step of `SplitAround`: one more character in front of both sides. */
  lemma SplitAroundCons(x: char, a: string, t: string, b: string, seps: set<char>)
    requires Split(t, seps) == Split(a, seps) + Split(b, seps)
    ensures Split([x] + t, seps) == Split([x] + a, seps) + Split(b, seps)
  {
    if x in seps {
      SeparatorFirst(x, a, t, b, seps);
    } else {
      CharacterFirst(x, a, t, b, seps);
    }
  }

  lemma SeparatorFirst(x: char, a: string, t: string, b: string, seps: set<char>)
    requires Split(t, seps) == Split(a, seps) + Split(b, seps) && x in seps
    ensures Split([x] + t, seps) == Split([x] + a, seps) + Split(b, seps)
  {
    SplitCons(x, t, seps);
    SplitCons(x, a, seps);
    ConsAssoc([], Split(a, seps), Split(b, seps));
  }

  lemma ConsAssoc<T>(h: T, left: seq<T>, right: seq<T>)
    ensures [h] + (left + right) == ([h] + left) + right
  {
  }

  lemma CharacterFirst(x: char, a: string, t: string, b: string, seps: set<char>)
    requires Split(t, seps) == Split(a, seps) + Split(b, seps) && x !in seps
    ensures Split([x] + t, seps) == Split([x] + a, seps) + Split(b, seps)
  {
    SplitCons(x, t, seps);
    SplitCons(x, a, seps);
    GlueFirst(x, Split(a, seps), Split(b, seps));
  }

  /** Text without a separator is one part. */
  lemma {:induction false} SplitFree(t: string, seps: set<char>)
    requires Free(t, seps)
    ensures Split(t, seps) == [t]
    decreases |t|
  {
    if t != [] {
      assert Free(t[1..], seps) by {
        forall k | 0 <= k < |t[1..]| ensures t[1..][k] !in seps {
          assert t[1..][k] == t[k + 1];
        }
      }
      SplitFree(t[1..], seps);
      assert [t[0]] + t[1..] == t;
    }
  }

  /** Joining parts that hold no separator and splitting again gives the parts back. */
  lemma {:induction false} JoinSplit(parts: seq<string>, c: char)
    requires |parts| >= 1
    requires forall i :: 0 <= i < |parts| ==> Free(parts[i], {c})
    ensures Split(Join(parts, c), {c}) == parts
    decreases |parts|
  {
    if |parts| == 1 {
      SplitFree(parts[0], {c});
    } else {
      JoinSplit(parts[1..], c);
      SplitAround(parts[0], c, Join(parts[1..], c), {c});
      SplitFree(parts[0], {c});
      assert parts == [parts[0]] + parts[1..];
    }
  }

  /** Joining separator-free parts with a character outside the separators
      gives a separator-free string. */
  lemma {:induction false} JoinFree(parts: seq<string>, c: char, seps: set<char>)
    requires c !in seps && forall i :: 0 <= i < |parts| ==> Free(parts[i], seps)
    ensures Free(Join(parts, c), seps)
    decreases |parts|
  {
    if |parts| > 1 {
      JoinFree(parts[1..], c, seps);
      var j := Join(parts[1..], c);
      var s := parts[0] + [c] + j;
      forall k | 0 <= k < |s| ensures s[k] !in seps {
        if k > |parts[0]| {
          assert s[k] == j[k - |parts[0]| - 1];
        }
      }
    }
  }

  /** `[i for i in parts if i != '']`. */
  function RemoveEmpty(parts: seq<string>): (r: seq<string>)
    ensures forall i :: 0 <= i < |r| ==> r[i] != []
    ensures |r| <= |parts|
  {
    if parts == [] then []
    else if parts[0] == [] then RemoveEmpty(parts[1..])
    else [parts[0]] + RemoveEmpty(parts[1..])
  }

  lemma {:induction false} RemoveEmptyAppend(a: seq<string>, b: seq<string>)
    ensures RemoveEmpty(a + b) == RemoveEmpty(a) + RemoveEmpty(b)
    decreases |a|
  {
    if a != [] {
      RemoveEmptyAppend(a[1..], b);
      assert (a + b)[1..] == a[1..] + b;
      assert (a + b)[0] == a[0];
    } else {
      assert a + b == b;
    }
  }

  /** The delimiters of `re.split(r"[,( )]", val)`. */
  const Delims: set<char> := {',', '(', ' ', ')'}

  /** `[i for i in re.split(r"[,( )]", val) if i != '']`: the non-empty runs
      of characters between commas, parentheses and spaces. */
  function Tokenize(val: string): (tokens: seq<string>)
    ensures forall i :: 0 <= i < |tokens| ==> tokens[i] != [] && Free(tokens[i], Delims)
  {
    var parts := Split(val, Delims);
    var r := RemoveEmpty(parts);
    assert forall i :: 0 <= i < |r| ==> r[i] in parts by {
      RemoveEmptyIn(parts);
    }
    SplitPartsFree(val, Delims);
    r
  }

  lemma {:induction false} RemoveEmptyIn(parts: seq<string>)
    ensures forall t :: t in RemoveEmpty(parts) ==> t in parts
    decreases |parts|
  {
    if parts != [] {
      RemoveEmptyIn(parts[1..]);
    }
  }

  /** Text made only of delimiters has no tokens. */
  lemma {:induction false} TokenizeOnlyDelims(s: string)
    requires forall k :: 0 <= k < |s| ==> s[k] in Delims
    ensures Tokenize(s) == []
    decreases |s|
  {
    if s != [] {
      TokenizeOnlyDelims(s[1..]);
      assert Split(s, Delims) == [[]] + Split(s[1..], Delims);
      assert RemoveEmpty([[]] + Split(s[1..], Delims)) == RemoveEmpty(Split(s[1..], Delims));
    }
  }

  /** A delimiter-free, non-empty word is a single token. */
  lemma TokenizeWord(w: string)
    requires w != [] && Free(w, Delims)
    ensures Tokenize(w) == [w]
  {
    SplitFree(w, Delims);
    assert RemoveEmpty([w]) == [w] + RemoveEmpty([]);
  }

  /** Tokens of a concatenation are the tokens of each side, as long as a
      delimiter stands at the seam. */
  lemma TokenizeAppend(a: string, b: string)
    requires (a != [] && a[|a| - 1] in Delims) || (b != [] && b[0] in Delims)
    ensures Tokenize(a + b) == Tokenize(a) + Tokenize(b)
  {
    if a != [] && a[|a| - 1] in Delims {
      var a' := a[..|a| - 1];
      assert a == a' + [a[|a| - 1]];
      TokenizeAround(a', a[|a| - 1], b);
      TokenizeAround(a', a[|a| - 1], []);
      assert a + b == a' + [a[|a| - 1]] + b;
      assert a == a' + [a[|a| - 1]] + [];
    } else {
      var b' := b[1..];
      assert b == [b[0]] + b';
      TokenizeAround(a, b[0], b');
      TokenizeAround([], b[0], b');
      assert a + b == a + [b[0]] + b';
      assert b == [] + [b[0]] + b';
    }
  }

  lemma TokenizeAround(a: string, c: char, b: string)
    requires c in Delims
    ensures Tokenize(a + [c] + b) == Tokenize(a) + Tokenize(b)
  {
    SplitAround(a, c, b, Delims);
    RemoveEmptyAppend(Split(a, Delims), Split(b, Delims));
  }

  /** `line.split(' ', 1)` unpacked into two names: the text before the first
      space and the text after it, or None when there is no space (the
      unpacking then raises). */
  function SplitOnce(line: string): Option<(string, string)>
  {
    if line == [] then None
    else if line[0] == ' ' then Some(([], line[1..]))
    else
      match SplitOnce(line[1..])
      case None => None
      case Some((k, v)) => Some(([line[0]] + k, v))
  }

  /** The split fails exactly when there is no space; otherwise the line is
      the key, a space and the rest, and the key holds no space. */
  lemma {:induction false} SplitOnceSpec(line: string)
    ensures SplitOnce(line).None? <==> ' ' !in line
    ensures SplitOnce(line).Some? ==>
      var (k, v) := SplitOnce(line).value;
      line == k + " " + v && ' ' !in k
    decreases |line|
  {
    if line != [] && line[0] != ' ' {
      SplitOnceSpec(line[1..]);
      assert line == [line[0]] + line[1..];
    }
  }

  /** Python's slice `args[lo:hi]` for 0 <= lo <= hi: clipped to the list. */
  function Slice<T>(args: seq<T>, lo: nat, hi: nat): (r: seq<T>)
    requires lo <= hi
    ensures hi <= |args| ==> r == args[lo..hi]
    ensures |args| <= lo ==> r == []
  {
    var l := if lo <= |args| then lo else |args|;
    var h := if hi <= |args| then hi else |args|;
    args[l..h]
  }

  // ---------------------------------------------------------------------
  // Decimal integers

  predicate IsDigit(c: char) { '0' <= c <= '9' }

  predicate AllDigits(s: string)
  {
    forall k :: 0 <= k < |s| ==> IsDigit(s[k])
  }

  /** Value of a string of decimal digits, most significant first. */
  function DigitsValue(s: string): nat
    requires AllDigits(s)
  {
    if s == [] then 0
    else DigitsValue(s[..|s| - 1]) * 10 + (s[|s| - 1] as int - '0' as int)
  }

  function DigitChar(d: nat): (c: char)
    requires d < 10
    ensures IsDigit(c) && c as int - '0' as int == d
  {
    ('0' as int + d) as char
  }

  /** `str(n)` for n >= 0. */
  function NatToString(n: nat): (s: string)
    ensures s != [] && AllDigits(s)
  {
    if n < 10 then [DigitChar(n)]
    else NatToString(n / 10) + [DigitChar(n % 10)]
  }

  /** `str(n)`: the decimal digits of |n|, after a minus sign when n < 0. */
  function IntToString(n: int): (s: string)
    ensures s != [] && Free(s, Delims) && Free(s, {'/'})
  {
    if n < 0 then "-" + NatToString(-n) else NatToString(n)
  }

  /** `int(token)` on a token without surrounding whitespace: an optional sign
      followed by at least one decimal digit. */
  function ParseInt(token: string): (r: Option<int>)
    ensures r.Some? ==> token != []
  {
    if token != [] && (token[0] == '-' || token[0] == '+') then
      var digits := token[1..];
      if digits != [] && AllDigits(digits) then
        Some(if token[0] == '-' then 0 - DigitsValue(digits) else DigitsValue(digits))
      else None
    else if token != [] && AllDigits(token) then Some(DigitsValue(token))
    else None
  }

  lemma {:induction false} NatToStringValue(n: nat)
    ensures DigitsValue(NatToString(n)) == n
    decreases n
  {
    if n >= 10 {
      NatToStringValue(n / 10);
      var s := NatToString(n);
      assert s[..|s| - 1] == NatToString(n / 10);
    }
  }

  /** `int(str(n)) == n`. */
  lemma IntRoundTrip(n: int)
    ensures ParseInt(IntToString(n)) == Some(n)
  {
    if n < 0 {
      var digits := NatToString(-n);
      NatToStringValue(-n);
      var token := "-" + digits;
      assert token[0] == '-' && token[1..] == digits;
      assert ParseInt(token) == Some(0 - DigitsValue(digits));
    } else {
      var token := NatToString(n);
      NatToStringValue(n);
      assert token[0] != '-' && token[0] != '+';
      assert ParseInt(token) == Some(DigitsValue(token));
    }
  }

  /** `int(token)` for an index into a token list: IndexError past its end,
      ValueError when the token is not an integer. */
  function IntAt(args: seq<string>, k: nat): (r: Result<int, Error>)
    ensures k >= |args| ==> r == Failure(MissingToken(k))
    ensures k < |args| && ParseInt(args[k]).None? ==> r == Failure(NotAnInteger(args[k]))
    ensures r.Success? ==> k < |args| && ParseInt(args[k]) == Some(r.value)
  {
    if k >= |args| then Failure(MissingToken(k))
    else match ParseInt(args[k])
      case None => Failure(NotAnInteger(args[k]))
      case Some(v) => Success(v)
  }

  /** The characters `str.strip()` removes: those for which `str.isspace()`
      holds, the ASCII separators and the Unicode spaces. */
  predicate IsSpace(c: char)
  {
    || '\t' <= c <= '\r' || '\U{1C}' <= c <= ' '
    || c == '\U{85}' || c == '\U{A0}' || c == '\U{1680}'
    || '\U{2000}' <= c <= '\U{200A}' || c == '\U{2028}' || c == '\U{2029}'
    || c == '\U{202F}' || c == '\U{205F}' || c == '\U{3000}'
  }

  /** `s.lstrip()`. */
  function StripLeft(s: string): string
  {
    if s != [] && IsSpace(s[0]) then StripLeft(s[1..]) else s
  }

  /** `s.rstrip()`. */
  function StripRight(s: string): string
  {
    if s != [] && IsSpace(s[|s| - 1]) then StripRight(s[..|s| - 1]) else s
  }

  /** `s.strip()`. */
  function Strip(s: string): string
  {
    StripRight(StripLeft(s))
  }

  /** `lstrip` removes exactly the leading whitespace: what is left is a suffix
      that does not start with whitespace, and everything before it is whitespace. */
  lemma {:induction false} StripLeftSpec(s: string)
    ensures var r := StripLeft(s);
      && |r| <= |s| && r == s[|s| - |r|..]
      && (r == [] || !IsSpace(r[0]))
      && forall k :: 0 <= k < |s| - |r| ==> IsSpace(s[k])
    decreases |s|
  {
    if s != [] && IsSpace(s[0]) {
      StripLeftSpec(s[1..]);
      var r := StripLeft(s);
      forall k | 0 <= k < |s| - |r| ensures IsSpace(s[k]) {
        if k > 0 {
          assert s[k] == s[1..][k - 1];
        }
      }
    }
  }

  /** `rstrip` removes exactly the trailing whitespace. */
  lemma {:induction false} StripRightSpec(s: string)
    ensures var r := StripRight(s);
      && |r| <= |s| && r == s[..|r|]
      && (r == [] || !IsSpace(r[|r| - 1]))
      && forall k :: |r| <= k < |s| ==> IsSpace(s[k])
    decreases |s|
  {
    if s != [] && IsSpace(s[|s| - 1]) {
      var p := s[..|s| - 1];
      StripRightSpec(p);
      var r := StripRight(s);
      assert r == StripRight(p);
      forall k | |r| <= k < |s| ensures IsSpace(s[k]) {
        if k < |p| {
          assert s[k] == p[k];
        }
      }
      assert r == p[..|r|];
    }
  }

  /** A string with no whitespace at either end is its own `strip()`. */
  lemma StripTrimmed(s: string)
    requires s == [] || (!IsSpace(s[0]) && !IsSpace(s[|s| - 1]))
    ensures Strip(s) == s
  {
  }
  /** `int(args[k])` of a printed integer is that integer. */
  lemma IntAtPrinted(args: seq<string>, k: nat, n: int)
    requires k < |args| && args[k] == IntToString(n)
    ensures IntAt(args, k) == Success(n)
  {
    IntRoundTrip(n);
  }

  /** Leading whitespace makes no difference to `lstrip`. */
  lemma {:induction false} StripLeftPadding(w: string, s: string)
    requires forall k :: 0 <= k < |w| ==> IsSpace(w[k])
    ensures StripLeft(w + s) == StripLeft(s)
    decreases |w|
  {
    if w != [] {
      assert (w + s)[0] == w[0] && (w + s)[1..] == w[1..] + s;
      StripLeftPadding(w[1..], s);
    } else {
      assert w + s == s;
    }
  }

  /** Trailing whitespace makes no difference to `rstrip`. */
  lemma {:induction false} StripRightPadding(s: string, w: string)
    requires forall k :: 0 <= k < |w| ==> IsSpace(w[k])
    ensures StripRight(s + w) == StripRight(s)
    decreases |w|
  {
    if w != [] {
      var p := w[..|w| - 1];
      assert (s + w)[|s + w| - 1] == w[|w| - 1] && (s + w)[..|s + w| - 1] == s + p;
      StripRightPadding(s, p);
    } else {
      assert s + w == s;
    }
  }

  /** `strip()` removes exactly the whitespace padding around a trimmed word. */
  lemma StripPadded(w1: string, s: string, w2: string)
    requires forall k :: 0 <= k < |w1| ==> IsSpace(w1[k])
    requires forall k :: 0 <= k < |w2| ==> IsSpace(w2[k])
    requires s != [] && !IsSpace(s[0]) && !IsSpace(s[|s| - 1])
    ensures Strip(w1 + s + w2) == s
  {
    assert w1 + s + w2 == w1 + (s + w2);
    StripLeftPadding(w1, s + w2);
    assert StripLeft(s + w2) == s + w2;
    StripRightPadding(s, w2);
    StripTrimmed(s);
  }
}
