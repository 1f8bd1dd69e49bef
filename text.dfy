/**
 * The Python string and list primitives the client leans on: `s.split(sep)` with a
 * one-character separator, `sep.join(pieces)`, `list.index`, `int(text)` and
 * `str(n)` for base-10 integers.
 */
module Text {
  import opened Wrappers

  // ---------------------------------------------------------------- split / join

  /** `s.split(sep)` for a single separator element: empty pieces are kept, and there is always one piece more than separators. */
  function Split<T(==)>(s: seq<T>, sep: T): (r: seq<seq<T>>)
    ensures |r| >= 1
    decreases |s|
  {
    if s == [] then [[]]
    else
      var rest := Split(s[1..], sep);
      if s[0] == sep then [[]] + rest else [[s[0]] + rest[0]] + rest[1..]
  }

  /** The summed length of the pieces. */
  function TotalLength<T>(pieces: seq<seq<T>>): nat
  {
    if pieces == [] then 0 else |pieces[0]| + TotalLength(pieces[1..])
  }

  /**
   * `sep.join(pieces)`: every piece, with one separator between every two of them;
   * the first piece, then the separator, then the join of the rest.
   */
  function Join<T>(pieces: seq<seq<T>>, sep: T): (r: seq<T>)
    ensures |pieces| >= 1 ==> |r| == TotalLength(pieces) + |pieces| - 1
    ensures |pieces| >= 1 ==> forall k :: 0 <= k < |pieces[0]| ==> r[k] == pieces[0][k]
    ensures |pieces| >= 2 ==> r[|pieces[0]|] == sep && r[|pieces[0]| + 1..] == Join(pieces[1..], sep)
    decreases |pieces|
  {
    if pieces == [] then []
    else if |pieces| == 1 then pieces[0]
    else pieces[0] + [sep] + Join(pieces[1..], sep)
  }

  /** How many times x occurs in s. */
  function Count<T(==)>(s: seq<T>, x: T): nat
  {
    if s == [] then 0 else (if s[0] == x then 1 else 0) + Count(s[1..], x)
  }

  /** No piece of a split contains the separator. */
  lemma {:induction false} SplitPiecesFree<T>(s: seq<T>, sep: T)
    ensures forall k :: 0 <= k < |Split(s, sep)| ==> sep !in Split(s, sep)[k]
    decreases |s|
  {
    if s != [] {
      SplitPiecesFree(s[1..], sep);
    }
  }

  /** Splitting yields exactly one piece more than there are separators. */
  lemma {:induction false} SplitLength<T>(s: seq<T>, sep: T)
    ensures |Split(s, sep)| == Count(s, sep) + 1
    decreases |s|
  {
    if s != [] {
      SplitLength(s[1..], sep);
    }
  }

  /** Prepending an element to the first piece prepends it to the join. */
  lemma JoinConsHead<T>(x: T, pieces: seq<seq<T>>, sep: T)
    requires |pieces| >= 1
    ensures Join([[x] + pieces[0]] + pieces[1..], sep) == [x] + Join(pieces, sep)
  {
    var r := [[x] + pieces[0]] + pieces[1..];
    if |pieces| > 1 {
      assert r[1..] == pieces[1..];
    }
  }

  /** An empty first piece contributes only the separator. */
  lemma JoinEmptyHead<T>(pieces: seq<seq<T>>, sep: T)
    requires |pieces| >= 1
    ensures Join([[]] + pieces, sep) == [sep] + Join(pieces, sep)
  {
    assert ([[]] + pieces)[1..] == pieces;
  }

  /** Joining the pieces of a split with the same separator gives back the original. */
  lemma {:induction false} JoinSplit<T>(s: seq<T>, sep: T)
    ensures Join(Split(s, sep), sep) == s
    decreases |s|
  {
    if s != [] {
      var rest := Split(s[1..], sep);
      JoinSplit(s[1..], sep);
      if s[0] == sep {
        JoinEmptyHead(rest, sep);
      } else {
        JoinConsHead(s[0], rest, sep);
      }
      assert [s[0]] + s[1..] == s;
    }
  }

  /** The converse: splitting a join of separator-free pieces gives back the pieces. */
  lemma {:induction false} SplitJoin<T>(pieces: seq<seq<T>>, sep: T)
    requires |pieces| >= 1
    requires forall k :: 0 <= k < |pieces| ==> sep !in pieces[k]
    ensures Split(Join(pieces, sep), sep) == pieces
    decreases |pieces|, |pieces[0]|
  {
    var p := pieces[0];
    if |pieces| == 1 {
      SplitNoSep(p, sep);
    } else if p == [] {
      assert Join(pieces, sep) == [sep] + Join(pieces[1..], sep);
      SplitJoin(pieces[1..], sep);
      assert ([sep] + Join(pieces[1..], sep))[1..] == Join(pieces[1..], sep);
      assert [[]] + pieces[1..] == pieces;
    } else {
      var tail := [p[1..]] + pieces[1..];
      assert forall k :: 0 <= k < |tail| ==> sep !in tail[k] by {
        assert tail[0] == p[1..];
        assert forall k :: 1 <= k < |tail| ==> tail[k] == pieces[k];
      }
      assert Join(pieces, sep) == [p[0]] + Join(tail, sep) by {
        assert tail[1..] == pieces[1..];
        assert p == [p[0]] + p[1..];
      }
      SplitJoin(tail, sep);
      assert ([p[0]] + Join(tail, sep))[1..] == Join(tail, sep);
      assert p[0] != sep;
      assert [p[0]] + p[1..] == p;
      assert [p] + pieces[1..] == pieces;
    }
  }

  /** A sequence without the separator splits into itself alone. */
  lemma {:induction false} SplitNoSep<T>(s: seq<T>, sep: T)
    requires sep !in s
    ensures Split(s, sep) == [s]
    decreases |s|
  {
    if s != [] {
      SplitNoSep(s[1..], sep);
      assert [s[0]] + s[1..] == s;
    }
  }

  /** The first piece of a split is the part of s before its first separator. */
  lemma {:induction false} SplitFirst<T>(s: seq<T>, sep: T)
    ensures var h := Split(s, sep)[0];
      && |h| <= |s| && h == s[..|h|] && sep !in h && (|h| == |s| || s[|h|] == sep)
    decreases |s|
  {
    if s != [] {
      SplitFirst(s[1..], sep);
      SplitPiecesFree(s, sep);
    }
  }

  /** `s.split(sep)[0]`: everything before the first separator (all of s when there is none). */
  lemma {:induction false} SplitHead<T>(s: seq<T>, sep: T, k: nat)
    requires k <= |s| && sep !in s[..k] && (k == |s| || s[k] == sep)
    ensures Split(s, sep)[0] == s[..k]
    decreases |s|
  {
    if s != [] && k > 0 {
      assert s[1..][..k - 1] == s[1..k];
      SplitHead(s[1..], sep, k - 1);
      assert [s[0]] + s[1..k] == s[..k];
    }
  }

  // ---------------------------------------------------------------- slicing

  /** How Python resolves a slice bound: negative counts from the end, and the result is clamped to [0, len]. */
  function SliceBound(i: int, len: nat): (r: nat)
    ensures r <= len
    ensures 0 <= i <= len ==> r == i
    ensures i > len ==> r == len
    ensures -(len as int) <= i < 0 ==> r == len + i
    ensures i < -(len as int) ==> r == 0
  {
    if i < 0 then (if i + len < 0 then 0 else i + len) else if i > len then len else i
  }

  /** `s[start:stop]`: never raises; bounds outside the sequence make the slice shorter or empty. */
  function PySlice<T>(s: seq<T>, start: int, stop: int): (r: seq<T>)
    ensures |r| <= |s|
    ensures forall k :: 0 <= k < |r| ==> SliceBound(start, |s|) + k < |s| && r[k] == s[SliceBound(start, |s|) + k]
    ensures |r| == 0 <==> SliceBound(stop, |s|) <= SliceBound(start, |s|)
  {
    var a := SliceBound(start, |s|);
    var b := SliceBound(stop, |s|);
    if a < b then s[a..b] else []
  }

  /** With non-negative bounds, a slice is the part of [start, stop) that lies inside the sequence. */
  lemma PySliceNonNegative<T>(s: seq<T>, start: nat, stop: nat)
    ensures start <= stop <= |s| ==> PySlice(s, start, stop) == s[start..stop]
    ensures start <= |s| <= stop ==> PySlice(s, start, stop) == s[start..]
    ensures |s| <= start ==> PySlice(s, start, stop) == []
    ensures |PySlice(s, start, stop)| == (if stop <= start || |s| <= start then 0
                                          else (if stop <= |s| then stop else |s|) - start)
  {
  }

  // ---------------------------------------------------------------- list.index

  /** `xs.index(x)` when x occurs: the position of its first occurrence; None where Python raises ValueError. */
  function IndexOf<T(==)>(xs: seq<T>, x: T): (r: Option<nat>)
    ensures r.Some? <==> x in xs
    ensures r.Some? ==> r.value < |xs| && xs[r.value] == x && x !in xs[..r.value]
  {
    if xs == [] then None
    else if xs[0] == x then Some(0)
    else match IndexOf(xs[1..], x)
      case None => None
      case Some(i) => assert xs[..i + 1] == [xs[0]] + xs[1..][..i]; Some(i + 1)
  }

  // ---------------------------------------------------------------- int() and str()

  predicate IsDigit(c: char) { '0' <= c <= '9' }

  function DigitValue(c: char): (d: nat)
    requires IsDigit(c)
    ensures d < 10
  {
    c as int - '0' as int
  }

  function DigitChar(d: nat): (c: char)
    requires d < 10
    ensures IsDigit(c) && DigitValue(c) == d
  {
    ('0' as int + d) as char
  }

  /** The value of a non-empty run of decimal digits, most significant first. */
  function DigitsValue(s: string): nat
    requires forall k :: 0 <= k < |s| ==> IsDigit(s[k])
    decreases |s|
  {
    if s == [] then 0 else DigitsValue(s[..|s| - 1]) * 10 + DigitValue(s[|s| - 1])
  }

  /** The decimal digits of n, without leading zeros (str(n) for n >= 0). */
  function NatToString(n: nat): (s: string)
    ensures |s| >= 1 && forall k :: 0 <= k < |s| ==> IsDigit(s[k])
  {
    if n < 10 then [DigitChar(n)] else NatToString(n / 10) + [DigitChar(n % 10)]
  }

  /** `str(n)`. */
  function IntToString(n: int): (s: string)
    ensures |s| >= 1
  {
    if n < 0 then "-" + NatToString(-n) else NatToString(n)
  }

  /** The characters str.isspace() accepts, which int() ignores around the number. */
  predicate IsSpace(c: char)
  {
    var n := c as int;
    || n == 0x20 || 0x09 <= n <= 0x0D || 0x1C <= n <= 0x1F || n == 0x85 || n == 0xA0
    || n == 0x1680 || 0x2000 <= n <= 0x200A || n == 0x2028 || n == 0x2029
    || n == 0x202F || n == 0x205F || n == 0x3000
  }

  /** s without its leading and trailing whitespace (str.strip()). */
  function Strip(s: string): (r: string)
    ensures |r| <= |s|
    ensures r != [] ==> !IsSpace(r[0]) && !IsSpace(r[|r| - 1])
    ensures s != [] && !IsSpace(s[0]) && !IsSpace(s[|s| - 1]) ==> r == s
    decreases |s|
  {
    if s == [] then []
    else if IsSpace(s[0]) then Strip(s[1..])
    else if IsSpace(s[|s| - 1]) then Strip(s[..|s| - 1])
    else s
  }

  /** A digit string in the sense of int(): digits with single underscores between digits. */
  predicate IsDigitGroup(s: string)
  {
    && s != [] && IsDigit(s[0]) && IsDigit(s[|s| - 1])
    && (forall k :: 0 <= k < |s| ==> IsDigit(s[k]) || s[k] == '_')
    && (forall k :: 0 <= k < |s| - 1 ==> !(s[k] == '_' && s[k + 1] == '_'))
  }

  /** The characters of s other than '_'. */
  function RemoveUnderscores(s: string): (r: string)
    ensures forall k :: 0 <= k < |r| ==> r[k] != '_' && r[k] in s
  {
    if s == [] then [] else (if s[0] == '_' then [] else [s[0]]) + RemoveUnderscores(s[1..])
  }

  /** `int(text)` in base 10; None where Python raises ValueError. */
  function ParseInt(text: string): (r: Option<int>)
    ensures r.Some? ==> Strip(text) != [] && IsDigit(Strip(text)[|Strip(text)| - 1])
    ensures r.Some? && r.value < 0 ==> Strip(text) != [] && Strip(text)[0] == '-'
  {
    var t := Strip(text);
    if t == [] then None
    else
      var negative := t[0] == '-';
      var body := if t[0] == '-' || t[0] == '+' then t[1..] else t;
      if !IsDigitGroup(body) then None
      else
        var digits := RemoveUnderscores(body);
        var v: int := DigitsValue(digits);
        var n: int := if negative then -v else v;
        Some(n)
  }

  lemma {:induction false} DigitsValueNatToString(n: nat)
    ensures DigitsValue(NatToString(n)) == n
  {
    if n >= 10 {
      var s := NatToString(n);
      assert s[..|s| - 1] == NatToString(n / 10);
      DigitsValueNatToString(n / 10);
    }
  }

  lemma {:induction false} RemoveUnderscoresNone(s: string)
    requires '_' !in s
    ensures RemoveUnderscores(s) == s
  {
    if s != [] {
      RemoveUnderscoresNone(s[1..]);
      assert [s[0]] + s[1..] == s;
    }
  }

  /** A text that starts with a digit or a minus sign and ends with a digit has no whitespace to strip. */
  lemma StripNumber(t: string)
    requires t != [] && (IsDigit(t[0]) || t[0] == '-') && IsDigit(t[|t| - 1])
    ensures Strip(t) == t
  {
    assert !IsSpace(t[0]) && !IsSpace(t[|t| - 1]);
  }

  /** A run of plain digits is a digit group with no underscores to remove. */
  lemma PlainDigits(s: string)
    requires s != [] && forall k :: 0 <= k < |s| ==> IsDigit(s[k])
    ensures IsDigitGroup(s) && RemoveUnderscores(s) == s
  {
    assert '_' !in s;
    RemoveUnderscoresNone(s);
  }

  /** A digit string without signs, spaces or underscores is read as its own value. */
  lemma ParseIntDigits(s: string)
    requires s != [] && forall k :: 0 <= k < |s| ==> IsDigit(s[k])
    ensures ParseInt(s) == Some(DigitsValue(s))
  {
    StripNumber(s);
    PlainDigits(s);
  }

  /** A minus sign followed by plain digits is read as the negated value of the digits. */
  lemma ParseIntNegative(t: string)
    requires |t| >= 2 && t[0] == '-' && forall k :: 1 <= k < |t| ==> IsDigit(t[k])
    ensures ParseInt(t) == Some(-(DigitsValue(t[1..]) as int))
  {
    StripNumber(t);
    PlainDigits(t[1..]);
  }

  /** `int(str(n)) == n` for every integer n. */
  lemma ParseIntString(n: int)
    ensures ParseInt(IntToString(n)) == Some(n)
  {
    var m: nat := if n < 0 then -n else n;
    DigitsValueNatToString(m);
    if n < 0 {
      assert IntToString(n)[1..] == NatToString(m);
      ParseIntNegative(IntToString(n));
    } else {
      ParseIntDigits(NatToString(m));
    }
  }
}
