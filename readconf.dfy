/**
 * The configuration parser of vcc_py/readconf.py. Each line of the content
 * yields one entry: the character at index 3 says whether the value is an
 * integer ('i') or a string, and the key and value are the first two maximal
 * '='-free runs of the line from index 5 on (`re.findall(r"[^=]+", line[5:])`).
 * A later line overwrites an earlier one with the same key.
 */
module ReadConf {
  import opened Wrappers
  import opened Text

  datatype Value = IntValue(i: int) | StrValue(s: string)

  /** What parse raises: IndexError (too few runs) or ValueError (an 'i' value that is not an integer). */
  datatype ConfError = IndexError | ValueError

  /** The non-empty pieces, in order. */
  function NonEmpty(pieces: seq<string>): (r: seq<string>)
    ensures |r| <= |pieces|
    ensures forall k :: 0 <= k < |r| ==> r[k] != [] && r[k] in pieces
  {
    if pieces == [] then []
    else (if pieces[0] == [] then [] else [pieces[0]]) + NonEmpty(pieces[1..])
  }

  /** `re.findall(r"[^=]+", s)`: the maximal '='-free runs of s, which are the non-empty pieces of s.split("="). */
  function Runs(s: string): (r: seq<string>)
    ensures forall k :: 0 <= k < |r| ==> r[k] != [] && '=' !in r[k]
  {
    SplitPiecesFree(s, '=');
    NonEmpty(Split(s, '='))
  }

  /** One line of the dict comprehension: key first, then the value (Python evaluates them in that order). */
  function ParseLine(line: string): (r: Result<(string, Value), ConfError>)
    ensures |Runs(PySlice(line, 5, |line|))| < 2 ==> r == Err(IndexError)
    ensures r.Ok? ==> var c := Runs(PySlice(line, 5, |line|));
      && |c| >= 2 && r.value.0 == c[0] && (r.value.1.IntValue? <==> line[3] == 'i')
    ensures r == Err(ValueError) ==> |line| > 3 && line[3] == 'i' && ParseInt(Runs(PySlice(line, 5, |line|))[1]).None?
  {
    var c := Runs(PySlice(line, 5, |line|));
    if |c| == 0 then Err(IndexError)              // c[0]
    else if |line| <= 3 then Err(IndexError)      // i[3]
    else if |c| < 2 then Err(IndexError)          // c[1]
    else if line[3] == 'i' then
      match ParseInt(c[1])
      case None => Err(ValueError)
      case Some(n) => Ok((c[0], IntValue(n)))
    else Ok((c[0], StrValue(c[1])))
  }

  /** The comprehension over the remaining lines, adding each entry to `acc`; the first failing line raises. */
  function ParseLines(lines: seq<string>, acc: map<string, Value>): (r: Result<map<string, Value>, ConfError>)
    ensures r.Ok? ==> acc.Keys <= r.value.Keys
    ensures r.Err? ==> lines != []
    decreases |lines|
  {
    if lines == [] then Ok(acc)
    else match ParseLine(lines[0])
      case Err(e) => Err(e)
      case Ok((k, v)) => ParseLines(lines[1..], acc[k := v])
  }

  /** parse: split the content on "\n" and collect one entry per line. */
  function Parse(content: string): (r: Result<map<string, Value>, ConfError>)
    ensures r.Ok? ==> forall i :: 0 <= i < |Split(content, '\n')| ==> ParseLine(Split(content, '\n')[i]).Ok?
    ensures (forall i :: 0 <= i < |Split(content, '\n')| ==> ParseLine(Split(content, '\n')[i]).Ok?) ==> r.Ok?
  {
    var lines := Split(content, '\n');
    var empty: map<string, Value> := map[];
    ParseLinesOk(lines, empty);
    ParseLines(lines, empty)
  }

  // ---------------------------------------------------------------- runs

  lemma {:induction false} NonEmptyAppend(a: seq<string>, b: seq<string>)
    ensures NonEmpty(a + b) == NonEmpty(a) + NonEmpty(b)
  {
    if a == [] {
      assert a + b == b;
    } else {
      assert (a + b)[1..] == a[1..] + b;
      NonEmptyAppend(a[1..], b);
    }
  }

  /** A separator splits: the pieces of x + sep + y are those of x followed by those of y. */
  lemma {:induction false} SplitAroundSep(x: string, sep: char, y: string)
    ensures Split(x + [sep] + y, sep) == Split(x, sep) + Split(y, sep)
    decreases |x|
  {
    if x == [] {
      assert (x + [sep] + y)[1..] == y;
    } else {
      assert (x + [sep] + y)[1..] == x[1..] + [sep] + y;
      SplitAroundSep(x[1..], sep, y);
    }
  }

  /** The runs of x + "=" + y are the runs of x followed by the runs of y. */
  lemma RunsAroundSep(x: string, y: string)
    ensures Runs(x + "=" + y) == Runs(x) + Runs(y)
  {
    SplitAroundSep(x, '=', y);
    NonEmptyAppend(Split(x, '='), Split(y, '='));
  }

  /** Consecutive '=' act as a single separator. */
  lemma DoubleSepIsSingle(x: string, y: string)
    ensures Runs(x + "==" + y) == Runs(x + "=" + y)
  {
    SplitDoubleSep(x, y);
    SplitAroundSep(x, '=', y);
    NonEmptyDropsEmpty(Split(x, '='), Split(y, '='));
  }

  lemma SplitDoubleSep(x: string, y: string)
    ensures Split(x + "==" + y, '=') == Split(x, '=') + [[]] + Split(y, '=')
  {
    assert x + "==" + y == x + ['='] + (['='] + y);
    SplitAroundSep(x, '=', ['='] + y);
    assert ['='] + y == [] + ['='] + y;
    SplitAroundSep([], '=', y);
  }

  lemma NonEmptyDropsEmpty(a: seq<string>, b: seq<string>)
    ensures NonEmpty(a + [[]] + b) == NonEmpty(a + b)
  {
    var na, nb := NonEmpty(a), NonEmpty(b);
    assert NonEmpty(a + [[]]) == na by {
      NonEmptyAppend(a, [[]]);
      assert NonEmpty([[]]) == [];
      assert na + [] == na;
    }
    assert NonEmpty(a + [[]] + b) == na + nb by {
      NonEmptyAppend(a + [[]], b);
    }
    NonEmptyAppend(a, b);
  }

  /** n runs need at least n - 1 separators between them: 2n <= |s| + 1, and 2n <= |s| when s starts with '=' or is empty. */
  lemma {:induction false} RunsLength(s: string)
    ensures 2 * |Runs(s)| <= |s| + (if Split(s, '=')[0] == [] then 0 else 1)
    decreases |s|
  {
    if s != [] {
      RunsLength(s[1..]);
      var rest := Split(s[1..], '=');
      assert NonEmpty(rest) == (if rest[0] == [] then [] else [rest[0]]) + NonEmpty(rest[1..]);
      if s[0] == '=' {
        assert Split(s, '=') == [[]] + rest;
        assert ([[]] + rest)[1..] == rest;
      } else {
        var r := [[s[0]] + rest[0]] + rest[1..];
        assert Split(s, '=') == r;
        assert r[1..] == rest[1..];
      }
    }
  }

  // ---------------------------------------------------------------- lines

  /** Too short a line always fails: two runs after index 5 need at least three characters there. */
  lemma ShortLineFails(line: string)
    requires |line| < 8
    ensures ParseLine(line) == Err(IndexError)
  {
    RunsLength(PySlice(line, 5, |line|));
  }

  /** Empty content is one empty line, which fails. */
  lemma EmptyContentFails()
    ensures Parse("") == Err(IndexError)
  {
    assert Split("", '\n') == [""];
    ShortLineFails("");
  }

  /** The value's type comes from index 3 alone, and an 'i' value that int() rejects makes the line fail. */
  lemma ParseLineTyping(line: string)
    requires |Runs(PySlice(line, 5, |line|))| >= 2
    ensures var c := Runs(PySlice(line, 5, |line|));
      && (line[3] != 'i' ==> ParseLine(line) == Ok((c[0], StrValue(c[1]))))
      && (line[3] == 'i' && ParseInt(c[1]).None? ==> ParseLine(line) == Err(ValueError))
      && (line[3] == 'i' && ParseInt(c[1]).Some? ==> ParseLine(line) == Ok((c[0], IntValue(ParseInt(c[1]).value))))
  {
    assert |line| > 5;
  }

  /** Characters 0-2 and 4 of a line are never inspected. */
  lemma ParseLineIgnores(line: string, other: string)
    requires |line| == |other|
    requires forall k :: 0 <= k < |line| && k != 0 && k != 1 && k != 2 && k != 4 ==> line[k] == other[k]
    ensures ParseLine(line) == ParseLine(other)
  {
    assert PySlice(line, 5, |line|) == PySlice(other, 5, |other|);
  }

  /** A later line overwrites an earlier one: every line's key is in the result, and the last line with a key decides its value. */
  lemma {:induction false} ParseLinesLastWins(lines: seq<string>, acc: map<string, Value>)
    requires forall i :: 0 <= i < |lines| ==> ParseLine(lines[i]).Ok?
    requires ParseLines(lines, acc).Ok?
    ensures var m := ParseLines(lines, acc).value;
      forall i :: 0 <= i < |lines| ==>
        var (k, v) := ParseLine(lines[i]).value;
        k in m && ((forall j :: i < j < |lines| ==> ParseLine(lines[j]).value.0 != k) ==> m[k] == v)
    decreases |lines|
  {
    if lines != [] {
      var (k0, v0) := ParseLine(lines[0]).value;
      var acc' := acc[k0 := v0];
      var m := ParseLines(lines, acc).value;
      assert forall j :: 0 <= j < |lines[1..]| ==> lines[1..][j] == lines[j + 1];
      ParseLinesLastWins(lines[1..], acc');
      assert m == ParseLines(lines[1..], acc').value;
      forall i | 0 <= i < |lines|
        ensures var (k, v) := ParseLine(lines[i]).value;
          k in m && ((forall j :: i < j < |lines| ==> ParseLine(lines[j]).value.0 != k) ==> m[k] == v)
      {
        var (k, v) := ParseLine(lines[i]).value;
        if i > 0 {
          assert lines[i] == lines[1..][i - 1];
        } else if forall j :: 0 < j < |lines| ==> ParseLine(lines[j]).value.0 != k {
          KeyKept(lines[1..], acc', k);
        } else {
          var j :| 0 < j < |lines| && ParseLine(lines[j]).value.0 == k;
          assert lines[j] == lines[1..][j - 1];
        }
      }
    }
  }

  /** Every key of the result comes from the accumulator, unchanged, or from some line. */
  lemma {:induction false} ParseLinesKeys(lines: seq<string>, acc: map<string, Value>)
    requires forall i :: 0 <= i < |lines| ==> ParseLine(lines[i]).Ok?
    requires ParseLines(lines, acc).Ok?
    ensures var m := ParseLines(lines, acc).value;
      forall k :: k in m ==>
        (k in acc && m[k] == acc[k]) || exists i :: 0 <= i < |lines| && ParseLine(lines[i]).value.0 == k
    decreases |lines|
  {
    if lines != [] {
      var (k0, v0) := ParseLine(lines[0]).value;
      var acc' := acc[k0 := v0];
      var m := ParseLines(lines, acc).value;
      assert forall j :: 0 <= j < |lines[1..]| ==> lines[1..][j] == lines[j + 1];
      ParseLinesKeys(lines[1..], acc');
      forall k | k in m
        ensures (k in acc && m[k] == acc[k]) || exists i :: 0 <= i < |lines| && ParseLine(lines[i]).value.0 == k
      {
        if k == k0 {
          assert ParseLine(lines[0]).value.0 == k;
        } else if !(k in acc' && m[k] == acc'[k]) {
          var i :| 0 <= i < |lines[1..]| && ParseLine(lines[1..][i]).value.0 == k;
          assert lines[1..][i] == lines[i + 1];
        }
      }
    }
  }

  /** A key no remaining line mentions keeps the value it has in the accumulator. */
  lemma {:induction false} KeyKept(lines: seq<string>, acc: map<string, Value>, k: string)
    requires ParseLines(lines, acc).Ok? && k in acc
    requires forall j :: 0 <= j < |lines| ==> ParseLine(lines[j]).Ok? && ParseLine(lines[j]).value.0 != k
    ensures k in ParseLines(lines, acc).value && ParseLines(lines, acc).value[k] == acc[k]
    decreases |lines|
  {
    if lines != [] {
      var (k0, v0) := ParseLine(lines[0]).value;
      assert forall j :: 0 <= j < |lines[1..]| ==> lines[1..][j] == lines[j + 1];
      KeyKept(lines[1..], acc[k0 := v0], k);
    }
  }

  /** parse succeeds exactly when every line parses; otherwise it raises the first failing line's error. */
  lemma {:induction false} ParseLinesOk(lines: seq<string>, acc: map<string, Value>)
    ensures ParseLines(lines, acc).Ok? <==> forall i :: 0 <= i < |lines| ==> ParseLine(lines[i]).Ok?
    ensures ParseLines(lines, acc).Err? ==>
      exists i :: 0 <= i < |lines| && ParseLine(lines[i]).Err? && ParseLines(lines, acc).error == ParseLine(lines[i]).error
                  && forall j :: 0 <= j < i ==> ParseLine(lines[j]).Ok?
    decreases |lines|
  {
    if lines != [] {
      assert forall j :: 0 <= j < |lines[1..]| ==> lines[1..][j] == lines[j + 1];
      match ParseLine(lines[0])
      case Err(e) => {}
      case Ok((k, v)) => {
        ParseLinesOk(lines[1..], acc[k := v]);
      }
    }
    if ParseLines(lines, acc).Err? {
      FirstFailingLine(lines, acc);
    }
  }

  /** The error parse raises is that of a failing line all of whose predecessors parse. */
  lemma {:induction false} FirstFailingLine(lines: seq<string>, acc: map<string, Value>)
    requires ParseLines(lines, acc).Err?
    ensures exists i :: 0 <= i < |lines| && ParseLine(lines[i]).Err? && ParseLines(lines, acc).error == ParseLine(lines[i]).error
                        && forall j :: 0 <= j < i ==> ParseLine(lines[j]).Ok?
    decreases |lines|
  {
    match ParseLine(lines[0])
    case Err(e) => {
      assert ParseLine(lines[0]).Err? && ParseLines(lines, acc).error == ParseLine(lines[0]).error;
    }
    case Ok((k, v)) => {
      assert ParseLines(lines, acc) == ParseLines(lines[1..], acc[k := v]);
      FirstFailingLine(lines[1..], acc[k := v]);
      var i :| 0 <= i < |lines[1..]| && ParseLine(lines[1..][i]).Err?
               && ParseLines(lines[1..], acc[k := v]).error == ParseLine(lines[1..][i]).error
               && forall j :: 0 <= j < i ==> ParseLine(lines[1..][j]).Ok?;
      assert lines[1..][i] == lines[i + 1];
      forall j | 0 <= j < i + 1
        ensures ParseLine(lines[j]).Ok?
      {
        if j > 0 {
          assert lines[j] == lines[1..][j - 1];
        }
      }
    }
  }
}
