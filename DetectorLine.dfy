/**
 * One line of the detector's result file, as masker_v2.py reads it
 * (lines 100-108): split on commas, skipped unless there are exactly eight
 * pieces, then every piece converted with `int()`, which raises on a piece
 * that is not an integer.
 */
module DetectorLine {
  import opened PyText
  import opened Geometry

  /** How a line ends up: skipped for its field count, a ValueError from `int()`, or a box. */
  datatype ParsedLine = WrongFieldCount | NotAnInteger | Box(q: Quad)

  /** `f` applied to every element in turn; None as soon as it fails on one. */
  function TryAll<A, B>(f: A -> Option<B>, xs: seq<A>): (r: Option<seq<B>>)
    ensures r.Some? ==> |r.value| == |xs|
  {
    if xs == [] then Some([])
    else
      match f(xs[0])
      case None => None
      case Some(head) =>
        match TryAll(f, xs[1..])
        case None => None
        case Some(rest) => Some([head] + rest)
  }

  /** When every element converts, each value is its own element's. */
  lemma {:induction false} TryAllValues<A, B>(f: A -> Option<B>, xs: seq<A>)
    requires TryAll(f, xs).Some?
    ensures forall i :: 0 <= i < |xs| ==> f(xs[i]) == Some(TryAll(f, xs).value[i])
  {
    if xs != [] {
      TryAllValues(f, xs[1..]);
      var vs := TryAll(f, xs).value;
      var rest := TryAll(f, xs[1..]).value;
      forall i | 1 <= i < |xs|
        ensures f(xs[i]) == Some(vs[i])
      {
        assert xs[i] == xs[1..][i - 1];
        assert vs[i] == rest[i - 1];
      }
    }
  }

  /** When each element converts to the matching value, the conversion yields those values. */
  lemma {:induction false} TryAllSucceeds<A, B>(f: A -> Option<B>, xs: seq<A>, ys: seq<B>)
    requires |xs| == |ys|
    requires forall i :: 0 <= i < |xs| ==> f(xs[i]) == Some(ys[i])
    ensures TryAll(f, xs) == Some(ys)
  {
    if xs != [] {
      assert forall i :: 0 <= i < |xs| - 1 ==> xs[1..][i] == xs[i + 1] && ys[1..][i] == ys[i + 1];
      TryAllSucceeds(f, xs[1..], ys[1..]);
      assert ys == [ys[0]] + ys[1..];
    }
  }

  /** The conversion fails exactly when some element does not convert. */
  lemma {:induction false} TryAllFails<A, B>(f: A -> Option<B>, xs: seq<A>)
    ensures TryAll(f, xs).None? <==> exists i :: 0 <= i < |xs| && f(xs[i]).None?
  {
    if xs != [] && f(xs[0]).Some? {
      TryAllFails(f, xs[1..]);
      if TryAll(f, xs[1..]).None? {
        var j :| 0 <= j < |xs| - 1 && f(xs[1..][j]).None?;
        assert f(xs[j + 1]).None?;
      } else {
        TryAllValues(f, xs);
      }
    }
  }

  /** `int()` applied to every field in turn; None as soon as one raises. */
  function ParseInts(fields: seq<string>): Option<seq<int>> {
    TryAll(ParseInt, fields)
  }

  /**
   * Lines 100-108. A line with other than seven commas (a blank line among
   * them) has the wrong number of fields and is skipped.
   */
  function ParseLine(line: string): (r: ParsedLine)
    ensures r.WrongFieldCount? <==> Occurrences(line, ',') != 7
    ensures r.NotAnInteger? <==>
              |Split(line, ',')| == 8 && exists i :: 0 <= i < 8 && ParseInt(Split(line, ',')[i]).None?
    ensures r.Box? ==>
              |Split(line, ',')| == 8 &&
              forall i :: 0 <= i < 8 ==> ParseInt(Split(line, ',')[i]) == Some(Coordinates(r.q)[i])
  {
    SplitCount(line, ',');
    TryAllFails(ParseInt, Split(line, ','));
    var fields := Split(line, ',');
    if |fields| != 8 then WrongFieldCount
    else
      match ParseInts(fields)
      case None => NotAnInteger
      case Some(v) =>
        ParsedFields(fields);
        Box(QuadOf(v))
  }

  /** Line 108: the eight integers as corners P0..P3. */
  function QuadOf(v: seq<int>): (q: Quad)
    requires |v| == 8
    ensures Coordinates(q) == v
  {
    Quad(Point(v[0], v[1]), Point(v[2], v[3]), Point(v[4], v[5]), Point(v[6], v[7]))
  }

  /** Each corner coordinate of a parsed box is `int()` of its own field. */
  lemma ParsedFields(fields: seq<string>)
    requires |fields| == 8 && ParseInts(fields).Some?
    ensures forall i :: 0 <= i < 8 ==> ParseInt(fields[i]) == Some(Coordinates(QuadOf(ParseInts(fields).value))[i])
  {
    TryAllValues(ParseInt, fields);
  }

  /** A line with no comma at all, the blank line included, is skipped. */
  lemma LineWithoutCommaSkipped(line: string)
    requires ',' !in line
    ensures ParseLine(line) == WrongFieldCount
  {
    OccurrencesAbsent(line, ',');
  }

  /** The eight integers of a box, in the order the detector writes them. */
  function Fields(q: Quad): seq<string> {
    [IntText(q.p0.x), IntText(q.p0.y), IntText(q.p1.x), IntText(q.p1.y),
     IntText(q.p2.x), IntText(q.p2.y), IntText(q.p3.x), IntText(q.p3.y)]
  }

  /** A box written as a detector line: the eight integers joined by commas. */
  function FormatLine(q: Quad): string {
    Join(Fields(q), ',')
  }

  lemma IntTextHasNoComma(n: int)
    ensures ',' !in IntText(n)
  {
    if n < 0 {
      assert IntText(n) == "-" + NatText(-n);
    }
  }

  /** The eight integers of a box, in the detector's order. */
  function Coordinates(q: Quad): seq<int> {
    [q.p0.x, q.p0.y, q.p1.x, q.p1.y, q.p2.x, q.p2.y, q.p3.x, q.p3.y]
  }

  lemma FieldsHaveNoComma(q: Quad)
    ensures forall i :: 0 <= i < 8 ==> ',' !in Fields(q)[i]
  {
    forall i | 0 <= i < 8
      ensures ',' !in Fields(q)[i]
    {
      assert Fields(q)[i] == IntText(Coordinates(q)[i]);
      IntTextHasNoComma(Coordinates(q)[i]);
    }
  }

  /** The fields of a written line as `split` returns them: the last one keeps the line ending. */
  function ReadFields(q: Quad, eol: string): seq<string> {
    Fields(q)[..7] + [Fields(q)[7] + eol]
  }

  /** A written line with its ending is the join of those fields. */
  lemma FormattedLineJoin(q: Quad, eol: string)
    ensures FormatLine(q) + eol == Join(ReadFields(q, eol), ',')
  {
    JoinAppend(Fields(q), ',', eol);
  }

  /** None of those fields holds a comma. */
  lemma ReadFieldsHaveNoComma(q: Quad, eol: string)
    requires ',' !in eol
    ensures forall i :: 0 <= i < 8 ==> ',' !in ReadFields(q, eol)[i]
  {
    var fs, read := Fields(q), ReadFields(q, eol);
    FieldsHaveNoComma(q);
    forall i | 0 <= i < 8
      ensures ',' !in read[i]
    {
      if i < 7 {
        assert read[i] == fs[i];
      } else {
        assert read[7] == fs[7] + eol;
      }
    }
  }

  /** The fields a written line splits into: the last one keeps the line ending. */
  lemma SplitFormattedLine(q: Quad, eol: string)
    requires ',' !in eol
    ensures Split(FormatLine(q) + eol, ',') == ReadFields(q, eol)
  {
    FormattedLineJoin(q, eol);
    ReadFieldsHaveNoComma(q, eol);
    SplitJoin(ReadFields(q, eol), ',');
  }

  /** Each of those fields converts back to its coordinate. */
  lemma ParseFormattedFields(q: Quad, eol: string)
    requires forall i :: 0 <= i < |eol| ==> IsSpace(eol[i])
    requires forall i :: 0 <= i < 8 ==> WithinDigitLimit(Coordinates(q)[i])
    ensures ParseInts(ReadFields(q, eol)) == Some(Coordinates(q))
  {
    var read := ReadFields(q, eol);
    var values := Coordinates(q);
    forall i | 0 <= i < 8
      ensures ParseInt(read[i]) == Some(values[i])
    {
      ParseFormattedField(q, eol, i);
    }
    TryAllSucceeds(ParseInt, read, values);
  }

  lemma ParseFormattedField(q: Quad, eol: string, i: nat)
    requires forall i :: 0 <= i < |eol| ==> IsSpace(eol[i])
    requires i < 8
    ensures ParseInt(ReadFields(q, eol)[i]) ==
              if WithinDigitLimit(Coordinates(q)[i]) then Some(Coordinates(q)[i]) else None
  {
    var v := Coordinates(q)[i];
    assert Fields(q)[i] == IntText(v);
    var tail := if i < 7 then [] else eol;
    assert ReadFields(q, eol)[i] == IntText(v) + tail;
    ParseIntText(v, tail);
  }

  /**
   * Reading back a written box gives the box, whatever run of `IsSpace`
   * whitespace ends the line (`int()` ignores the newline left on the last
   * field), when no coordinate has more digits than `int()` converts.
   */
  lemma ParseFormattedLine(q: Quad, eol: string)
    requires forall i :: 0 <= i < |eol| ==> IsSpace(eol[i])
    requires forall i :: 0 <= i < 8 ==> WithinDigitLimit(Coordinates(q)[i])
    ensures ParseLine(FormatLine(q) + eol) == Box(q)
  {
    assert !IsSpace(',');
    SplitFormattedLine(q, eol);
    ParseFormattedFields(q, eol);
  }

  /**
   * A written box whose line ends with one of the separators 0x1C-0x1F before
   * the newline raises: `int()` of the last field fails.
   */
  lemma SeparatorBeforeNewlineRaises(q: Quad, c: char)
    requires 28 <= c as int <= 31
    ensures ParseLine(FormatLine(q) + [c, '\n']) == NotAnInteger
  {
    var eol := [c, '\n'];
    SplitFormattedLine(q, eol);
    var read := ReadFields(q, eol);
    assert read[7] == IntText(q.p3.y) + [c] + ['\n'];
    ParseIntRejectsSeparator(q.p3.y, c, ['\n']);
    assert ParseInt(Split(FormatLine(q) + eol, ',')[7]).None?;
  }

  /** A written box with a coordinate of more than `MaxStrDigits` digits raises. */
  lemma OverlongCoordinateRaises(q: Quad, eol: string, i: nat)
    requires forall i :: 0 <= i < |eol| ==> IsSpace(eol[i])
    requires i < 8 && !WithinDigitLimit(Coordinates(q)[i])
    ensures ParseLine(FormatLine(q) + eol) == NotAnInteger
  {
    assert !IsSpace(',');
    SplitFormattedLine(q, eol);
    ParseFormattedField(q, eol, i);
    assert ParseInt(Split(FormatLine(q) + eol, ',')[i]).None?;
  }
}
