/**
 * The calculation as a whole (main.py, calculate): read the three numbers,
 * refuse non-positive ones, look up the selected category, compute the
 * tiling, and assemble the lines of the result text. The Tk widgets are not
 * modelled: the entries' texts and the selected name are parameters, and the
 * text destined for the result label is the returned Display.
 */
module Calculator {
  import opened Wrappers
  import opened Catalogue
  import opened NumberInput
  import opened TileCount

  /** Why a calculation produced no count. */
  datatype CalcError =
    | NotANumber(text: string)        // float() rejected an entry (a ValueError)
    | NotPositive                     // the explicit positivity check (a ValueError)
    | UnknownCategory(name: string)   // no entry has the selected name (StopIteration from next())

  /** The errors the handler catches as a ValueError; the rest reach the catch-all. */
  predicate RaisesValueError(e: CalcError) {
    e.NotANumber? || e.NotPositive?
  }

  /** The heading of an error message: a ValueError is a plain error, anything else an unexpected one. */
  function Heading(e: CalcError): (h: string)
    ensures h == "Ошибка: " <==> RaisesValueError(e)
    ensures h == "Неожиданная ошибка: " <==> !RaisesValueError(e)
  {
    if e.UnknownCategory? then "Неожиданная ошибка: " else "Ошибка: "
  }

  /** One line of the result text; the amounts of cut lines are in centimetres. */
  datatype Line =
    | TotalLine(total: int)             // "Всего плиток: {total}"
    | LengthCut(tiles: int, cm: real)   // "Нужно обрезать {tiles} плиток по длине на {cm} см"
    | HeightCut(tiles: int, cm: real)   // "Нужно обрезать {tiles} плиток по высоте на {cm} см"
    | NoCutting                         // "Обрезки не требуются"

  /** What ends up in the result label: the report, or the error under its heading. */
  datatype Display = Report(lines: seq<Line>) | Failure(heading: string, error: CalcError)

  /** The line reporting the cut along the length; it counts the tiles of one column, one per row. */
  function LengthCutLine(t: Tiling): Line {
    LengthCut(t.tilesHeight, t.cutLength * 100.0)
  }

  /** The line reporting the cut along the height; it counts the tiles of one row, one per column. */
  function HeightCutLine(t: Tiling): Line {
    HeightCut(t.tilesLength, t.cutHeight * 100.0)
  }

  /**
   * The lines reporting tiling t: the total first, then the length cut when
   * that cut-off is positive, then the height cut when that one is positive,
   * and "no cutting" exactly when neither is; one line for each of these
   * facts and nothing else.
   */
  predicate Reports(t: Tiling, lines: seq<Line>) {
    && |lines| == 1 + (if t.cutLength > 0.0 then 1 else 0) + (if t.cutHeight > 0.0 then 1 else 0)
                    + (if t.cutLength <= 0.0 && t.cutHeight <= 0.0 then 1 else 0)
    && lines[0] == TotalLine(t.total)
    && (LengthCutLine(t) in lines <==> t.cutLength > 0.0)
    && (HeightCutLine(t) in lines <==> t.cutHeight > 0.0)
    && (NoCutting in lines <==> t.cutLength <= 0.0 && t.cutHeight <= 0.0)
    && (forall i :: 1 <= i < |lines| ==> lines[i] in [LengthCutLine(t), HeightCutLine(t), NoCutting])
    && (forall i, j :: 0 <= i < j < |lines| && lines[i] == HeightCutLine(t) ==> lines[j] != LengthCutLine(t))
  }

  /** Reports fixes the lines completely: two reports of one tiling are the same lines. */
  lemma ReportsUnique(t: Tiling, a: seq<Line>, b: seq<Line>)
    requires Reports(t, a) && Reports(t, b)
    ensures a == b
  {
    var l, h := LengthCutLine(t), HeightCutLine(t);
    if t.cutLength > 0.0 && t.cutHeight > 0.0 {
      ThreeLines(t, a);
      ThreeLines(t, b);
    } else {
      TwoLines(t, a);
      TwoLines(t, b);
    }
  }

  /** With both cut-offs positive the report is the total, the length cut, the height cut. */
  lemma ThreeLines(t: Tiling, a: seq<Line>)
    requires Reports(t, a) && t.cutLength > 0.0 && t.cutHeight > 0.0
    ensures a == [TotalLine(t.total), LengthCutLine(t), HeightCutLine(t)]
  {
    var l, h := LengthCutLine(t), HeightCutLine(t);
    assert forall i :: 1 <= i < |a| ==> a[i] == l || a[i] == h;
    assert a[1] == l by {
      var i :| 0 <= i < |a| && a[i] == l;
      assert i != 0;
    }
  }

  /** With at most one cut-off positive the report is the total and one more line. */
  lemma TwoLines(t: Tiling, a: seq<Line>)
    requires Reports(t, a) && !(t.cutLength > 0.0 && t.cutHeight > 0.0)
    ensures |a| == 2
    ensures a[1] == (if t.cutLength > 0.0 then LengthCutLine(t)
                     else if t.cutHeight > 0.0 then HeightCutLine(t) else NoCutting)
  {
    var x := if t.cutLength > 0.0 then LengthCutLine(t)
             else if t.cutHeight > 0.0 then HeightCutLine(t) else NoCutting;
    assert forall i :: 1 <= i < |a| ==> a[i] == x;
  }

  /** Builds the result lines one after another, as the result text is appended to. */
  method ReportLines(t: Tiling) returns (lines: seq<Line>)
    ensures Reports(t, lines)
  {
    lines := [TotalLine(t.total)];
    if t.cutLength > 0.0 {
      lines := lines + [LengthCutLine(t)];
    }
    if t.cutHeight > 0.0 {
      lines := lines + [HeightCutLine(t)];
    }
    if t.cutLength <= 0.0 && t.cutHeight <= 0.0 {
      lines := lines + [NoCutting];
    }
  }

  /** All three entries hold numbers and all three are strictly positive. */
  predicate Positive(length: Option<real>, height: Option<real>, tileSize: Option<real>) {
    && length.Some? && height.Some? && tileSize.Some?
    && length.value > 0.0 && height.value > 0.0 && tileSize.value > 0.0
  }

  /**
   * The calculation from the entries' texts and the selected name: the first
   * entry float() rejects is reported, then non-positive values, then an
   * unknown name; otherwise the tiling of the surface with the category's grout size.
   */
  function Evaluate(lengthText: string, heightText: string, tileText: string, selected: string,
                    toFloat: string -> Option<real>): (r: Result<Tiling, CalcError>)
    ensures var length := ParseNumber(lengthText, toFloat);
            var height := ParseNumber(heightText, toFloat);
            var tileSize := ParseNumber(tileText, toFloat);
            && (length.None? ==> r == Err(NotANumber(lengthText)))
            && (length.Some? && height.None? ==> r == Err(NotANumber(heightText)))
            && (length.Some? && height.Some? && tileSize.None? ==> r == Err(NotANumber(tileText)))
            && (r == Err(NotPositive) <==>
                  length.Some? && height.Some? && tileSize.Some? && !Positive(length, height, tileSize))
            && (r == Err(UnknownCategory(selected)) <==>
                  Positive(length, height, tileSize) && Lookup(TileGrout, selected).None?)
            && (r.Ok? <==> Positive(length, height, tileSize) && Lookup(TileGrout, selected).Some?)
            && (r.Ok? ==>
                  && r.value.length == length.value && r.value.height == height.value
                  && r.value.tileSize == tileSize.value
                  && r.value.grout == GroutSize(Lookup(TileGrout, selected).value) > 0.0
                  && Sound(r.value) && r.value.total >= 1)
  {
    var length := ParseNumber(lengthText, toFloat);
    var height := ParseNumber(heightText, toFloat);
    var tileSize := ParseNumber(tileText, toFloat);
    if length.None? then Err(NotANumber(lengthText))
    else if height.None? then Err(NotANumber(heightText))
    else if tileSize.None? then Err(NotANumber(tileText))
    else if length.value <= 0.0 || height.value <= 0.0 || tileSize.value <= 0.0 then Err(NotPositive)
    else
      var widths := Lookup(TileGrout, selected);
      if widths.None? then Err(UnknownCategory(selected))
      else
        LookupGroutPositive(selected);
        Ok(Compute(length.value, height.value, tileSize.value, GroutSize(widths.value)))
  }

  /**
   * The calculation step by step, as the handler runs it: each failure ends
   * it with an error display, and a success displays the report lines.
   */
  method Calculate(lengthText: string, heightText: string, tileText: string, selected: string,
                   toFloat: string -> Option<real>) returns (shown: Display)
    ensures var r := Evaluate(lengthText, heightText, tileText, selected, toFloat);
            && (r.Err? ==> shown == Failure(Heading(r.error), r.error))
            && (r.Ok? ==> shown.Report? && Reports(r.value, shown.lines))
  {
    var length := ParseNumber(lengthText, toFloat);
    if length.None? {
      var e := NotANumber(lengthText);
      return Failure(Heading(e), e);
    }
    var height := ParseNumber(heightText, toFloat);
    if height.None? {
      var e := NotANumber(heightText);
      return Failure(Heading(e), e);
    }
    var tileSize := ParseNumber(tileText, toFloat);
    if tileSize.None? {
      var e := NotANumber(tileText);
      return Failure(Heading(e), e);
    }
    if length.value <= 0.0 || height.value <= 0.0 || tileSize.value <= 0.0 {
      var e := NotPositive;
      return Failure(Heading(e), e);
    }
    var widths := Lookup(TileGrout, selected);
    if widths.None? {
      var e := UnknownCategory(selected);
      return Failure(Heading(e), e);
    }
    LookupGroutPositive(selected);
    var grout := GroutSize(widths.value);
    var tiling := Compute(length.value, height.value, tileSize.value, grout);
    var lines := ReportLines(tiling);
    return Report(lines);
  }

  /** A name picked from the menu is always found: the unexpected-error path is never taken. */
  lemma OfferedNameFound(lengthText: string, heightText: string, tileText: string, i: int,
                         toFloat: string -> Option<real>)
    requires 0 <= i < |OfferedNames()|
    ensures !Evaluate(lengthText, heightText, tileText, OfferedNames()[i], toFloat).Err?
            || !Evaluate(lengthText, heightText, tileText, OfferedNames()[i], toFloat).error.UnknownCategory?
  {
    LookupOffered(i);
  }

  /**
   * On a successful calculation the length-cut line appears exactly when the
   * length is not a whole number of tile pitches (plus one joint), and
   * likewise for the height; "no cutting" appears exactly when both are whole.
   */
  lemma CutLinesFollowRawCounts(t: Tiling, lines: seq<Line>)
    requires t.length > 0.0 && t.height > 0.0 && t.tileSize > 0.0 && t.grout >= 0.0
    requires Sound(t) && Reports(t, lines)
    ensures LengthCutLine(t) in lines <==> !IsInteger(RawCount(t.length, t.tileSize, t.grout))
    ensures HeightCutLine(t) in lines <==> !IsInteger(RawCount(t.height, t.tileSize, t.grout))
    ensures NoCutting in lines <==>
              IsInteger(RawCount(t.length, t.tileSize, t.grout)) && IsInteger(RawCount(t.height, t.tileSize, t.grout))
  {
    SoundIsComputed(t);
  }
}
