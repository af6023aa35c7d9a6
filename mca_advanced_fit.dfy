/**
 * Self-contained pieces of the advanced-fit window: the Spec MCA array
 * serialiser, the fit-function flag widget (`Top`) with its bit-encoded
 * `hypermetflag`, the per-group parameter vectors of the peaks spectrum and the
 * output-file suffix rule.  Widgets are reduced to the state their methods read
 * and write; rendering one number with "%.4f" is the parameter `fmt`.
 */
module McaAdvancedFit {
  import opened Wrappers

  // ===========================================================================
  // array2SpecMca

  /** Number of values written per "@A" line. */
  const VALUES_PER_LINE: nat := 16

  /** `"%.4f " % data[i]` for lo <= i < hi, in index order. */
  function Cells(fmt: real -> string, data: seq<real>, lo: nat, hi: nat): string
    requires lo <= hi <= |data|
    decreases hi - lo
  {
    if hi == lo then "" else Cells(fmt, data, lo, hi - 1) + fmt(data[hi - 1]) + " "
  }

  /** The line written for the chunk that starts at idx: a full chunk carries a continuation
      backslash unless it ends at the last value; a short final chunk never does. */
  function Line(fmt: real -> string, data: seq<real>, idx: nat): string
    requires idx < |data|
  {
    if idx + 15 < |data| then
      Cells(fmt, data, idx, idx + VALUES_PER_LINE) + (if idx + 16 != |data| then "\\" else "") + "\n"
    else
      Cells(fmt, data, idx, |data|) + "\n"
  }

  /** The lines of the chunks starting at idx, idx + 16, ... */
  function Lines(fmt: real -> string, data: seq<real>, idx: nat): string
    decreases |data| - idx
  {
    if idx >= |data| then "" else Line(fmt, data, idx) + Lines(fmt, data, idx + VALUES_PER_LINE)
  }

  function SpecMca(fmt: real -> string, data: seq<real>): string {
    "@A " + Lines(fmt, data, 0)
  }

  /** `array2SpecMca(data)`: builds the Spec MCA "@A" block chunk by chunk. */
  method Array2SpecMca(fmt: real -> string, data: seq<real>) returns (tmpstr: string)
    ensures tmpstr == SpecMca(fmt, data)
  {
    tmpstr := "@A ";
    var length := |data|;
    var idx := 0;
    while idx < length
      invariant tmpstr + Lines(fmt, data, idx) == SpecMca(fmt, data)
      decreases length - idx
    {
      ghost var before := tmpstr;
      if idx + 15 < length {
        tmpstr := AppendFullChunk(fmt, data, tmpstr, idx);
        if idx + 16 != length {
          tmpstr := tmpstr + "\\";
        } else {
          AppendEmpty(tmpstr);
        }
      } else {
        tmpstr := AppendLastChunk(fmt, data, tmpstr, idx);
        AppendEmpty(tmpstr);
      }
      LineAppended(fmt, data, before, tmpstr, idx);
      tmpstr := tmpstr + "\n";
      idx := idx + 16;
    }
  }

  /** The inner loop over the 16 values of a full chunk. */
  method AppendFullChunk(fmt: real -> string, data: seq<real>, s: string, idx: nat) returns (tmpstr: string)
    requires idx + 16 <= |data|
    ensures tmpstr == s + Cells(fmt, data, idx, idx + 16)
  {
    tmpstr := s;
    AppendEmpty(s);
    var i := 0;
    while i < 16
      invariant 0 <= i <= 16
      invariant tmpstr == s + Cells(fmt, data, idx, idx + i)
    {
      CellAppended(fmt, data, s, tmpstr, idx, idx + i);
      tmpstr := tmpstr + fmt(data[idx + i]) + " ";
      i := i + 1;
    }
  }

  /** The inner loop over the values of the short final chunk. */
  method AppendLastChunk(fmt: real -> string, data: seq<real>, s: string, idx: nat) returns (tmpstr: string)
    requires idx <= |data|
    ensures tmpstr == s + Cells(fmt, data, idx, |data|)
  {
    tmpstr := s;
    AppendEmpty(s);
    var i := idx;
    while i < |data|
      invariant idx <= i <= |data|
      invariant tmpstr == s + Cells(fmt, data, idx, i)
    {
      CellAppended(fmt, data, s, tmpstr, idx, i);
      tmpstr := tmpstr + fmt(data[i]) + " ";
      i := i + 1;
    }
  }

  lemma AppendEmpty(a: string)
    ensures a + "" == a
  {
  }

  lemma Assoc(a: string, b: string, c: string)
    ensures (a + b) + c == a + (b + c)
  {
  }

  /** One more value written after the cells lo..i. */
  lemma CellAppended(fmt: real -> string, data: seq<real>, before: string, t: string, lo: nat, i: nat)
    requires lo <= i < |data| && t == before + Cells(fmt, data, lo, i)
    ensures t + fmt(data[i]) + " " == before + Cells(fmt, data, lo, i + 1)
  {
    Assoc(before, Cells(fmt, data, lo, i), fmt(data[i]));
    Assoc(before, Cells(fmt, data, lo, i) + fmt(data[i]), " ");
  }

  /** The newline that closes the chunk at idx completes its line. */
  lemma LineAppended(fmt: real -> string, data: seq<real>, before: string, t: string, idx: nat)
    requires idx < |data|
    requires t == before + Cells(fmt, data, idx, if idx + 16 <= |data| then idx + 16 else |data|)
                 + (if idx + 16 < |data| then "\\" else "")
    ensures t + "\n" + Lines(fmt, data, idx + 16) == before + Lines(fmt, data, idx)
  {
    var cells := Cells(fmt, data, idx, if idx + 16 <= |data| then idx + 16 else |data|);
    var mark: string := if idx + 16 < |data| then "\\" else "";
    var line := Line(fmt, data, idx);
    var rest := Lines(fmt, data, idx + 16);
    LineShape(fmt, data, idx);
    assert line == cells + mark + "\n";
    Assoc(before + cells, mark, "\n");
    Assoc(before, cells, mark + "\n");
    Assoc(cells, mark, "\n");
    assert t + "\n" == before + line;
    Assoc(before, line, rest);
    assert Lines(fmt, data, idx) == line + rest;
  }

  /** A line is the chunk's cells, the continuation mark if any, and a newline. */
  lemma LineShape(fmt: real -> string, data: seq<real>, idx: nat)
    requires idx < |data|
    ensures Line(fmt, data, idx)
            == Cells(fmt, data, idx, if idx + 16 <= |data| then idx + 16 else |data|)
               + (if idx + 16 < |data| then "\\" else "") + "\n"
  {
  }

  // ---------------------------------------------------------------------------
  // What the serialised block contains

  function Count(s: string, c: char): nat {
    if s == [] then 0 else (if s[0] == c then 1 else 0) + Count(s[1..], c)
  }

  /** s with every backslash and newline removed. */
  function Strip(s: string): string {
    if s == [] then [] else (if s[0] == '\\' || s[0] == '\n' then [] else [s[0]]) + Strip(s[1..])
  }

  lemma {:induction false} CountConcat(a: string, b: string, c: char)
    ensures Count(a + b, c) == Count(a, c) + Count(b, c)
  {
    if a != [] {
      CountConcat(a[1..], b, c);
      assert (a + b)[0] == a[0] && (a + b)[1..] == a[1..] + b;
    }
    else {
      assert a + b == b;
    }
  }

  lemma {:induction false} StripConcat(a: string, b: string)
    ensures Strip(a + b) == Strip(a) + Strip(b)
  {
    if a != [] {
      StripConcat(a[1..], b);
      assert (a + b)[0] == a[0] && (a + b)[1..] == a[1..] + b;
    }
    else {
      assert a + b == b;
    }
  }

  /** The rendering of one number never contains the separators of the block. */
  ghost predicate PlainFormat(fmt: real -> string) {
    forall v :: '\n' !in fmt(v) && '\\' !in fmt(v)
  }

  lemma {:induction false} CountPlain(s: string, c: char)
    requires c !in s
    ensures Count(s, c) == 0
  {
    if s != [] {
      CountPlain(s[1..], c);
    }
  }

  lemma {:induction false} StripPlain(s: string)
    requires '\n' !in s && '\\' !in s
    ensures Strip(s) == s
  {
    if s != [] {
      StripPlain(s[1..]);
      assert s == [s[0]] + s[1..];
    }
  }

  lemma {:induction false} CellsPlain(fmt: real -> string, data: seq<real>, lo: nat, hi: nat)
    requires PlainFormat(fmt) && lo <= hi <= |data|
    ensures '\n' !in Cells(fmt, data, lo, hi) && '\\' !in Cells(fmt, data, lo, hi)
    decreases hi - lo
  {
    if hi > lo {
      CellsPlain(fmt, data, lo, hi - 1);
      var v := data[hi - 1];
      assert '\n' !in fmt(v) && '\\' !in fmt(v);
    }
  }

  lemma {:induction false} CellsSplit(fmt: real -> string, data: seq<real>, lo: nat, mid: nat, hi: nat)
    requires lo <= mid <= hi <= |data|
    ensures Cells(fmt, data, lo, mid) + Cells(fmt, data, mid, hi) == Cells(fmt, data, lo, hi)
    decreases hi - mid
  {
    if hi > mid {
      CellsSplit(fmt, data, lo, mid, hi - 1);
    }
  }

  /** Each line holds exactly one newline and a backslash exactly when a full chunk ends before the end. */
  lemma LineCounts(fmt: real -> string, data: seq<real>, idx: nat)
    requires PlainFormat(fmt) && idx < |data|
    ensures Count(Line(fmt, data, idx), '\n') == 1
    ensures Count(Line(fmt, data, idx), '\\') == (if idx + 16 < |data| then 1 else 0)
  {
    var hi := if idx + 16 <= |data| then idx + 16 else |data|;
    var cells := Cells(fmt, data, idx, hi);
    var mark := if idx + 16 < |data| then "\\" else "";
    CellsPlain(fmt, data, idx, hi);
    assert Line(fmt, data, idx) == cells + mark + "\n";
    CountConcat(cells + mark, "\n", '\n');
    CountConcat(cells, mark, '\n');
    CountConcat(cells + mark, "\n", '\\');
    CountConcat(cells, mark, '\\');
    CountPlain(cells, '\n');
    CountPlain(cells, '\\');
  }

  /** With its separators removed, a line is the cells of its chunk. */
  lemma LineStrip(fmt: real -> string, data: seq<real>, idx: nat)
    requires PlainFormat(fmt) && idx < |data|
    ensures Strip(Line(fmt, data, idx)) == Cells(fmt, data, idx, if idx + 16 <= |data| then idx + 16 else |data|)
  {
    var hi := if idx + 16 <= |data| then idx + 16 else |data|;
    var cells := Cells(fmt, data, idx, hi);
    var mark := if idx + 16 < |data| then "\\" else "";
    CellsPlain(fmt, data, idx, hi);
    assert Line(fmt, data, idx) == cells + mark + "\n";
    StripConcat(cells + mark, "\n");
    StripConcat(cells, mark);
    StripPlain(cells);
    SeparatorsStrip();
    assert Strip(mark) == [] && Strip("\n") == [];
  }

  /** The separators vanish when stripped. */
  lemma SeparatorsStrip()
    ensures Strip("\n") == [] && Strip("\\") == [] && Strip("") == []
  {
    assert "\n"[1..] == [] && "\\"[1..] == [];
  }

  lemma {:induction false} LinesCounts(fmt: real -> string, data: seq<real>, idx: nat)
    requires PlainFormat(fmt) && idx <= |data|
    ensures Count(Lines(fmt, data, idx), '\n') == (|data| - idx + 15) / 16
    ensures Count(Lines(fmt, data, idx), '\\') == (if idx == |data| then 0 else (|data| - idx - 1) / 16)
    decreases |data| - idx
  {
    if idx < |data| {
      var next := idx + 16;
      LineCounts(fmt, data, idx);
      CountConcat(Line(fmt, data, idx), Lines(fmt, data, next), '\n');
      CountConcat(Line(fmt, data, idx), Lines(fmt, data, next), '\\');
      if next < |data| {
        LinesCounts(fmt, data, next);
      } else {
        assert Lines(fmt, data, next) == "";
      }
    }
  }

  /** With the separators removed, the lines from idx on are the cells from idx to the end. */
  lemma {:induction false} LinesStrip(fmt: real -> string, data: seq<real>, idx: nat)
    requires PlainFormat(fmt) && idx <= |data|
    ensures Strip(Lines(fmt, data, idx)) == Cells(fmt, data, idx, |data|)
    decreases |data| - idx
  {
    if idx < |data| {
      var next := idx + 16;
      LineStrip(fmt, data, idx);
      StripConcat(Line(fmt, data, idx), Lines(fmt, data, next));
      if next < |data| {
        LinesStrip(fmt, data, next);
        CellsSplit(fmt, data, idx, next, |data|);
      } else {
        assert Lines(fmt, data, next) == "";
      }
    }
  }

  /** The block starts with "@A "; an empty array gives just "@A ". */
  lemma SpecMcaHeader(fmt: real -> string, data: seq<real>)
    ensures |SpecMca(fmt, data)| >= 3 && SpecMca(fmt, data)[..3] == "@A "
    ensures data == [] <==> SpecMca(fmt, data) == "@A "
  {
    if data != [] {
      assert |Line(fmt, data, 0)| > 0;
    }
  }

  /** One newline per chunk of 16 values (ceil(n / 16) in all), one continuation backslash per
      chunk boundary, and with the separators removed the block is "@A " followed by every value,
      once each, in index order. */
  lemma SpecMcaContents(fmt: real -> string, data: seq<real>)
    requires PlainFormat(fmt)
    ensures Count(SpecMca(fmt, data), '\n') == (|data| + 15) / 16
    ensures Count(SpecMca(fmt, data), '\\') == (if data == [] then 0 else (|data| - 1) / 16)
    ensures Strip(SpecMca(fmt, data)) == "@A " + Cells(fmt, data, 0, |data|)
  {
    var header: string := "@A ";
    var body := Lines(fmt, data, 0);
    assert SpecMca(fmt, data) == header + body;
    HeaderPlain(header);
    LinesCounts(fmt, data, 0);
    LinesStrip(fmt, data, 0);
    CountConcat(header, body, '\n');
    CountConcat(header, body, '\\');
    StripConcat(header, body);
  }

  lemma HeaderPlain(header: string)
    requires header == "@A "
    ensures Count(header, '\n') == 0 && Count(header, '\\') == 0 && Strip(header) == header
  {
    CountPlain(header, '\n');
    CountPlain(header, '\\');
    StripPlain(header);
  }

  /** A non-empty block ends with a newline, and its last line has no backslash. */
  lemma SpecMcaEnding(fmt: real -> string, data: seq<real>, idx: nat)
    requires idx < |data| && idx % 16 == 0 && |data| <= idx + 16
    ensures Lines(fmt, data, idx) == Cells(fmt, data, idx, |data|) + "\n"
  {
  }

  // ===========================================================================
  // Top: the fit-function and flag widgets

  /** The dictionary exchanged by `getParameters` / `setParameters`; a key may be absent. */
  datatype ParameterDict = ParameterDict(
    fitfunction: Option<int>,
    hypermetflag: Option<int>,
    sumflag: Option<int>,
    stripflag: Option<int>,
    escapeflag: Option<int>,
    continuum: Option<int>)

  /** Python's `(h >> k) & 1` (arithmetic shift, so also for negative h). */
  function Bit(h: int, k: nat): (b: int)
    ensures b == 0 || b == 1
  {
    ShiftRight(h, k) % 2
  }

  /** Python's `h >> k`: floor division by 2 k times (Dafny's `/` floors for a positive divisor). */
  function ShiftRight(h: int, k: nat): int {
    if k == 0 then h else ShiftRight(h, k - 1) / 2
  }

  /** The value a check box contributes to a flag key: 1 when checked, 0 otherwise. */
  function BoxFlag(checked: bool): (v: int)
    ensures v == 1 <==> checked
    ensures v == 0 <==> !checked
  {
    if checked then 1 else 0
  }

  /** What `getParameters` accumulates in `hypermetflag`: 1 for the Hypermet function (index 0),
      plus 2, 4 and 8 for the short-tail, long-tail and step-tail boxes. */
  function HypermetFlag(index: int, shortTail: bool, longTail: bool, stepTail: bool): (h: int)
    ensures 0 <= h < 16
    ensures Bit(h, 0) == BoxFlag(index == 0)
    ensures Bit(h, 1) == BoxFlag(shortTail)
    ensures Bit(h, 2) == BoxFlag(longTail)
    ensures Bit(h, 3) == BoxFlag(stepTail)
  {
    BoxFlag(index == 0) + 2 * BoxFlag(shortTail) + 4 * BoxFlag(longTail) + 8 * BoxFlag(stepTail)
  }

  /** Every flag of four bits is the encoding of the function index and boxes its bits decode to. */
  lemma HypermetFlagDecodes(h: int)
    requires 0 <= h < 16
    ensures HypermetFlag(if Bit(h, 0) == 1 then 0 else 1, Bit(h, 1) == 1, Bit(h, 2) == 1, Bit(h, 3) == 1) == h
  {
    assert ShiftRight(h, 1) == h / 2 && ShiftRight(h, 2) == h / 2 / 2 && ShiftRight(h, 3) == h / 2 / 2 / 2;
  }

  /** A flag key read back into a check box: checked exactly when the value is 1. */
  lemma BoxFlagRoundTrip(checked: bool, v: int)
    ensures (BoxFlag(checked) == 1) == checked
    ensures (v == 0 || v == 1) ==> BoxFlag(v == 1) == v
    ensures v != 0 && v != 1 ==> BoxFlag(v == 1) == 0
  {
  }

  /** What the widgets of `Top` show: the two combo-box indices and the six check boxes, with the
      enabled state of the three tail boxes. */
  datatype Widgets = Widgets(
    funIndex: int,
    bkgIndex: int,
    stChecked: bool,
    ltChecked: bool,
    stepChecked: bool,
    escapeChecked: bool,
    sumChecked: bool,
    stripChecked: bool,
    stEnabled: bool,
    ltEnabled: bool,
    stepEnabled: bool)

  /** The dictionary `getParameters` returns for widgets w: every key present, the function and
      background indices as they are, and each box as its flag. */
  function Parameters(w: Widgets): (ddict: ParameterDict)
    ensures ddict.fitfunction == Some(w.funIndex) && ddict.continuum == Some(w.bkgIndex)
    ensures ddict.hypermetflag.Some? && 0 <= ddict.hypermetflag.value < 16
    ensures Bit(ddict.hypermetflag.value, 0) == 1 <==> w.funIndex == 0
    ensures Bit(ddict.hypermetflag.value, 1) == 1 <==> w.stChecked
    ensures Bit(ddict.hypermetflag.value, 2) == 1 <==> w.ltChecked
    ensures Bit(ddict.hypermetflag.value, 3) == 1 <==> w.stepChecked
    ensures ddict.sumflag == Some(BoxFlag(w.sumChecked))
    ensures ddict.stripflag == Some(BoxFlag(w.stripChecked))
    ensures ddict.escapeflag == Some(BoxFlag(w.escapeChecked))
  {
    ParameterDict(Some(w.funIndex), Some(HypermetFlag(w.funIndex, w.stChecked, w.ltChecked, w.stepChecked)),
                  Some(BoxFlag(w.sumChecked)), Some(BoxFlag(w.stripChecked)), Some(BoxFlag(w.escapeChecked)),
                  Some(w.bkgIndex))
  }

  /** The side effect of `getParameters`: the tail boxes are enabled exactly for the Hypermet function. */
  function TailsEnabled(w: Widgets): (r: Widgets)
    ensures r.stEnabled == r.ltEnabled == r.stepEnabled == (w.funIndex == 0)
    ensures r.(stEnabled := w.stEnabled, ltEnabled := w.ltEnabled, stepEnabled := w.stepEnabled) == w
  {
    w.(stEnabled := w.funIndex == 0, ltEnabled := w.funIndex == 0, stepEnabled := w.funIndex == 0)
  }

  /** The function index `setParameters` selects: the `fitfunction` key, or, when it is missing,
      0 (Hypermet) unless `hypermetflag` is present and 0. */
  function FitFunctionOf(ddict: ParameterDict): (index: int)
    ensures ddict.fitfunction.Some? ==> index == ddict.fitfunction.value
    ensures ddict.fitfunction.None? ==> (index == 0 <==> !(ddict.hypermetflag.Some? && ddict.hypermetflag.value == 0))
    ensures ddict.fitfunction.None? ==> (index == 0 || index == 1)
  {
    if ddict.fitfunction.Some? then ddict.fitfunction.value
    else if (if ddict.hypermetflag.Some? then ddict.hypermetflag.value else 1) != 0 then 0
    else 1
  }

  /** The widgets after `setParameters(ddict)` on widgets w. */
  function Applied(w: Widgets, ddict: ParameterDict): (r: Widgets)
    ensures r.funIndex == FitFunctionOf(ddict)
    ensures r.bkgIndex == if ddict.continuum.Some? then ddict.continuum.value else w.bkgIndex
    ensures ddict.hypermetflag.Some? && r.funIndex == 0 ==>
              r.stEnabled && r.ltEnabled && r.stepEnabled
              && (r.stChecked <==> Bit(ddict.hypermetflag.value, 1) == 1)
              && (r.ltChecked <==> Bit(ddict.hypermetflag.value, 2) == 1)
              && (r.stepChecked <==> Bit(ddict.hypermetflag.value, 3) == 1)
    ensures ddict.hypermetflag.Some? && r.funIndex != 0 ==>
              !r.stEnabled && !r.ltEnabled && !r.stepEnabled
    ensures !(ddict.hypermetflag.Some? && r.funIndex == 0) ==>
              r.stChecked == w.stChecked && r.ltChecked == w.ltChecked && r.stepChecked == w.stepChecked
    ensures ddict.hypermetflag.None? ==>
              r.stEnabled == w.stEnabled && r.ltEnabled == w.ltEnabled && r.stepEnabled == w.stepEnabled
    ensures r.sumChecked == if ddict.sumflag.Some? then ddict.sumflag.value == 1 else w.sumChecked
    ensures r.stripChecked == if ddict.stripflag.Some? then ddict.stripflag.value == 1 else w.stripChecked
    ensures r.escapeChecked == if ddict.escapeflag.Some? then ddict.escapeflag.value == 1 else w.escapeChecked
  {
    var index := FitFunctionOf(ddict);
    var tails := ddict.hypermetflag.Some?;
    var hypermet := tails && index == 0;
    var h := if tails then ddict.hypermetflag.value else 0;
    Widgets(
      index,
      if ddict.continuum.Some? then ddict.continuum.value else w.bkgIndex,
      if hypermet then Bit(h, 1) != 0 else w.stChecked,
      if hypermet then Bit(h, 2) != 0 else w.ltChecked,
      if hypermet then Bit(h, 3) != 0 else w.stepChecked,
      if ddict.escapeflag.Some? then ddict.escapeflag.value == 1 else w.escapeChecked,
      if ddict.sumflag.Some? then ddict.sumflag.value == 1 else w.sumChecked,
      if ddict.stripflag.Some? then ddict.stripflag.value == 1 else w.stripChecked,
      if tails then hypermet else w.stEnabled,
      if tails then hypermet else w.ltEnabled,
      if tails then hypermet else w.stepEnabled)
  }

  /** The dictionary after `setParameters` has filled in a missing `fitfunction`. */
  function Completed(ddict: ParameterDict): (updated: ParameterDict)
    ensures updated.fitfunction == Some(FitFunctionOf(ddict))
    ensures updated.(fitfunction := ddict.fitfunction) == ddict
  {
    ddict.(fitfunction := Some(FitFunctionOf(ddict)))
  }

  /** Feeding what `getParameters` returns back into `setParameters` changes no widget: the flag
      encoding loses nothing the widgets show. */
  lemma ReapplyKeepsWidgets(w: Widgets)
    ensures Applied(TailsEnabled(w), Parameters(w)) == TailsEnabled(w)
    ensures Completed(Parameters(w)) == Parameters(w)
  {
    var v := TailsEnabled(w);
    var r := Applied(v, Parameters(w));
    BoxFlagRoundTrip(w.sumChecked, BoxFlag(w.sumChecked));
    BoxFlagRoundTrip(w.stripChecked, BoxFlag(w.stripChecked));
    BoxFlagRoundTrip(w.escapeChecked, BoxFlag(w.escapeChecked));
    assert r.stChecked == v.stChecked && r.ltChecked == v.ltChecked && r.stepChecked == v.stepChecked;
  }

  /** `setParameters` filled in `fitfunction` in the caller's dictionary; calling it again with
      that dictionary changes no widget and no key. */
  lemma SetParametersIdempotent(w: Widgets, ddict: ParameterDict)
    ensures Applied(Applied(w, ddict), Completed(ddict)) == Applied(w, ddict)
    ensures Completed(Completed(ddict)) == Completed(ddict)
  {
    assert FitFunctionOf(Completed(ddict)) == FitFunctionOf(ddict);
  }

  /** A second `getParameters` returns the same dictionary and changes no further widget. */
  lemma GetParametersStable(w: Widgets)
    ensures TailsEnabled(TailsEnabled(w)) == TailsEnabled(w)
    ensures Parameters(TailsEnabled(w)) == Parameters(w)
  {
  }

  /** What `getParameters` reads back after `setParameters(ddict)`: the selected function, the
      tail bits of a Hypermet `hypermetflag`, each 0/1 flag normalised by its `== 1` test, and
      the background index. */
  lemma SetThenGet(w: Widgets, ddict: ParameterDict)
    ensures var r := Parameters(Applied(w, ddict));
            r.fitfunction == Some(FitFunctionOf(ddict))
            && (ddict.hypermetflag.Some? && FitFunctionOf(ddict) == 0 ==>
                  Bit(r.hypermetflag.value, 0) == 1
                  && Bit(r.hypermetflag.value, 1) == Bit(ddict.hypermetflag.value, 1)
                  && Bit(r.hypermetflag.value, 2) == Bit(ddict.hypermetflag.value, 2)
                  && Bit(r.hypermetflag.value, 3) == Bit(ddict.hypermetflag.value, 3))
            && (ddict.sumflag.Some? ==> r.sumflag == Some(BoxFlag(ddict.sumflag.value == 1)))
            && (ddict.stripflag.Some? ==> r.stripflag == Some(BoxFlag(ddict.stripflag.value == 1)))
            && (ddict.escapeflag.Some? ==> r.escapeflag == Some(BoxFlag(ddict.escapeflag.value == 1)))
            && (ddict.continuum.Some? ==> r.continuum == ddict.continuum)
  {
    var a := Applied(w, ddict);
    var r := Parameters(a);
    if ddict.hypermetflag.Some? && FitFunctionOf(ddict) == 0 {
      var h := ddict.hypermetflag.value;
      assert Bit(h, 1) == 0 || Bit(h, 1) == 1;
      assert Bit(h, 2) == 0 || Bit(h, 2) == 1;
      assert Bit(h, 3) == 0 || Bit(h, 3) == 1;
    }
  }

  class Top {
    /** Current index of the function combo box: 0 is "Mca Hypermet", 1 "Mca Pseudo-Voigt". */
    var funIndex: int
    /** Current index of the background combo box. */
    var bkgIndex: int
    var stChecked: bool
    var ltChecked: bool
    var stepChecked: bool
    var escapeChecked: bool
    var sumChecked: bool
    var stripChecked: bool
    var stEnabled: bool
    var ltEnabled: bool
    var stepEnabled: bool

    function State(): Widgets
      reads this
    {
      Widgets(funIndex, bkgIndex, stChecked, ltChecked, stepChecked, escapeChecked, sumChecked, stripChecked,
              stEnabled, ltEnabled, stepEnabled)
    }

    /** A freshly built widget: both combo boxes at their first item, every box unchecked and enabled. */
    constructor ()
      ensures State() == Widgets(0, 0, false, false, false, false, false, false, true, true, true)
    {
      funIndex, bkgIndex := 0, 0;
      stChecked, ltChecked, stepChecked := false, false, false;
      escapeChecked, sumChecked, stripChecked := false, false, false;
      stEnabled, ltEnabled, stepEnabled := true, true, true;
    }

    /** `getParameters`: reads the widgets into a dictionary, enabling the tail boxes exactly for
        the Hypermet function. */
    method GetParameters() returns (ddict: ParameterDict)
      modifies this`stEnabled, this`ltEnabled, this`stepEnabled
      ensures ddict == Parameters(old(State()))
      ensures State() == TailsEnabled(old(State()))
    {
      var index := funIndex;
      var hypermetflag := 1;
      if index == 0 {
        stEnabled, ltEnabled, stepEnabled := true, true, true;
      } else {
        hypermetflag := 0;
        stEnabled, ltEnabled, stepEnabled := false, false, false;
      }
      if stChecked {
        hypermetflag := hypermetflag + 2;
      }
      if ltChecked {
        hypermetflag := hypermetflag + 4;
      }
      if stepChecked {
        hypermetflag := hypermetflag + 8;
      }
      var sumflag := if sumChecked then 1 else 0;
      var stripflag := if stripChecked then 1 else 0;
      var escapeflag := if escapeChecked then 1 else 0;
      ddict := ParameterDict(Some(index), Some(hypermetflag), Some(sumflag), Some(stripflag), Some(escapeflag), Some(bkgIndex));
    }

    /** `setParameters(ddict)`: sets the widgets from a dictionary.  A missing `fitfunction` is
        derived from `hypermetflag` and written back into the caller's dictionary, returned here
        as `updated`. */
    method SetParameters(ddict: ParameterDict) returns (updated: ParameterDict)
      modifies this
      ensures updated == Completed(ddict)
      ensures State() == Applied(old(State()), ddict)
    {
      updated := SelectFunction(ddict);
      if ddict.hypermetflag.Some? {
        SetTailBoxes(updated.fitfunction.value, ddict.hypermetflag.value);
      }
      SetFlagBoxes(ddict);
    }

    /** The first part of `setParameters`: a missing `fitfunction` becomes 0 when `hypermetflag`
        (default 1) is non-zero and 1 otherwise, and the function combo box takes that index. */
    method SelectFunction(ddict: ParameterDict) returns (updated: ParameterDict)
      modifies this`funIndex
      ensures updated == Completed(ddict) && funIndex == FitFunctionOf(ddict)
    {
      updated := ddict;
      var hypermetflag := if ddict.hypermetflag.Some? then ddict.hypermetflag.value else 1;
      if ddict.fitfunction.None? {
        if hypermetflag != 0 {
          updated := updated.(fitfunction := Some(0));
        } else {
          updated := updated.(fitfunction := Some(1));
        }
      }
      funIndex := updated.fitfunction.value;
    }

    /** The `hypermetflag` branch of `setParameters`: for the Hypermet function the tail boxes are
        enabled and take bits 1, 2 and 3 of the flag; for any other function they are disabled. */
    method SetTailBoxes(fitfunction: int, hypermetflag: int)
      modifies this`stChecked, this`ltChecked, this`stepChecked, this`stEnabled, this`ltEnabled, this`stepEnabled
      ensures fitfunction == 0 ==>
                stEnabled && ltEnabled && stepEnabled
                && stChecked == (Bit(hypermetflag, 1) != 0)
                && ltChecked == (Bit(hypermetflag, 2) != 0)
                && stepChecked == (Bit(hypermetflag, 3) != 0)
      ensures fitfunction != 0 ==>
                !stEnabled && !ltEnabled && !stepEnabled
                && stChecked == old(stChecked) && ltChecked == old(ltChecked) && stepChecked == old(stepChecked)
    {
      if fitfunction == 0 {
        var st_term := Bit(hypermetflag, 1);
        var lt_term := Bit(hypermetflag, 2);
        var step_term := Bit(hypermetflag, 3);
        stEnabled, ltEnabled, stepEnabled := true, true, true;
        stChecked := st_term != 0;
        ltChecked := lt_term != 0;
        stepChecked := step_term != 0;
      } else {
        stEnabled, ltEnabled, stepEnabled := false, false, false;
      }
    }

    /** The last part of `setParameters`: each flag key that is present checks its box exactly
        when it is 1, and `continuum` selects the background; an absent key changes nothing. */
    method SetFlagBoxes(ddict: ParameterDict)
      modifies this`sumChecked, this`stripChecked, this`escapeChecked, this`bkgIndex
      ensures sumChecked == if ddict.sumflag.Some? then ddict.sumflag.value == 1 else old(sumChecked)
      ensures stripChecked == if ddict.stripflag.Some? then ddict.stripflag.value == 1 else old(stripChecked)
      ensures escapeChecked == if ddict.escapeflag.Some? then ddict.escapeflag.value == 1 else old(escapeChecked)
      ensures bkgIndex == if ddict.continuum.Some? then ddict.continuum.value else old(bkgIndex)
    {
      if ddict.sumflag.Some? {
        sumChecked := ddict.sumflag.value == 1;
      }
      if ddict.stripflag.Some? {
        stripChecked := ddict.stripflag.value == 1;
      }
      if ddict.escapeflag.Some? {
        escapeChecked := ddict.escapeflag.value == 1;
      }
      if ddict.continuum.Some? {
        bkgIndex := ddict.continuum.value;
      }
    }
  }

  // ===========================================================================
  // peaksSpectrum: one parameter vector per peak group

  /** The parameter vector of group g: the global parameters and the area of group g as fitted,
      every other group area zero. */
  ghost predicate GroupVector(v: seq<real>, fittedpar: seq<real>, nglobal: nat, g: nat) {
    |v| == |fittedpar| &&
    forall j :: 0 <= j < |v| ==> v[j] == (if j < nglobal || j == nglobal + g then fittedpar[j] else 0.0)
  }

  /** `peaksSpectrum`: without a finished fit nothing is computed; otherwise one parameter vector
      per group, the last ngroups entries of `fittedpar` being the group areas. */
  method PeaksParameters(fitDone: bool, fittedpar: array<real>, ngroups: nat) returns (ok: bool, vectors: seq<seq<real>>)
    requires ngroups <= fittedpar.Length
    ensures ok == fitDone
    ensures !ok ==> vectors == []
    ensures ok ==> |vectors| == ngroups
    ensures ok ==> forall g :: 0 <= g < ngroups ==>
              GroupVector(vectors[g], fittedpar[..], fittedpar.Length - ngroups, g)
  {
    if !fitDone {
      return false, [];
    }
    ok := true;
    var n := fittedpar.Length;
    var nglobal := n - ngroups;
    var newparameters := new real[n](j requires 0 <= j < n reads fittedpar => fittedpar[j]);
    var i := nglobal;
    while i < n
      invariant nglobal <= i <= n
      invariant forall j :: 0 <= j < n ==> newparameters[j] == (if nglobal <= j < i then 0.0 else fittedpar[j])
    {
      newparameters[i] := 0.0;
      i := i + 1;
    }
    vectors := [];
    i := nglobal;
    while i < n
      invariant nglobal <= i <= n
      invariant |vectors| == i - nglobal
      invariant forall j :: 0 <= j < n ==> newparameters[j] == (if nglobal <= j then 0.0 else fittedpar[j])
      invariant forall g :: 0 <= g < |vectors| ==> GroupVector(vectors[g], fittedpar[..], nglobal, g)
    {
      var parameters := newparameters[..];
      parameters := parameters[i := fittedpar[i]];
      assert GroupVector(parameters, fittedpar[..], nglobal, i - nglobal);
      vectors := vectors + [parameters];
      i := i + 1;
    }
  }

  /** Summed over all groups, the per-group vectors give back every fitted group area. */
  lemma GroupAreasAddUp(vectors: seq<seq<real>>, fittedpar: seq<real>, nglobal: nat, j: nat)
    requires nglobal <= j < |fittedpar|
    requires |vectors| == |fittedpar| - nglobal
    requires forall g :: 0 <= g < |vectors| ==> GroupVector(vectors[g], fittedpar, nglobal, g)
    ensures forall g :: 0 <= g < |vectors| ==> j < |vectors[g]|
    ensures ColumnSum(vectors, j) == fittedpar[j]
  {
    forall h | 0 <= h < |vectors| && h != j - nglobal
      ensures vectors[h][j] == 0.0
    {
      assert GroupVector(vectors[h], fittedpar, nglobal, h);
    }
    assert GroupVector(vectors[j - nglobal], fittedpar, nglobal, j - nglobal);
    ColumnSumSingle(vectors, j, j - nglobal, fittedpar[j]);
  }

  /** Sum of entry j over the vectors (each at least j + 1 long). */
  function ColumnSum(vectors: seq<seq<real>>, j: nat): real
    requires forall g :: 0 <= g < |vectors| ==> j < |vectors[g]|
  {
    if vectors == [] then 0.0 else vectors[0][j] + ColumnSum(vectors[1..], j)
  }

  lemma {:induction false} ColumnSumSingle(vectors: seq<seq<real>>, j: nat, g: nat, v: real)
    requires g < |vectors|
    requires forall h :: 0 <= h < |vectors| ==> j < |vectors[h]|
    requires vectors[g][j] == v
    requires forall h :: 0 <= h < |vectors| && h != g ==> vectors[h][j] == 0.0
    ensures ColumnSum(vectors, j) == v
  {
    if g == 0 {
      ColumnSumZero(vectors[1..], j);
    } else {
      ColumnSumSingle(vectors[1..], j, g - 1, v);
    }
  }

  lemma {:induction false} ColumnSumZero(vectors: seq<seq<real>>, j: nat)
    requires forall h :: 0 <= h < |vectors| ==> j < |vectors[h]| && vectors[h][j] == 0.0
    ensures ColumnSum(vectors, j) == 0.0
  {
    if vectors != [] {
      ColumnSumZero(vectors[1..], j);
    }
  }

  // ===========================================================================
  // _saveGraph: the output-file suffix rule

  /** `extension[1:]`: the filter's "*.ext" pattern without its leading star. */
  function Suffix(extension: string): string {
    if |extension| >= 1 then extension[1..] else ""
  }

  /** Python's `s[-4:]`. */
  function LastFour(s: string): (r: string)
    ensures |r| == if |s| >= 4 then 4 else |s|
    ensures r == s[|s| - |r|..]
  {
    if |s| >= 4 then s[|s| - 4..] else s
  }

  predicate EndsWith(s: string, suffix: string) {
    |suffix| <= |s| && s[|s| - |suffix|..] == suffix
  }

  /** `outputFile` after the suffix rule. */
  function SuffixedName(outputFile: string, extension: string): string {
    var ext := Suffix(extension);
    if |outputFile| < |ext| then outputFile + ext
    else if LastFour(outputFile) != ext then outputFile + ext
    else outputFile
  }

  /** The rule as the save routine applies it, reassigning the chosen file name. */
  method ApplySuffix(outputFile: string, extension: string) returns (name: string)
    ensures name == SuffixedName(outputFile, extension)
  {
    var ext := Suffix(extension);
    name := outputFile;
    if |name| < |ext| {
      name := name + ext;
    } else if LastFour(name) != ext {
      name := name + ext;
    }
  }

  /** For a four-character suffix (".mca", ".dat", ".txt", ".csv", ".png", ".eps", ".svg") the
      result ends with the suffix, and the name is unchanged exactly when it already ends with it. */
  lemma SuffixedNameEnds(outputFile: string, extension: string)
    requires |Suffix(extension)| == 4
    ensures EndsWith(SuffixedName(outputFile, extension), Suffix(extension))
    ensures SuffixedName(outputFile, extension) ==
            if EndsWith(outputFile, Suffix(extension)) then outputFile else outputFile + Suffix(extension)
  {
    var ext := Suffix(extension);
    var r := outputFile + ext;
    assert r[|r| - |ext|..] == ext;
  }

  /** Applying the rule twice is applying it once. */
  lemma SuffixedNameIdempotent(outputFile: string, extension: string)
    requires |Suffix(extension)| == 4
    ensures SuffixedName(SuffixedName(outputFile, extension), extension) == SuffixedName(outputFile, extension)
  {
    SuffixedNameEnds(outputFile, extension);
    SuffixedNameEnds(SuffixedName(outputFile, extension), extension);
  }

  /** The rule compares the last four characters, so a suffix of another length is appended
      even to a name that already ends with it. */
  lemma SuffixRuleNeedsFourCharacters(outputFile: string, extension: string)
    requires |Suffix(extension)| != 4 && |outputFile| >= 4
    requires EndsWith(outputFile, Suffix(extension))
    ensures SuffixedName(outputFile, extension) == outputFile + Suffix(extension)
  {
  }
}
