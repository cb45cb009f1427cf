/**
 * The report of a question/answer session (utils/pdf_utils.py): the layout
 * of the dataset preview table and of each entry on the page, the page-break
 * rule before a chart, and the report's file name.
 * Text widths (`get_string_width`), the lines `multi_cell` wraps a text into
 * and the size of a chart image are measurements supplied as inputs; the
 * clock is an input too.
 */
module PdfUtils {
  import opened PyStr
  import opened Fpdf
  import opened SessionState
  import HandleQuery

  /** A table cell: `str(value)`, its width in the table font, and the number
      of lines `multi_cell` wraps it into. */
  datatype CellText = CellText(text: string, width: real, lines: nat)

  const HeaderRowHeight: int := 7
  const TableLineHeight: int := 5

  /** The width of each table column: the page width shared among the
      columns and one spare column. */
  function ColumnWidth(columns: nat): (cw: real)
    ensures cw > 0.0
    ensures cw * (columns as real + 1.0) == PageWidth
  {
    PageWidth / (columns as real + 1.0)
  }

  /** Python's `int()` on a float: truncation toward zero. */
  function Truncate(r: real): (n: int)
    ensures r >= 0.0 ==> n as real <= r < n as real + 1.0
    ensures r < 0.0 ==> n as real - 1.0 < r <= n as real
  {
    if r >= 0.0 then r.Floor else -((-r).Floor)
  }

  /** The estimated number of lines of a cell text: one more than the whole
      column widths the text spans. */
  function LineEstimate(textWidth: real, colWidth: real): (n: int)
    requires colWidth > 0.0
    ensures textWidth >= 0.0 ==> n >= 1
    ensures textWidth >= 0.0 ==> n as real <= textWidth / colWidth + 1.0 < n as real + 1.0
  {
    assert textWidth >= 0.0 ==> textWidth / colWidth >= 0.0;
    Truncate(textWidth / colWidth + 1.0)
  }

  function Max(a: int, b: int): int {
    if a >= b then a else b
  }

  /** The height given to a data row: the header row height, raised to five
      millimetres per estimated line of its tallest cell. */
  function RowHeightOf(cells: seq<CellText>, colWidth: real): int
    requires colWidth > 0.0
  {
    if cells == [] then HeaderRowHeight
    else
      var n := |cells| - 1;
      Max(RowHeightOf(cells[..n], colWidth), TableLineHeight * LineEstimate(cells[n].width, colWidth))
  }

  /** A row is never lower than 7 mm, fits each of its cells' estimates, and
      is 7 mm or exactly the estimate of one of its cells. */
  lemma {:induction false} RowHeightBounds(cells: seq<CellText>, colWidth: real)
    requires colWidth > 0.0
    ensures var h := RowHeightOf(cells, colWidth);
      && h >= HeaderRowHeight
      && (forall j :: 0 <= j < |cells| ==>
            h >= TableLineHeight * LineEstimate(cells[j].width, colWidth))
      && (|| h == HeaderRowHeight
          || (exists j :: 0 <= j < |cells| &&
                h == TableLineHeight * LineEstimate(cells[j].width, colWidth)))
  {
    if cells != [] {
      var n := |cells| - 1;
      RowHeightBounds(cells[..n], colWidth);
      var h0 := RowHeightOf(cells[..n], colWidth);
      if h0 != HeaderRowHeight && RowHeightOf(cells, colWidth) == h0 {
        var j :| 0 <= j < n && h0 == TableLineHeight * LineEstimate(cells[..n][j].width, colWidth);
        assert cells[j] == cells[..n][j];
      }
      forall j | 0 <= j < n
        ensures RowHeightOf(cells, colWidth) >= TableLineHeight * LineEstimate(cells[j].width, colWidth)
      {
        assert cells[j] == cells[..n][j];
      }
    }
  }

  /** The boxes of the header row: one per column, side by side. */
  function HeaderMarks(x0: real, y0: real, cw: real, columns: seq<string>): seq<Mark> {
    seq(|columns|, j requires 0 <= j < |columns| =>
      Box(x0 + j as real * cw, y0, cw, HeaderRowHeight as real, columns[j]))
  }

  /** The paragraphs of a data row: one per cell, all from the row's top, each
      one column width right of the previous. */
  function RowMarks(x0: real, y0: real, cw: real, cells: seq<CellText>): seq<Mark> {
    seq(|cells|, j requires 0 <= j < |cells| =>
      Para(x0 + j as real * cw, y0, cw, TableLineHeight as real, cells[j].lines, cells[j].text))
  }

  /** The header row put down from the cursor, which then starts the next
      line 7 mm lower. */
  function AfterHeader(d: Doc, columns: seq<string>, cw: real): Doc {
    Doc(Margin, d.y + HeaderRowHeight as real, d.page, d.marks + HeaderMarks(d.x, d.y, cw, columns))
  }

  /** A data row put down from the cursor, which then starts the next line
      one row height lower. */
  function AfterRow(d: Doc, cells: seq<CellText>, cw: real): Doc
    requires cw > 0.0
  {
    Doc(Margin, d.y + RowHeightOf(cells, cw) as real, d.page, d.marks + RowMarks(d.x, d.y, cw, cells))
  }

  /** The table: the header row, then the data rows in order. */
  function TableDoc(d: Doc, columns: seq<string>, rows: seq<seq<CellText>>): Doc
    decreases |rows|
  {
    var cw := ColumnWidth(|columns|);
    if rows == [] then AfterHeader(d, columns, cw)
    else AfterRow(TableDoc(d, columns, rows[..|rows| - 1]), rows[|rows| - 1], cw)
  }

  /** A table without data rows is its header row alone: one box per column,
      all on the cursor's line. */
  lemma TableWithoutRows(d: Doc, columns: seq<string>)
    ensures var t := TableDoc(d, columns, []);
      && |t.marks| == |d.marks| + |columns|
      && t.marks[..|d.marks|] == d.marks
      && (forall j :: |d.marks| <= j < |t.marks| ==> t.marks[j].Box? && t.marks[j].y == d.y)
      && t.y == d.y + 7.0 && t.page == d.page
  {
    var t := TableDoc(d, columns, []);
    assert t.marks == d.marks + HeaderMarks(d.x, d.y, ColumnWidth(|columns|), columns);
  }

  /** A table is at least 7 mm per row below its header, stays on its page,
      and only adds header boxes 7 mm high and cell paragraphs of 5 mm
      lines. */
  lemma {:induction false} TableShape(d: Doc, columns: seq<string>, rows: seq<seq<CellText>>)
    ensures var t := TableDoc(d, columns, rows);
      && t.y >= d.y + 7.0 * (|rows| as real + 1.0)
      && t.page == d.page
      && |t.marks| >= |d.marks| && t.marks[..|d.marks|] == d.marks
      && (forall j :: |d.marks| <= j < |t.marks| ==>
            (t.marks[j].Box? && t.marks[j].h == 7.0) || (t.marks[j].Para? && t.marks[j].lineHeight == 5.0))
    decreases |rows|
  {
    var cw := ColumnWidth(|columns|);
    var t := TableDoc(d, columns, rows);
    if rows == [] {
      assert t.marks == d.marks + HeaderMarks(d.x, d.y, cw, columns);
    } else {
      var n := |rows| - 1;
      var p := TableDoc(d, columns, rows[..n]);
      TableShape(d, columns, rows[..n]);
      RowHeightBounds(rows[n], cw);
      assert t.marks == p.marks + RowMarks(p.x, p.y, cw, rows[n]);
      assert t.marks[..|d.marks|] == p.marks[..|d.marks|];
    }
  }

  /** The cursor of a report. */
  class CustomPdf {
    var x: real
    var y: real
    var page: nat
    var marks: seq<Mark>

    constructor ()
      ensures Snapshot() == Blank
    {
      x, y, page, marks := Margin, Margin, 0, [];
    }

    function Snapshot(): Doc
      reads this
    {
      Doc(x, y, page, marks)
    }

    method Ln(h: real)
      modifies this
      ensures Snapshot() == AfterLn(old(Snapshot()), h)
    {
      x, y := Margin, y + h;
    }

    method Cell(w: real, h: real, text: string, newLine: bool)
      modifies this
      ensures Snapshot() == AfterCell(old(Snapshot()), w, h, text, newLine)
    {
      var cw := if w == 0.0 then PageWidth - Margin - x else w;
      marks := marks + [Box(x, y, cw, h, text)];
      if newLine {
        x, y := Margin, y + h;
      } else {
        x := x + cw;
      }
    }

    method MultiCell(w: real, h: real, text: string, lines: nat)
      modifies this
      ensures Snapshot() == AfterMultiCell(old(Snapshot()), w, h, text, lines)
    {
      var cw := if w == 0.0 then PageWidth - Margin - x else w;
      marks := marks + [Para(x, y, cw, h, lines, text)];
      x, y := Margin, y + lines as real * h;
    }

    method SetXY(newX: real, newY: real)
      modifies this
      ensures Snapshot() == AfterSetXY(old(Snapshot()), newX, newY)
    {
      x, y := newX, newY;
    }

    method SetY(newY: real)
      modifies this
      ensures Snapshot() == AfterSetY(old(Snapshot()), newY)
    {
      x, y := Margin, newY;
    }

    method SetX(newX: real)
      modifies this
      ensures Snapshot() == AfterSetX(old(Snapshot()), newX)
    {
      x := newX;
    }

    method AddPage()
      modifies this
      ensures Snapshot() == AfterAddPage(old(Snapshot()))
    {
      marks := marks + [NewPage];
      page := page + 1;
      x, y := Margin, Margin;
    }

    method Image(ix: real, iy: real, w: real, path: string)
      modifies this
      ensures Snapshot() == AfterImage(old(Snapshot()), ix, iy, w, path)
    {
      marks := marks + [Picture(ix, iy, w, path)];
    }

    method Line(x1: real, y1: real, x2: real, y2: real)
      modifies this
      ensures Snapshot() == AfterLine(old(Snapshot()), x1, y1, x2, y2)
    {
      marks := marks + [Rule(x1, y1, x2, y2)];
    }

    /** `create_table(dataframe)` for the given column names and rows. */
    method CreateTable(columns: seq<string>, rows: seq<seq<CellText>>)
      modifies this
      ensures Snapshot() == TableDoc(old(Snapshot()), columns, rows)
    {
      var colWidth := ColumnWidth(|columns|);
      ghost var d0 := Snapshot();
      var j := 0;
      while j < |columns|
        invariant 0 <= j <= |columns|
        invariant Snapshot() == d0.(x := d0.x + j as real * colWidth,
                                    marks := d0.marks + HeaderMarks(d0.x, d0.y, colWidth, columns[..j]))
      {
        HeaderMarksSnoc(d0.x, d0.y, colWidth, columns, j);
        Cell(colWidth, HeaderRowHeight as real, columns[j], false);
        j := j + 1;
      }
      assert columns[..j] == columns;
      Ln(HeaderRowHeight as real);
      var r := 0;
      while r < |rows|
        invariant 0 <= r <= |rows|
        invariant Snapshot() == TableDoc(d0, columns, rows[..r])
      {
        assert rows[..r + 1][..r] == rows[..r];
        var maxLineHeight, _ := MaxLineHeight(rows[r], colWidth);
        RenderRow(rows[r], colWidth);
        Ln(maxLineHeight as real);
        r := r + 1;
      }
      assert rows[..r] == rows;
    }

    /** The cells of one row, each from the row's top, one column width
        apart; the cursor is left at the row's top, right of its last cell. */
    method RenderRow(cells: seq<CellText>, colWidth: real)
      requires colWidth > 0.0
      modifies this
      ensures Snapshot() == old(Snapshot()).(x := old(x) + |cells| as real * colWidth,
                                            marks := old(marks) + RowMarks(old(x), old(y), colWidth, cells))
    {
      ghost var d0 := Snapshot();
      var xStart, yStart := x, y;
      var k := 0;
      while k < |cells|
        invariant 0 <= k <= |cells|
        invariant xStart == d0.x + k as real * colWidth
        invariant Snapshot() == d0.(x := xStart, marks := d0.marks + RowMarks(d0.x, d0.y, colWidth, cells[..k]))
      {
        RowMarksSnoc(d0.x, d0.y, colWidth, cells, k);
        MultiCell(colWidth, TableLineHeight as real, cells[k].text, cells[k].lines);
        xStart := xStart + colWidth;
        SetXY(xStart, yStart);
        k := k + 1;
      }
      assert cells[..k] == cells;
    }
  }

  lemma HeaderMarksSnoc(x0: real, y0: real, cw: real, columns: seq<string>, j: nat)
    requires j < |columns|
    ensures HeaderMarks(x0, y0, cw, columns[..j + 1])
      == HeaderMarks(x0, y0, cw, columns[..j]) + [Box(x0 + j as real * cw, y0, cw, 7.0, columns[j])]
  {
    var longer := HeaderMarks(x0, y0, cw, columns[..j + 1]);
    var shorter := HeaderMarks(x0, y0, cw, columns[..j]);
    forall i | 0 <= i < j
      ensures longer[i] == shorter[i]
    {
      assert columns[..j + 1][i] == columns[..j][i];
    }
    assert longer == shorter + [longer[j]];
  }

  lemma RowMarksSnoc(x0: real, y0: real, cw: real, cells: seq<CellText>, k: nat)
    requires k < |cells|
    ensures RowMarks(x0, y0, cw, cells[..k + 1])
      == RowMarks(x0, y0, cw, cells[..k]) + [Para(x0 + k as real * cw, y0, cw, 5.0, cells[k].lines, cells[k].text)]
  {
    var longer := RowMarks(x0, y0, cw, cells[..k + 1]);
    var shorter := RowMarks(x0, y0, cw, cells[..k]);
    forall i | 0 <= i < k
      ensures longer[i] == shorter[i]
    {
      assert cells[..k + 1][i] == cells[..k][i];
    }
    assert longer == shorter + [longer[k]];
  }

  /** The first pass of `create_table` over a row: the row height and the
      cell texts. */
  method MaxLineHeight(cells: seq<CellText>, colWidth: real) returns (maxLineHeight: int, values: seq<string>)
    requires colWidth > 0.0
    ensures maxLineHeight == RowHeightOf(cells, colWidth)
    ensures |values| == |cells| && forall j :: 0 <= j < |cells| ==> values[j] == cells[j].text
  {
    maxLineHeight := HeaderRowHeight;
    values := [];
    var i := 0;
    while i < |cells|
      invariant 0 <= i <= |cells|
      invariant maxLineHeight == RowHeightOf(cells[..i], colWidth)
      invariant |values| == i && forall j :: 0 <= j < i ==> values[j] == cells[j].text
    {
      var nbLines := LineEstimate(cells[i].width, colWidth);
      maxLineHeight := Max(maxLineHeight, TableLineHeight * nbLines);
      values := values + [cells[i].text];
      assert cells[..i + 1][..i] == cells[..i];
      i := i + 1;
    }
    assert cells[..i] == cells;
  }

  const PreviewQuestion: string := "Aperçu du Dataset"
  const PreviewTitle: string := "Aperçu des premières lignes du Dataset:"
  const ImageNotice: string := "Réponse: Voir le graphique ci-dessous."
  const LogoPath: string := "./logo/sntpk-ia-logo.jpeg"
  /** The A4 size the report's own positions are written against (the logo,
      the rule and the break test), in millimetres. */
  const SheetWidth: real := 210.0
  const SheetHeight: real := 297.0
  /** Room kept at the bottom of a page, as for fpdf's automatic page break. */
  const BottomMargin: real := 15.0
  /** How many dataframe rows the preview shows. */
  const PreviewRows: nat := 3

  /** What fpdf and PIL measure for an entry: the lines the question and the
      answer wrap into, and the size of the chart image when there is one. */
  datatype Layout = Layout(questionLines: nat, answerLines: nat, imageWidth: real, imageHeight: real)

  /** How an entry of the session log is rendered. */
  datatype Kind = Preview | Image(path: string) | Plain(text: string)

  /** The dataset-preview entry by its question; a chart when the answer is a
      string ending in ".png"; otherwise the answer as text. */
  function Classify(e: Entry): (k: Kind)
    ensures k.Preview? <==> e.question == PreviewQuestion
    ensures k.Image? <==>
      e.question != PreviewQuestion && e.answer.Str? && EndsWith(e.answer.text, ".png")
    ensures k.Image? ==> k.path == AnswerText(e.answer)
    ensures k.Plain? ==> k.text == "Réponse: " + AnswerText(e.answer)
  {
    if e.question == PreviewQuestion then Preview
    else if e.answer.Str? && EndsWith(e.answer.text, ".png") then Image(e.answer.text)
    else Plain("Réponse: " + AnswerText(e.answer))
  }

  /** Only a string answer can be a chart: another object whose text ends in
      ".png" is written out as text. */
  lemma OtherAnswerIsText(question: string, repr: string)
    requires question != PreviewQuestion
    ensures Classify(Entry(question, Other(repr))) == Plain("Réponse: " + repr)
  {
  }

  /** A chart that `handle_query` moved to its unique name is still rendered
      as a chart. */
  lemma RenamedChartIsImage(question: string, timestamp: string, uuidHex: string)
    requires |uuidHex| == 32 && question != PreviewQuestion
    ensures var path := HandleQuery.RenamedChartPath(timestamp, uuidHex);
      Classify(Entry(question, Str(path))) == Image(path)
  {
  }

  /** The height of the chart drawn 70 mm wide, keeping its proportions. */
  function ImageHeight(lay: Layout): (h: real)
    requires lay.imageWidth > 0.0
    ensures h * lay.imageWidth == 70.0 * lay.imageHeight
  {
    70.0 * (lay.imageHeight / lay.imageWidth)
  }

  /** The single test made before a chart: a new page when what is left
      above the bottom margin is less than the chart and a 5 mm gap. */
  predicate PageBreakNeeded(y: real, h: real) {
    SheetHeight - y - BottomMargin < h + 5.0
  }

  /** The blue rule between entries and the gap after it. */
  function RuleThenGap(d: Doc): Doc {
    AfterLn(AfterLine(d, (SheetWidth - 30.0) / 2.0, d.y + 5.0, (SheetWidth + 30.0) / 2.0, d.y + 5.0), 10.0)
  }

  function MinNat(a: nat, b: nat): nat {
    if a <= b then a else b
  }

  /** The preview entry: its title, then the table of the first rows. */
  function PreviewDoc(d: Doc, columns: seq<string>, rows: seq<seq<CellText>>): Doc {
    var titled := AfterLn(AfterCell(d, 0.0, 10.0, PreviewTitle, true), 5.0);
    AfterLn(TableDoc(titled, columns, rows[..MinNat(PreviewRows, |rows|)]), 20.0)
  }

  /** Where the chart goes: on a new page when the break test asks for it,
      else at the cursor. */
  function ChartPlace(d: Doc, h: real): Doc {
    if PageBreakNeeded(d.y, h) then AfterAddPage(AfterLn(d, SheetHeight - d.y - BottomMargin + 20.0))
    else d
  }

  /** The chart put down at its place, and the cursor moved past it. */
  function ImageDoc(d: Doc, path: string, h: real): Doc {
    var placed := ChartPlace(d, h);
    AfterLn(AfterImage(placed, 10.0, placed.y, 70.0, path), h + 5.0)
  }

  /** One entry of the report, from the rule that precedes it. */
  function EntryDoc(d: Doc, e: Entry, lay: Layout, columns: seq<string>, rows: seq<seq<CellText>>): Doc
    requires Classify(e).Image? ==> lay.imageWidth > 0.0
  {
    var ruled := RuleThenGap(d);
    match Classify(e)
    case Preview => PreviewDoc(ruled, columns, rows)
    case Image(path) => ChartEntryDoc(ruled, e.question, path, lay)
    case Plain(text) => TextEntryDoc(ruled, e.question, text, lay)
  }

  /** A chart entry: the question, the notice, the chart. */
  function ChartEntryDoc(d: Doc, question: string, path: string, lay: Layout): Doc
    requires lay.imageWidth > 0.0
  {
    var asked := AfterMultiCell(d, 0.0, 10.0, "Question: " + question, lay.questionLines);
    var noticed := AfterMultiCell(asked, 0.0, 10.0, ImageNotice, lay.answerLines);
    AfterLn(ImageDoc(noticed, path, ImageHeight(lay)), 5.0)
  }

  /** Any other entry: the question and the answer text. */
  function TextEntryDoc(d: Doc, question: string, text: string, lay: Layout): Doc {
    var asked := AfterMultiCell(d, 0.0, 10.0, "Question: " + question, lay.questionLines);
    AfterLn(AfterLn(AfterMultiCell(asked, 0.0, 10.0, text, lay.answerLines), 5.0), 5.0)
  }

  /** Every chart entry comes with a positive image width. */
  predicate ImagesMeasured(entries: seq<Entry>, layouts: seq<Layout>)
    requires |layouts| == |entries|
  {
    forall i :: 0 <= i < |entries| && Classify(entries[i]).Image? ==> layouts[i].imageWidth > 0.0
  }

  /** The entries rendered in order. */
  function EntriesDoc(d: Doc, entries: seq<Entry>, layouts: seq<Layout>,
                      columns: seq<string>, rows: seq<seq<CellText>>): Doc
    requires |layouts| == |entries| && ImagesMeasured(entries, layouts)
    decreases |entries|
  {
    if entries == [] then d
    else
      var n := |entries| - 1;
      assert ImagesMeasured(entries[..n], layouts[..n]) by {
        forall k | 0 <= k < n ensures entries[..n][k] == entries[k] && layouts[..n][k] == layouts[k] { }
      }
      EntryDoc(EntriesDoc(d, entries[..n], layouts[..n], columns, rows), entries[n], layouts[n], columns, rows)
  }

  /** The chart is drawn at the top of a new page when the test asks for a
      break, and otherwise at the cursor, where it ends at least 5 mm above
      the bottom margin; the cursor then goes 5 mm past the chart. */
  lemma ImagePlacement(d: Doc, path: string, h: real)
    ensures var placed := ChartPlace(d, h);
      var r := ImageDoc(d, path, h);
      && r.marks[..|d.marks|] == d.marks
      && r.marks[|r.marks| - 1] == Picture(10.0, placed.y, 70.0, path)
      && (PageBreakNeeded(d.y, h) ==>
            placed.page == d.page + 1 && placed.y == Margin && r.marks[|d.marks|] == NewPage)
      && (!PageBreakNeeded(d.y, h) ==>
            && placed.page == d.page && placed.y == d.y && |r.marks| == |d.marks| + 1
            && placed.y + h + 5.0 <= SheetHeight - BottomMargin)
      && r.y == placed.y + h + 5.0 && r.page == placed.page
  {
  }

  /** The test is made once: a chart taller than a page less its margins
      runs past the bottom margin even on the new page, and no further page
      is started for it. */
  lemma TallChartOverflows(d: Doc, path: string, h: real)
    requires h + 5.0 > SheetHeight - BottomMargin - Margin
    ensures PageBreakNeeded(d.y, h) || d.y < Margin
    ensures d.y >= Margin ==> ImageDoc(d, path, h).page == d.page + 1
    ensures ChartPlace(d, h).y + h + 5.0 > SheetHeight - BottomMargin || d.y < Margin
  {
  }

  /** An entry adds to the log of marks and starts at most one page, only for
      a chart; the dataset preview adds its title and table and no
      question or answer paragraph (those use 10 mm lines). */
  lemma EntryShape(d: Doc, e: Entry, lay: Layout, columns: seq<string>, rows: seq<seq<CellText>>)
    requires Classify(e).Image? ==> lay.imageWidth > 0.0
    ensures var r := EntryDoc(d, e, lay, columns, rows);
      && |r.marks| > |d.marks| && r.marks[..|d.marks|] == d.marks
      && r.marks[|d.marks|].Rule?
      && d.page <= r.page <= d.page + (if Classify(e).Image? then 1 else 0)
      && (Classify(e).Preview? ==>
            forall j :: |d.marks| < j < |r.marks| ==> !(r.marks[j].Para? && r.marks[j].lineHeight == 10.0))
      && (!Classify(e).Preview? ==>
            r.marks[|d.marks| + 1] == Para(Margin, d.y + 10.0, PageWidth - 2.0 * Margin, 10.0,
                                           lay.questionLines, "Question: " + e.question))
  {
    var ruled := RuleThenGap(d);
    assert ruled.marks == d.marks + [Rule(90.0, d.y + 5.0, 120.0, d.y + 5.0)];
    var r := EntryDoc(d, e, lay, columns, rows);
    match Classify(e)
    case Preview =>
      PreviewShape(ruled, columns, rows);
      assert r.marks[..|d.marks|] == r.marks[..|ruled.marks|][..|d.marks|];
    case Image(path) =>
      ChartEntryShape(ruled, e.question, path, lay);
      assert r.marks[..|d.marks|] == r.marks[..|ruled.marks|][..|d.marks|];
    case Plain(text) =>
      TextEntryShape(ruled, e.question, text, lay);
      assert r.marks[..|d.marks|] == r.marks[..|ruled.marks|][..|d.marks|];
  }

  /** A chart entry starts with its question paragraph and starts at most
      one page. */
  lemma ChartEntryShape(d: Doc, question: string, path: string, lay: Layout)
    requires lay.imageWidth > 0.0
    ensures var r := ChartEntryDoc(d, question, path, lay);
      && |r.marks| > |d.marks| && r.marks[..|d.marks|] == d.marks
      && r.marks[|d.marks|] == Para(d.x, d.y, CellWidth(d, 0.0), 10.0, lay.questionLines, "Question: " + question)
      && d.page <= r.page <= d.page + 1
  {
    var asked := AfterMultiCell(d, 0.0, 10.0, "Question: " + question, lay.questionLines);
    var noticed := AfterMultiCell(asked, 0.0, 10.0, ImageNotice, lay.answerLines);
    ImagePlacement(noticed, path, ImageHeight(lay));
    var r := ChartEntryDoc(d, question, path, lay);
    assert r.marks[..|noticed.marks|] == noticed.marks;
    assert r.marks[..|d.marks|] == noticed.marks[..|d.marks|];
    assert r.marks[|d.marks|] == noticed.marks[|d.marks|];
  }

  /** Any other entry starts with its question paragraph, then its answer
      paragraph, on the same page. */
  lemma TextEntryShape(d: Doc, question: string, text: string, lay: Layout)
    ensures var r := TextEntryDoc(d, question, text, lay);
      && r.marks == d.marks
         + [Para(d.x, d.y, CellWidth(d, 0.0), 10.0, lay.questionLines, "Question: " + question),
            Para(Margin, d.y + lay.questionLines as real * 10.0, PageWidth - 2.0 * Margin, 10.0, lay.answerLines, text)]
      && r.page == d.page
  {
  }

  /** The preview adds its title box and the table below it, on the same
      page, and no paragraph with 10 mm lines. */
  lemma PreviewShape(d: Doc, columns: seq<string>, rows: seq<seq<CellText>>)
    ensures var r := PreviewDoc(d, columns, rows);
      && |r.marks| > |d.marks| && r.marks[..|d.marks|] == d.marks && r.page == d.page
      && forall j :: |d.marks| <= j < |r.marks| ==> !(r.marks[j].Para? && r.marks[j].lineHeight == 10.0)
  {
    var titled := AfterLn(AfterCell(d, 0.0, 10.0, PreviewTitle, true), 5.0);
    TableShape(titled, columns, rows[..MinNat(PreviewRows, |rows|)]);
    var r := PreviewDoc(d, columns, rows);
    assert r.marks[..|titled.marks|] == titled.marks;
    assert r.marks[..|d.marks|] == titled.marks[..|d.marks|];
  }

  /** Over the whole report the log of marks only grows, and pages are
      started only for charts: at most one per chart entry. */
  lemma {:induction false} EntriesShape(d: Doc, entries: seq<Entry>, layouts: seq<Layout>,
                                        columns: seq<string>, rows: seq<seq<CellText>>)
    requires |layouts| == |entries| && ImagesMeasured(entries, layouts)
    ensures var r := EntriesDoc(d, entries, layouts, columns, rows);
      && |r.marks| >= |d.marks| + |entries| && r.marks[..|d.marks|] == d.marks
      && d.page <= r.page <= d.page + ChartCount(entries)
    decreases |entries|
  {
    if entries != [] {
      var n := |entries| - 1;
      assert ImagesMeasured(entries[..n], layouts[..n]) by {
        forall k | 0 <= k < n ensures entries[..n][k] == entries[k] && layouts[..n][k] == layouts[k] { }
      }
      EntriesShape(d, entries[..n], layouts[..n], columns, rows);
      var p := EntriesDoc(d, entries[..n], layouts[..n], columns, rows);
      EntryShape(p, entries[n], layouts[n], columns, rows);
      var r := EntriesDoc(d, entries, layouts, columns, rows);
      assert r.marks[..|d.marks|] == r.marks[..|p.marks|][..|d.marks|];
      assert entries[..n] + [entries[n]] == entries;
      ChartCountSnoc(entries[..n], entries[n]);
    }
  }

  /** The number of entries rendered as charts. */
  function ChartCount(entries: seq<Entry>): nat {
    if entries == [] then 0
    else ChartCount(entries[1..]) + (if Classify(entries[0]).Image? then 1 else 0)
  }

  lemma {:induction false} ChartCountSnoc(entries: seq<Entry>, e: Entry)
    ensures ChartCount(entries + [e]) == ChartCount(entries) + (if Classify(e).Image? then 1 else 0)
  {
    if entries != [] {
      assert (entries + [e])[1..] == entries[1..] + [e];
      ChartCountSnoc(entries[1..], e);
    } else {
      assert ([] + [e])[1..] == [];
    }
  }

  /** The report's first page up to the first entry: logo, date, the boxed
      dataset name and the session title. */
  function HeaderDoc(csvFileName: string, date: string): (d: Doc)
    ensures d.page == 1 && d.x == Margin && d.y == 81.0
  {
    var started := AfterImage(AfterAddPage(Blank), (SheetWidth - 30.0) / 2.0, 10.0, 30.0, LogoPath);
    var dated := AfterCell(AfterSetX(AfterSetY(started, 31.0), 150.0), 0.0, 10.0, "Date : " + date, true);
    var named := AfterCell(AfterLn(dated, 5.0), 0.0, 10.0, "Rapport d'analyse du dataset " + csvFileName, true);
    var titled := AfterCell(AfterLn(named, 5.0), 0.0, 10.0, "Session Questions/Réponses", true);
    AfterLn(titled, 10.0)
  }

  /** The report's file name: "analysis-", the dataset's base name, "-", the
      time, ".pdf". */
  function ReportFileName(csvFileName: string, timestamp: string): string {
    "analysis-" + Basename(csvFileName) + "-" + timestamp + ".pdf"
  }

  /** Where the report is written. */
  function OutputPath(csvFileName: string, timestamp: string): string {
    Join("Results", ReportFileName(csvFileName, timestamp))
  }

  /** The report lies directly in "Results" under its file name, when the
      time has no '/' in it. */
  lemma OutputPathShape(csvFileName: string, timestamp: string)
    requires Free(timestamp, '/')
    ensures var name := ReportFileName(csvFileName, timestamp);
      && OutputPath(csvFileName, timestamp) == "Results" + "/" + name
      && Basename(OutputPath(csvFileName, timestamp)) == name
  {
    var name := ReportFileName(csvFileName, timestamp);
    ReportFileNameShape(csvFileName, timestamp);
    var dir := "Results";
    assert dir[|dir| - 1] == 's';
    JoinBasename(dir, name);
  }

  /** The file name starts with "analysis-" and the dataset's base name and
      ends in ".pdf"; it has no '/' when the time has none. */
  lemma ReportFileNameShape(csvFileName: string, timestamp: string)
    ensures var name := ReportFileName(csvFileName, timestamp);
      && EndsWith(name, ".pdf")
      && StartsWith(name, "analysis-" + Basename(csvFileName) + "-")
      && (Free(timestamp, '/') ==> Free(name, '/'))
  {
    NameShape(Basename(csvFileName), timestamp);
  }

  lemma NameShape(base: string, timestamp: string)
    requires Free(base, '/')
    ensures var name := "analysis-" + base + "-" + timestamp + ".pdf";
      && EndsWith(name, ".pdf")
      && StartsWith(name, "analysis-" + base + "-")
      && (Free(timestamp, '/') ==> Free(name, '/'))
  {
    var prefix, dash, ext := "analysis-", "-", ".pdf";
    var head := prefix + base + dash;
    var name := head + timestamp + ext;
    assert name[|name| - 4..] == ext;
    assert name[..|head|] == head;
    if Free(timestamp, '/') {
      assert Free(prefix, '/') && Free(dash, '/') && Free(ext, '/');
      FreeAppend(prefix, base, '/');
      FreeAppend(prefix + base, dash, '/');
      FreeAppend(head, timestamp, '/');
      FreeAppend(head + timestamp, ext, '/');
    }
  }

  /** One entry of `create_kai_pdf`'s loop. */
  method RenderEntry(pdf: CustomPdf, e: Entry, lay: Layout, columns: seq<string>, rows: seq<seq<CellText>>)
    requires Classify(e).Image? ==> lay.imageWidth > 0.0
    modifies pdf
    ensures pdf.Snapshot() == EntryDoc(old(pdf.Snapshot()), e, lay, columns, rows)
  {
    pdf.Line((SheetWidth - 30.0) / 2.0, pdf.y + 5.0, (SheetWidth + 30.0) / 2.0, pdf.y + 5.0);
    pdf.Ln(10.0);
    if e.question == PreviewQuestion {
      pdf.Cell(0.0, 10.0, PreviewTitle, true);
      pdf.Ln(5.0);
      pdf.CreateTable(columns, rows[..MinNat(PreviewRows, |rows|)]);
      pdf.Ln(20.0);
      return;
    }
    if e.answer.Str? && EndsWith(e.answer.text, ".png") {
      RenderChart(pdf, e.question, e.answer.text, lay);
    } else {
      RenderText(pdf, e.question, "Réponse: " + AnswerText(e.answer), lay);
    }
  }

  /** The question, the notice and the chart, breaking the page first when
      the chart does not fit. */
  method RenderChart(pdf: CustomPdf, question: string, imagePath: string, lay: Layout)
    requires lay.imageWidth > 0.0
    modifies pdf
    ensures pdf.Snapshot() == ChartEntryDoc(old(pdf.Snapshot()), question, imagePath, lay)
  {
    pdf.MultiCell(0.0, 10.0, "Question: " + question, lay.questionLines);
    pdf.MultiCell(0.0, 10.0, ImageNotice, lay.answerLines);
    var imageHeight := 70.0 * (lay.imageHeight / lay.imageWidth);
    var availableHeight := SheetHeight - pdf.y - BottomMargin;
    if availableHeight < imageHeight + 5.0 {
      pdf.Ln(availableHeight + 20.0);
      pdf.AddPage();
    }
    pdf.Image(10.0, pdf.y, 70.0, imagePath);
    pdf.Ln(imageHeight + 5.0);
    pdf.Ln(5.0);
  }

  /** The question and the answer text. */
  method RenderText(pdf: CustomPdf, question: string, text: string, lay: Layout)
    modifies pdf
    ensures pdf.Snapshot() == TextEntryDoc(old(pdf.Snapshot()), question, text, lay)
  {
    pdf.MultiCell(0.0, 10.0, "Question: " + question, lay.questionLines);
    pdf.MultiCell(0.0, 10.0, text, lay.answerLines);
    pdf.Ln(5.0);
    pdf.Ln(5.0);
  }

  /** The first page of `create_kai_pdf`, before the loop over the log. */
  method RenderHeader(pdf: CustomPdf, csvFileName: string, date: string)
    requires pdf.Snapshot() == Blank
    modifies pdf
    ensures pdf.Snapshot() == HeaderDoc(csvFileName, date)
  {
    pdf.AddPage();
    pdf.Image((SheetWidth - 30.0) / 2.0, 10.0, 30.0, LogoPath);
    pdf.SetY(31.0);
    pdf.SetX(150.0);
    pdf.Cell(0.0, 10.0, "Date : " + date, true);
    pdf.Ln(5.0);
    pdf.Cell(0.0, 10.0, "Rapport d'analyse du dataset " + csvFileName, true);
    pdf.Ln(5.0);
    pdf.Cell(0.0, 10.0, "Session Questions/Réponses", true);
    pdf.Ln(10.0);
  }

  /** `create_kai_pdf(csv_file_name, df, data)`: the report of the session
      log `data` with the dataset `df` given by its column names and rows,
      and the path it is written to. `date` and `timestamp` are the clock's
      readings as the report formats them. */
  method CreateKaiPdf(csvFileName: string, columns: seq<string>, rows: seq<seq<CellText>>,
                      data: seq<Entry>, layouts: seq<Layout>, date: string, timestamp: string)
    returns (path: string, doc: Doc)
    requires |layouts| == |data| && ImagesMeasured(data, layouts)
    ensures doc == EntriesDoc(HeaderDoc(csvFileName, date), data, layouts, columns, rows)
    ensures path == OutputPath(csvFileName, timestamp)
  {
    var pdf := new CustomPdf();
    RenderHeader(pdf, csvFileName, date);
    ghost var start := pdf.Snapshot();
    var i := 0;
    while i < |data|
      invariant 0 <= i <= |data|
      invariant ImagesMeasured(data[..i], layouts[..i])
      invariant pdf.Snapshot() == EntriesDoc(start, data[..i], layouts[..i], columns, rows)
    {
      assert data[..i + 1][..i] == data[..i] && layouts[..i + 1][..i] == layouts[..i];
      assert ImagesMeasured(data[..i + 1], layouts[..i + 1]) by {
        forall k | 0 <= k <= i ensures data[..i + 1][k] == data[k] && layouts[..i + 1][k] == layouts[k] { }
      }
      RenderEntry(pdf, data[i], layouts[i], columns, rows);
      i := i + 1;
    }
    assert data[..i] == data && layouts[..i] == layouts;
    doc := pdf.Snapshot();
    var csvBasename := Basename(csvFileName);
    path := Join("Results", "analysis-" + csvBasename + "-" + timestamp + ".pdf");
  }
}
