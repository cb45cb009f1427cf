/**
 * The part of the fpdf library the report relies on, as a cursor on an A4
 * portrait page in millimetres: where each call leaves the cursor, and what
 * it puts down (a cell, a wrapped paragraph, an image, a rule, a new page).
 * Fonts, colours and the drawing itself are not modelled; the number of
 * lines `multi_cell` wraps a text into is supplied by the caller, as fpdf
 * measures it.
 */
module Fpdf {

  /** fpdf's page width `w` in millimetres: the A4 width of 595.28 points
      divided by 72/25.4 points per millimetre (slightly over 210). */
  const PageWidth: real := 595.28 * 25.4 / 72.0
  /** fpdf's default left, top and right margin: 28.35 points (1 cm
      rounded to points) divided by 72/25.4 points per millimetre, slightly
      over 10. */
  const Margin: real := 28.35 * 25.4 / 72.0

  /** What a call leaves on the page. */
  datatype Mark =
    | Box(x: real, y: real, w: real, h: real, text: string)
    | Para(x: real, y: real, w: real, lineHeight: real, lines: nat, text: string)
    | Picture(x: real, y: real, w: real, path: string)
    | Rule(x1: real, y1: real, x2: real, y2: real)
    | NewPage

  /** The cursor, the number of pages started and everything put down. */
  datatype Doc = Doc(x: real, y: real, page: nat, marks: seq<Mark>)

  /** A document before its first page. */
  const Blank: Doc := Doc(Margin, Margin, 0, [])

  /** `ln(h)`: to the left margin, `h` further down. */
  function AfterLn(d: Doc, h: real): Doc {
    d.(x := Margin, y := d.y + h)
  }

  /** A width of 0 stretches a cell to the right margin. */
  function CellWidth(d: Doc, w: real): real {
    if w == 0.0 then PageWidth - Margin - d.x else w
  }

  /** `cell(w, h, text, ln=newLine)`: a box at the cursor; then the cursor
      moves right past it, or to the start of the next line. */
  function AfterCell(d: Doc, w: real, h: real, text: string, newLine: bool): Doc {
    var cw := CellWidth(d, w);
    d.(marks := d.marks + [Box(d.x, d.y, cw, h, text)],
       x := if newLine then Margin else d.x + cw,
       y := if newLine then d.y + h else d.y)
  }

  /** `multi_cell(w, h, text)` wrapping into `lines` lines: the paragraph at
      the cursor, then the cursor at the left margin below it. */
  function AfterMultiCell(d: Doc, w: real, h: real, text: string, lines: nat): Doc {
    d.(marks := d.marks + [Para(d.x, d.y, CellWidth(d, w), h, lines, text)],
       x := Margin, y := d.y + lines as real * h)
  }

  /** `set_xy(x, y)`. */
  function AfterSetXY(d: Doc, x: real, y: real): Doc {
    d.(x := x, y := y)
  }

  /** `set_y(y)` for y >= 0: that height, at the left margin. */
  function AfterSetY(d: Doc, y: real): Doc {
    d.(x := Margin, y := y)
  }

  /** `set_x(x)` for x >= 0. */
  function AfterSetX(d: Doc, x: real): Doc {
    d.(x := x)
  }

  /** `add_page()`: a new page, the cursor at its top left margin. */
  function AfterAddPage(d: Doc): Doc {
    d.(marks := d.marks + [NewPage], page := d.page + 1, x := Margin, y := Margin)
  }

  /** `image(path, x, y, w)` with an explicit position: the cursor stays. */
  function AfterImage(d: Doc, x: real, y: real, w: real, path: string): Doc {
    d.(marks := d.marks + [Picture(x, y, w, path)])
  }

  /** `line(x1, y1, x2, y2)`: the cursor stays. */
  function AfterLine(d: Doc, x1: real, y1: real, x2: real, y2: real): Doc {
    d.(marks := d.marks + [Rule(x1, y1, x2, y2)])
  }
}
