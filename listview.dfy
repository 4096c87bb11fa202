/**
 * The list control's rows and columns, and the column widths that
 * AutoSizeColumnsToContent computes from the measured text widths.
 * Text measurement (TextRenderer.MeasureText with the list's font) is an
 * abstract function from a string to a width.
 */
module ListView {
  import opened Enumeration
  import opened Geometry

  /** A column header: its caption and its width in pixels. */
  datatype Column = Column(text: string, width: int)

  /**
   * A row: its sub-items (sub-item 0 is the row's own text), the index of its
   * picture in the image list, the record it stands for, and whether it is selected.
   */
  datatype ListItem = ListItem(subItems: seq<string>, imageIndex: int, tag: TrayIconInfo, selected: bool)

  /** The text of a row in column `col`: the row's text in column 0, "" past its last sub-item. */
  function CellText(item: ListItem, col: nat): string
  {
    if col < |item.subItems| then item.subItems[col] else ""
  }

  /** A header's width: the measured caption plus padding, but never below 40. */
  function HeaderWidth(measure: string -> int, header: string, padding: int): int
  {
    Max(40, measure(header) + padding)
  }

  /** The room column 0 leaves for the row's picture: its width and a 6-pixel gap, or nothing. */
  function ImageAllowance(imgW: int): int
  {
    if imgW > 0 then imgW + 6 else imgW
  }

  /** The width a cell asks for. */
  function CellWidth(measure: string -> int, item: ListItem, col: nat, padding: int, imgW: int): int
  {
    measure(CellText(item, col)) + padding + (if col == 0 then ImageAllowance(imgW) else 0)
  }

  /** The preferred width of column `col` once the first `n` rows are measured. */
  function PreferredWidth(measure: string -> int, header: string, items: seq<ListItem>, n: nat, col: nat,
                          padding: int, imgW: int): int
    requires n <= |items|
  {
    if n == 0 then HeaderWidth(measure, header, padding)
    else
      var p := PreferredWidth(measure, header, items, n - 1, col, padding, imgW);
      var w := CellWidth(measure, items[n - 1], col, padding, imgW);
      if w > p then w else p
  }

  /** The content-fitting width of a column: the widest of its header and its cells. */
  lemma {:induction false} PreferredWidthIsWidest(measure: string -> int, header: string, items: seq<ListItem>, n: nat,
                                                  col: nat, padding: int, imgW: int)
    requires n <= |items|
    ensures var p := PreferredWidth(measure, header, items, n, col, padding, imgW);
      && p >= HeaderWidth(measure, header, padding) && p >= 40
      && (forall j :: 0 <= j < n ==> p >= CellWidth(measure, items[j], col, padding, imgW))
      && (p == HeaderWidth(measure, header, padding)
          || exists j :: 0 <= j < n && p == CellWidth(measure, items[j], col, padding, imgW))
  {
    if n > 0 {
      PreferredWidthIsWidest(measure, header, items, n - 1, col, padding, imgW);
    }
  }

  function Sum(ws: seq<int>): int
  {
    if |ws| == 0 then 0 else Sum(ws[..|ws| - 1]) + ws[|ws| - 1]
  }

  /** Widening the last width by d widens the total by d. */
  lemma WidenLast(ws: seq<int>, d: int)
    requires |ws| > 0
    ensures Sum(ws[|ws| - 1 := ws[|ws| - 1] + d]) == Sum(ws) + d
  {
    var v := ws[|ws| - 1 := ws[|ws| - 1] + d];
    assert v[..|v| - 1] == ws[..|ws| - 1];
  }

  /** The preferred widths of all columns, in column order. */
  function PreferredWidths(measure: string -> int, columns: seq<Column>, items: seq<ListItem>,
                           padding: int, imgW: int): (p: seq<int>)
    ensures |p| == |columns|
  {
    seq(|columns|, c requires 0 <= c < |columns| => PreferredWidth(measure, columns[c].text, items, |items|, c, padding, imgW))
  }

  /** The widths AutoSizeColumnsToContent gives the columns. */
  function FinalWidths(measure: string -> int, columns: seq<Column>, items: seq<ListItem>, padding: int, imgW: int,
                       fillLast: bool, clientWidth: int): (w: seq<int>)
    ensures |w| == |columns|
  {
    var p := PreferredWidths(measure, columns, items, padding, imgW);
    var total := Sum(p);
    if fillLast && clientWidth > total && |p| > 0 then p[|p| - 1 := p[|p| - 1] + (clientWidth - total)]
    else p
  }

  /** The columns with their widths replaced. */
  function WithWidths(columns: seq<Column>, ws: seq<int>): (r: seq<Column>)
    requires |ws| == |columns|
    ensures |r| == |columns|
  {
    seq(|columns|, i requires 0 <= i < |columns| => columns[i].(width := ws[i]))
  }

  /**
   * Every column is at least 40 wide, at least as wide as its header and
   * every cell in it ask for, and (the last column aside, when it is
   * stretched) exactly as wide as the widest of them; when stretching is
   * asked for and the columns fall short of the client width, the last one
   * is widened by exactly the shortfall, so that the columns fill it.
   */
  lemma AutoSizeWidths(measure: string -> int, columns: seq<Column>, items: seq<ListItem>, padding: int, imgW: int,
                       fillLast: bool, clientWidth: int)
    ensures var w := FinalWidths(measure, columns, items, padding, imgW, fillLast, clientWidth);
      var p := PreferredWidths(measure, columns, items, padding, imgW);
      && (forall c :: 0 <= c < |w| ==>
            && w[c] >= 40 && w[c] >= HeaderWidth(measure, columns[c].text, padding)
            && forall j :: 0 <= j < |items| ==> w[c] >= CellWidth(measure, items[j], c, padding, imgW))
      && (forall c :: 0 <= c < |p| ==>
            p[c] == HeaderWidth(measure, columns[c].text, padding)
            || exists j :: 0 <= j < |items| && p[c] == CellWidth(measure, items[j], c, padding, imgW))
      && (if fillLast && |columns| > 0 && clientWidth > Sum(p)
          then Sum(w) == clientWidth && w[..|w| - 1] == p[..|p| - 1] && w[|w| - 1] == p[|p| - 1] + (clientWidth - Sum(p))
          else w == p)
  {
    var p := PreferredWidths(measure, columns, items, padding, imgW);
    forall c | 0 <= c < |columns|
      ensures var q := p[c];
        && q >= HeaderWidth(measure, columns[c].text, padding) && q >= 40
        && (forall j :: 0 <= j < |items| ==> q >= CellWidth(measure, items[j], c, padding, imgW))
        && (q == HeaderWidth(measure, columns[c].text, padding)
            || exists j :: 0 <= j < |items| && q == CellWidth(measure, items[j], c, padding, imgW))
    {
      PreferredWidthIsWidest(measure, columns[c].text, items, |items|, c, padding, imgW);
    }
    if fillLast && |columns| > 0 && clientWidth > Sum(p) {
      WidenLast(p, clientWidth - Sum(p));
    }
  }
}
