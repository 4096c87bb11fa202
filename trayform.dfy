/**
 * The main window: the list of tray icons, its refresh (LoadTrayItems) with
 * selection kept across the refresh by key, the column auto-sizing, and the
 * Show and Hide buttons acting on the selected row.
 */
module TrayForm {
  import opened Wrappers
  import opened Native
  import opened Geometry
  import opened Locator
  import opened Enumeration
  import opened Display
  import opened Composite
  import opened ListView

  /** The padding LoadTrayItems asks AutoSizeColumnsToContent for. */
  const CellPadding: int := 12

  /** The gap between the two halves of a row's picture. */
  const PictureGap: int := 2

  /** The keys of the selected rows, collected in row order. */
  function SelectedKeys(items: seq<ListItem>): set<string>
  {
    if |items| == 0 then {}
    else
      var last := items[|items| - 1];
      SelectedKeys(items[..|items| - 1]) + (if last.selected then {Key(last.tag)} else {})
  }

  /** Every selected row's key is collected. */
  lemma {:induction false} SelectedRowKeyCollected(items: seq<ListItem>, j: int)
    requires 0 <= j < |items| && items[j].selected
    ensures Key(items[j].tag) in SelectedKeys(items)
  {
    var init := items[..|items| - 1];
    if j < |init| {
      assert items[j] == init[j];
      SelectedRowKeyCollected(init, j);
    }
  }

  /** Only keys of selected rows are collected. */
  lemma {:induction false} CollectedKeyHasRow(items: seq<ListItem>, k: string) returns (j: int)
    requires k in SelectedKeys(items)
    ensures 0 <= j < |items| && items[j].selected && Key(items[j].tag) == k
  {
    var init := items[..|items| - 1];
    if k in SelectedKeys(init) {
      j := CollectedKeyHasRow(init, k);
      assert items[j] == init[j];
    } else {
      j := |items| - 1;
    }
  }

  /** A key was collected exactly when some selected row carries it. */
  lemma SelectedKeysExact(items: seq<ListItem>, k: string)
    ensures k in SelectedKeys(items) <==> exists j :: 0 <= j < |items| && items[j].selected && Key(items[j].tag) == k
  {
    if k in SelectedKeys(items) {
      var j := CollectedKeyHasRow(items, k);
    }
    forall j | 0 <= j < |items| && items[j].selected && Key(items[j].tag) == k
      ensures k in SelectedKeys(items)
    {
      SelectedRowKeyCollected(items, j);
    }
  }

  /** The row LoadTrayItems adds for the k-th record, selected exactly when its key was selected before. */
  function Row(info: TrayIconInfo, k: int, keys: set<string>): ListItem
  {
    ListItem(SubItems(info), k, info, Key(info) in keys)
  }

  function Rows(infos: seq<TrayIconInfo>, keys: set<string>): (rows: seq<ListItem>)
    ensures |rows| == |infos|
  {
    seq(|infos|, k requires 0 <= k < |infos| => Row(infos[k], k, keys))
  }

  /** The picture of a row: the application icon left, the tray icon right, on a transparent canvas. */
  function RowPicture(info: TrayIconInfo, w: Pos, h: Pos): Image
  {
    ComposeSideBySide(info.appIcon, info.trayIcon, w, h, PictureGap, Transparent)
  }

  function Pictures(infos: seq<TrayIconInfo>, w: Pos, h: Pos): (pics: seq<Image>)
    ensures |pics| == |infos|
  {
    seq(|infos|, k requires 0 <= k < |infos| => RowPicture(infos[k], w, h))
  }

  /**
   * After a refresh, row k shows record k, points at picture k (the picture
   * composed from its own icons), has the three sub-items, and is selected
   * exactly when a row with the same area and command id was selected before.
   */
  lemma RefreshedRows(infos: seq<TrayIconInfo>, before: seq<ListItem>, w: Pos, h: Pos)
    ensures var rows := Rows(infos, SelectedKeys(before));
      var pics := Pictures(infos, w, h);
      forall k :: 0 <= k < |rows| ==>
        && rows[k].tag == infos[k]
        && 0 <= rows[k].imageIndex < |pics| && pics[rows[k].imageIndex] == RowPicture(infos[k], w, h)
        && rows[k].subItems == SubItems(infos[k])
        && (rows[k].selected <==>
              exists j :: 0 <= j < |before| && before[j].selected
                          && before[j].tag.area == infos[k].area && before[j].tag.idCommand == infos[k].idCommand)
  {
    var keys := SelectedKeys(before);
    var rows := Rows(infos, keys);
    forall k | 0 <= k < |rows|
      ensures rows[k].selected <==>
        exists j :: 0 <= j < |before| && before[j].selected
                    && before[j].tag.area == infos[k].area && before[j].tag.idCommand == infos[k].idCommand
    {
      SelectedKeysExact(before, Key(infos[k]));
      forall j | 0 <= j < |before| ensures Key(before[j].tag) == Key(infos[k]) <==>
        before[j].tag.area == infos[k].area && before[j].tag.idCommand == infos[k].idCommand
      {
        KeyIdentifiesButton(before[j].tag, infos[k]);
      }
    }
  }

  /** The index of the first selected row, or -1. */
  function FirstSelected(items: seq<ListItem>): (i: int)
    ensures -1 <= i < |items|
    ensures i >= 0 ==> items[i].selected && forall j :: 0 <= j < i ==> !items[j].selected
    ensures i == -1 <==> forall j :: 0 <= j < |items| ==> !items[j].selected
  {
    if |items| == 0 then -1
    else if items[0].selected then 0
    else var r := FirstSelected(items[1..]); if r == -1 then -1 else r + 1
  }

  class Form1 {
    var items: seq<ListItem>
    var images: seq<Image>
    var columns: seq<Column>
    /** Whether the list has an image list (SmallImageList is not null), and its image size. */
    const hasImageList: bool
    const imageW: Pos
    const imageH: Pos
    /** The width of the list's client area. */
    const clientWidth: int
    /** TextRenderer.MeasureText(text, font).Width for the list's font. */
    const measure: string -> int

    constructor (hasImageList: bool, imageW: Pos, imageH: Pos, columns: seq<Column>, clientWidth: int,
                 measure: string -> int)
      ensures this.hasImageList == hasImageList && this.imageW == imageW && this.imageH == imageH
      ensures this.columns == columns && this.clientWidth == clientWidth && this.measure == measure
      ensures items == [] && images == []
    {
      this.hasImageList := hasImageList;
      this.imageW := imageW;
      this.imageH := imageH;
      this.columns := columns;
      this.clientWidth := clientWidth;
      this.measure := measure;
      items := [];
      images := [];
    }

    /** The image width AutoSizeColumnsToContent allows for in column 0. */
    function ImageWidth(): int
      reads this
    {
      if hasImageList then imageW else 0
    }

    /** GetSelected: the record of the first selected row, if any row is selected. */
    function GetSelected(): (r: Option<TrayIconInfo>)
      reads this
      ensures r.None? <==> forall j :: 0 <= j < |items| ==> !items[j].selected
      ensures r.Some? ==> exists i :: 0 <= i < |items| && items[i].selected && items[i].tag == r.value
                                      && forall j :: 0 <= j < i ==> !items[j].selected
    {
      var i := FirstSelected(items);
      if i < 0 then None else Some(items[i].tag)
    }

    /** The first loop of LoadTrayItems: the keys of the selected rows. */
    method CollectSelectedKeys() returns (keys: set<string>)
      ensures keys == SelectedKeys(items)
    {
      keys := {};
      for i := 0 to |items|
        invariant keys == SelectedKeys(items[..i])
      {
        assert items[..i + 1][..i] == items[..i];
        if items[i].selected {
          keys := keys + {Key(items[i].tag)};
        }
      }
      assert items[..|items|] == items;
    }

    /** The second loop of LoadTrayItems: one picture and one row per record, the row pointing at its picture. */
    method AddRows(infos: seq<TrayIconInfo>)
      requires items == [] && images == []
      modifies this`items, this`images
      ensures items == Rows(infos, {}) && images == Pictures(infos, imageW, imageH)
    {
      for k := 0 to |infos|
        invariant items == Rows(infos[..k], {}) && images == Pictures(infos[..k], imageW, imageH)
      {
        var info := infos[k];
        images := images + [ComposeSideBySide(info.appIcon, info.trayIcon, imageW, imageH, PictureGap, Transparent)];
        var imgIndex := |images| - 1;
        var subItems := [DisplayName(info)];
        while |subItems| < 3
          invariant 1 <= |subItems| <= 3 && subItems[0] == DisplayName(info)
        {
          subItems := subItems + [""];
        }
        subItems := subItems[1 := info.text];
        subItems := subItems[2 := if info.appPath.Some? then info.appPath.value else ""];
        items := items + [ListItem(subItems, imgIndex, info, false)];
        assert subItems == SubItems(info) && imgIndex == k;
        assert infos[..k + 1] == infos[..k] + [info];
        assert items == Rows(infos[..k + 1], {});
        assert images == Pictures(infos[..k + 1], imageW, imageH);
      }
      assert infos[..|infos|] == infos;
    }

    /** The third loop of LoadTrayItems: select every row whose key was selected. */
    method RestoreSelection(keys: set<string>)
      requires forall k :: 0 <= k < |items| ==> !items[k].selected
      modifies this`items
      ensures |items| == |old(items)|
      ensures forall k :: 0 <= k < |items| ==> items[k] == old(items[k]).(selected := Key(old(items[k]).tag) in keys)
    {
      for i := 0 to |items|
        invariant |items| == |old(items)|
        invariant forall k :: 0 <= k < i ==> items[k] == old(items[k]).(selected := Key(old(items[k]).tag) in keys)
        invariant forall k :: i <= k < |items| ==> items[k] == old(items[k])
      {
        if Key(items[i].tag) in keys {
          items := items[i := items[i].(selected := true)];
        }
      }
    }

    /** Step 1 of AutoSizeColumnsToContent: every column starts at its header width. */
    method HeaderWidths(padding: int) returns (preferred: array<int>)
      ensures fresh(preferred) && preferred.Length == |columns|
      ensures forall c :: 0 <= c < |columns| ==>
        preferred[c] == PreferredWidth(measure, columns[c].text, items, 0, c, padding, ImageWidth())
    {
      preferred := new int[|columns|];
      for i := 0 to |columns|
        invariant forall c :: 0 <= c < i ==>
          preferred[c] == PreferredWidth(measure, columns[c].text, items, 0, c, padding, ImageWidth())
      {
        var headerW := measure(columns[i].text) + padding;
        preferred[i] := Max(40, headerW);
      }
    }

    /** One row of step 2: each column grows to the row's cell width if that is larger. */
    method MeasureRow(preferred: array<int>, j: nat, padding: int)
      requires j < |items| && preferred.Length == |columns|
      requires forall c :: 0 <= c < |columns| ==>
        preferred[c] == PreferredWidth(measure, columns[c].text, items, j, c, padding, ImageWidth())
      modifies preferred
      ensures forall c :: 0 <= c < |columns| ==>
        preferred[c] == PreferredWidth(measure, columns[c].text, items, j + 1, c, padding, ImageWidth())
    {
      var imgW := if hasImageList then imageW else 0;
      var imgGap := if imgW > 0 then 6 else 0;
      var item := items[j];
      for col := 0 to preferred.Length
        invariant forall c :: 0 <= c < col ==>
          preferred[c] == PreferredWidth(measure, columns[c].text, items, j + 1, c, padding, imgW)
        invariant forall c :: col <= c < |columns| ==>
          preferred[c] == PreferredWidth(measure, columns[c].text, items, j, c, padding, imgW)
      {
        var text := if col < |item.subItems| then item.subItems[col] else "";
        var textW := measure(text) + padding;
        if col == 0 {
          textW := textW + imgW + imgGap;
        }
        if textW > preferred[col] {
          preferred[col] := textW;
        }
      }
    }

    /** Step 3 of AutoSizeColumnsToContent: the columns take the preferred widths, which are summed. */
    method ApplyWidths(preferred: array<int>) returns (total: int)
      requires preferred.Length == |columns|
      modifies this`columns
      ensures columns == WithWidths(old(columns), preferred[..]) && total == Sum(preferred[..])
    {
      ghost var cols0 := columns;
      var n := preferred.Length;
      total := 0;
      for i := 0 to n
        invariant |columns| == n && total == Sum(preferred[..i])
        invariant forall c :: 0 <= c < i ==> columns[c] == cols0[c].(width := preferred[c])
        invariant forall c :: i <= c < n ==> columns[c] == cols0[c]
      {
        columns := columns[i := columns[i].(width := preferred[i])];
        total := total + preferred[i];
        assert preferred[..i + 1][..i] == preferred[..i];
      }
      assert preferred[..n] == preferred[..];
    }

    /** Steps 1 and 2 of AutoSizeColumnsToContent: header widths, then every row's cells. */
    method MeasureColumns(padding: int) returns (preferred: array<int>)
      ensures fresh(preferred)
      ensures preferred[..] == PreferredWidths(measure, columns, items, padding, ImageWidth())
    {
      preferred := HeaderWidths(padding);
      for j := 0 to |items|
        invariant forall c :: 0 <= c < |columns| ==>
          preferred[c] == PreferredWidth(measure, columns[c].text, items, j, c, padding, ImageWidth())
      {
        MeasureRow(preferred, j, padding);
      }
    }

    /** AutoSizeColumnsToContent: the widths of FinalWidths, the captions unchanged. */
    method AutoSizeColumnsToContent(fillLastToControl: bool, padding: int)
      modifies this`columns
      ensures columns == WithWidths(old(columns),
                                    FinalWidths(measure, old(columns), items, padding, ImageWidth(), fillLastToControl, clientWidth))
    {
      var n := |columns|;
      if n == 0 {
        return;
      }
      ghost var cols0 := columns;
      ghost var w := FinalWidths(measure, cols0, items, padding, ImageWidth(), fillLastToControl, clientWidth);
      var preferred := MeasureColumns(padding);
      ghost var p := preferred[..];
      var total := ApplyWidths(preferred);
      if fillLastToControl {
        var target := clientWidth;
        if target > total && n > 0 {
          columns := columns[n - 1 := columns[n - 1].(width := columns[n - 1].width + (target - total))];
          assert w == p[n - 1 := p[n - 1] + (target - total)];
        }
      }
    }

    /**
     * LoadTrayItems: the rows and pictures are rebuilt from a fresh enumeration
     * at the image size, the previously selected keys are selected again, and
     * the columns are sized to the new content.
     */
    method LoadTrayItems(os: Os)
      requires hasImageList
      modifies this, os`held
      ensures var infos := TrayIcons(os.shell, imageW, imageH);
        && items == Rows(infos, SelectedKeys(old(items)))
        && images == Pictures(infos, imageW, imageH)
        && columns == WithWidths(old(columns),
                                 FinalWidths(measure, old(columns), items, CellPadding, imageW, true, clientWidth))
      ensures os.held == old(os.held)
    {
      var selectedKeys := CollectSelectedKeys();
      items := [];
      images := [];
      var w := imageW;
      var h := imageH;
      var list := ListTrayIcons(os, w, h);
      var infos := list.items;
      AddRows(infos);
      RestoreSelection(selectedKeys);
      assert items == Rows(infos, selectedKeys);
      AutoSizeColumnsToContent(true, CellPadding);
    }

    /**
     * ShowBtn_Click (hidden false) and HideBtn_Click (hidden true): nothing
     * without a selection; otherwise the selected record's button is shown or
     * hidden, and the list is reloaded only when that succeeded.
     */
    method ShowOrHideSelected(os: Os, hidden: bool)
      requires hasImageList
      modifies this, os`shell, os`sent, os`held
      ensures os.held == old(os.held)
      ensures old(GetSelected()).None? ==>
        && items == old(items) && images == old(images) && columns == old(columns)
        && os.shell == old(os.shell) && os.sent == old(os.sent)
      ensures old(GetSelected()).Some? ==>
        var info := old(GetSelected()).value;
        var r := SetHidden(old(os.shell), GetToolbar(old(os.shell), info.area), info.idCommand, hidden);
        && (r.sent.None? ==> os.shell == old(os.shell) && os.sent == old(os.sent))
        && (r.sent.Some? ==> os.shell == os.react(old(os.shell), r.sent.value) && os.sent == old(os.sent) + [r.sent.value])
        && (r.ok ==> && items == Rows(TrayIcons(os.shell, imageW, imageH), SelectedKeys(old(items)))
                     && images == Pictures(TrayIcons(os.shell, imageW, imageH), imageW, imageH)
                     && columns == WithWidths(old(columns),
                                              FinalWidths(measure, old(columns), items, CellPadding, imageW, true, clientWidth)))
        && (!r.ok ==> items == old(items) && images == old(images) && columns == old(columns))
    {
      var info := GetSelected();
      if info.None? {
        return;
      }
      var ok := HideOrShowIcon(os, info.value.idCommand, info.value.area, hidden);
      if ok {
        LoadTrayItems(os);
      }
    }
  }

  /**
   * After a successful Show or Hide the list is rebuilt, and the row of the
   * button acted on, if the new list still has it, is selected again.
   */
  lemma ActedOnRowStaysSelected(before: seq<ListItem>, infos: seq<TrayIconInfo>, k: int)
    requires FirstSelected(before) >= 0 && 0 <= k < |infos|
    requires infos[k].area == before[FirstSelected(before)].tag.area
    requires infos[k].idCommand == before[FirstSelected(before)].tag.idCommand
    ensures Rows(infos, SelectedKeys(before))[k].selected
  {
    var i := FirstSelected(before);
    KeyIdentifiesButton(before[i].tag, infos[k]);
    SelectedKeysExact(before, Key(infos[k]));
  }
}
