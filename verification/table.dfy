/** The text table of modules/table.py: every column is as wide as the
    widest cell of the whole table, each cell is left-aligned and padded
    with spaces, and divider lines of dashes frame the head and the body. */
module TableLayout {
  import opened Wrappers

  datatype Table = Table(title: string, head: seq<string>, rows: seq<seq<string>>)

  /** `Table.__init__`: no title, no head, no rows. */
  const Blank := Table("", [], [])

  /** `add_row`: the new row goes last; the title, the head and the rows
      already there are untouched. */
  function AddRow(t: Table, row: seq<string>): (r: Table)
    ensures |r.rows| == |t.rows| + 1
    ensures r.rows[|t.rows|] == row
    ensures r.rows[..|t.rows|] == t.rows
    ensures r.title == t.title && r.head == t.head
  {
    t.(rows := t.rows + [row])
  }

  /** Every cell of `row` is at most `w` characters long. */
  predicate Fits(row: seq<string>, w: nat) {
    forall j :: 0 <= j < |row| ==> |row[j]| <= w
  }

  /** The length of the longest cell, as `len(sorted(cells, key=len)[-1])`;
      `None` where that indexing fails because there are no cells. */
  function Longest(cells: seq<string>): (r: Option<nat>)
    ensures r.None? <==> cells == []
    ensures r.Some? ==> Fits(cells, r.value)
    ensures r.Some? ==> exists j :: 0 <= j < |cells| && |cells[j]| == r.value
    decreases |cells|
  {
    if cells == [] then None
    else
      var init := cells[..|cells| - 1];
      var last := |cells[|cells| - 1]|;
      match Longest(init)
      case None => Some(last)
      case Some(m) =>
        assert forall j :: 0 <= j < |init| ==> init[j] == cells[j];
        Some(if m < last then last else m)
  }

  /** The widest cell over `m` and a list of cell lists; `None` when one of
      the lists is empty. */
  function WidestFrom(m: nat, lists: seq<seq<string>>): (r: Option<nat>)
    ensures r.None? <==> exists i :: 0 <= i < |lists| && lists[i] == []
    ensures r.Some? ==> m <= r.value
    ensures r.Some? ==> forall i :: 0 <= i < |lists| ==> Fits(lists[i], r.value)
    ensures r.Some? ==>
              || r.value == m
              || exists i, j :: 0 <= i < |lists| && 0 <= j < |lists[i]| && |lists[i][j]| == r.value
    decreases |lists|
  {
    if lists == [] then Some(m)
    else
      var init := lists[..|lists| - 1];
      assert forall i :: 0 <= i < |init| ==> init[i] == lists[i];
      match WidestFrom(m, init)
      case None => None
      case Some(k) =>
        match Longest(lists[|lists| - 1])
        case None => None
        case Some(l) => Some(if k < l then l else k)
  }

  /** `__find_widest_cell`, measured: the length of the longest cell of the
      head and all rows. `None` where the source raises IndexError, that is
      when the head is empty or some row is. */
  function WidestCell(t: Table): (r: Option<nat>)
    ensures r.None? <==> t.head == [] || exists i :: 0 <= i < |t.rows| && t.rows[i] == []
    ensures r.Some? ==> Fits(t.head, r.value)
    ensures r.Some? ==> forall i :: 0 <= i < |t.rows| ==> Fits(t.rows[i], r.value)
    ensures r.Some? ==>
              || (exists j :: 0 <= j < |t.head| && |t.head[j]| == r.value)
              || (exists i, j :: 0 <= i < |t.rows| && 0 <= j < |t.rows[i]| && |t.rows[i][j]| == r.value)
  {
    match Longest(t.head)
    case None => None
    case Some(h) => WidestFrom(h, t.rows)
  }

  /** `n` copies of the character `c`. */
  function Repeat(c: char, n: nat): (r: string)
    ensures |r| == n
    ensures forall i :: 0 <= i < n ==> r[i] == c
  {
    if n == 0 then "" else Repeat(c, n - 1) + [c]
  }

  /** `"{:<w}".format(cell)`: the cell, left-aligned, filled with spaces up
      to `w` characters; a longer cell is kept whole. */
  function Pad(cell: string, w: nat): (r: string)
    ensures |r| == if |cell| <= w then w else |cell|
    decreases w
  {
    if w <= |cell| then cell else Pad(cell, w - 1) + " "
  }

  /** A padded cell starts with the cell and continues with spaces only. */
  lemma {:induction false} PadContents(cell: string, w: nat)
    ensures Pad(cell, w)[..|cell|] == cell
    ensures forall i :: |cell| <= i < |Pad(cell, w)| ==> Pad(cell, w)[i] == ' '
    decreases w
  {
    if |cell| < w {
      PadContents(cell, w - 1);
      PrefixOfAppend(Pad(cell, w - 1), " ", |cell|);
    }
  }

  /** One cell's slot: a bar, a space, the padded cell and a space. */
  function Slot(cell: string, w: nat): string {
    "| " + Pad(cell, w) + " "
  }

  /** The first `n` cells of `row`, each in its slot. */
  function Cells(row: seq<string>, n: nat, w: nat): string
    requires n <= |row|
  {
    if n == 0 then "" else Cells(row, n - 1, w) + Slot(row[n - 1], w)
  }

  /** `__create_formatted_row`: the cells as `| c1 | c2 ... | cn |`, every
      cell padded to width `w`. A row without cells formats to the empty
      string. */
  function FormatRow(row: seq<string>, w: nat): (r: string)
    ensures row == [] <==> r == ""
  {
    if row == [] then "" else Cells(row, |row|, w) + "|"
  }

  /** Where the `k`-th cell's slot starts in a formatted row: each slot
      before it is `w + 3` characters wide. */
  function SlotStart(k: nat, w: nat): nat {
    if k == 0 then 0 else SlotStart(k - 1, w) + (w + 3)
  }

  lemma {:induction false} SlotStartIsProduct(k: nat, w: nat)
    ensures SlotStart(k, w) == k * (w + 3)
  {
    if k > 0 {
      SlotStartIsProduct(k - 1, w);
      assert k * (w + 3) == (k - 1) * (w + 3) + (w + 3);
    }
  }

  /** Each cell takes one slot when no cell is wider than `w`. */
  lemma {:induction false} CellsLength(row: seq<string>, n: nat, w: nat)
    requires n <= |row|
    requires Fits(row, w)
    ensures |Cells(row, n, w)| == SlotStart(n, w)
  {
    if n > 0 {
      CellsLength(row, n - 1, w);
      assert |row[n - 1]| <= w;
    }
  }

  /** A formatted row of `n` cells is `n * (w + 3) + 1` characters long. */
  lemma RowLength(row: seq<string>, w: nat)
    requires Fits(row, w)
    requires row != []
    ensures |FormatRow(row, w)| == |row| * (w + 3) + 1
    ensures FormatRow(row, w)[|row| * (w + 3)] == '|'
  {
    CellsLength(row, |row|, w);
    SlotStartIsProduct(|row|, w);
  }

  lemma PrefixOfAppend<T>(a: seq<T>, b: seq<T>, n: nat)
    requires n <= |a|
    ensures (a + b)[..n] == a[..n]
  {
  }

  /** A sequence that starts with `p + s` holds `s` right after `p`. */
  lemma MiddleOf<T>(a: seq<T>, p: seq<T>, s: seq<T>)
    requires |p + s| <= |a| && a[..|p + s|] == p + s
    ensures a[|p| .. |p| + |s|] == s
  {
    assert a[|p| .. |p| + |s|] == a[..|p + s|][|p|..];
  }

  lemma SliceAt<T>(a: seq<T>, s: seq<T>, lo: nat)
    requires lo + |s| <= |a| && a[lo .. lo + |s|] == s
    ensures forall m :: 0 <= m < |s| ==> a[lo + m] == s[m]
  {
    forall m | 0 <= m < |s|
      ensures a[lo + m] == s[m]
    {
      assert a[lo .. lo + |s|][m] == s[m];
    }
  }

  /** A prefix of `a` stays a prefix once something is appended to `a`. */
  lemma PrefixOfSnoc<T>(p: seq<T>, a: seq<T>, b: seq<T>, c: seq<T>)
    requires |p| <= |a| && a[..|p|] == p
    requires c == a + b
    ensures |p| <= |c| && c[..|p|] == p
  {
    assert c[..|p|] == a[..|p|];
  }

  /** The slots of fewer cells are a prefix of the slots of more cells. */
  lemma {:induction false} CellsPrefix(row: seq<string>, k: nat, n: nat, w: nat)
    requires k <= n <= |row|
    ensures |Cells(row, k, w)| <= |Cells(row, n, w)|
    ensures Cells(row, n, w)[..|Cells(row, k, w)|] == Cells(row, k, w)
    decreases n
  {
    if k < n {
      CellsPrefix(row, k, n - 1, w);
      PrefixOfSnoc(Cells(row, k, w), Cells(row, n - 1, w), Slot(row[n - 1], w), Cells(row, n, w));
    }
  }

  /** The `k`-th cell occupies its own slot of `w + 3` characters: a bar, a
      space, the cell padded to `w`, and a space. */
  lemma CellSlot(row: seq<string>, w: nat, k: nat)
    requires Fits(row, w)
    requires k < |row|
    ensures SlotStart(k + 1, w) < |FormatRow(row, w)|
    ensures FormatRow(row, w)[SlotStart(k, w) .. SlotStart(k + 1, w)] == Slot(row[k], w)
  {
    var before := Cells(row, k, w);
    var slot := Slot(row[k], w);
    var all := Cells(row, |row|, w);
    CellsLength(row, k, w);
    CellsLength(row, k + 1, w);
    CellsPrefix(row, k + 1, |row|, w);
    assert Cells(row, k + 1, w) == before + slot;
    PrefixOfAppend(all, "|", |before + slot|);
    MiddleOf(all + "|", before, slot);
  }

  /** Inside a slot the cell stands two characters in, followed only by
      spaces up to the slot's last character. */
  lemma SlotReadBack(line: string, lo: nat, cell: string, w: nat)
    requires |cell| <= w
    requires lo + (w + 3) <= |line|
    requires line[lo .. lo + (w + 3)] == Slot(cell, w)
    ensures line[lo + 2 .. lo + 2 + |cell|] == cell
    ensures forall i :: lo + 2 + |cell| <= i <= lo + 2 + w ==> line[i] == ' '
  {
    var slot := Slot(cell, w);
    var padded := Pad(cell, w);
    PadContents(cell, w);
    SliceAt(line, slot, lo);
    assert forall m :: 0 <= m < w ==> slot[2 + m] == padded[m];
    assert slot[w + 2] == ' ';
    forall m | 0 <= m < |cell|
      ensures line[lo + 2 .. lo + 2 + |cell|][m] == cell[m]
    {
      assert line[lo + 2 + m] == slot[2 + m];
      assert padded[..|cell|][m] == cell[m];
    }
    forall i | lo + 2 + |cell| <= i <= lo + 2 + w
      ensures line[i] == ' '
    {
      assert line[lo + (i - lo)] == slot[i - lo];
    }
  }

  /** Read back through the slots, a formatted row yields its cells: two
      characters into its slot stands the cell itself, followed only by
      spaces up to the slot's end. */
  lemma CellsReadBack(row: seq<string>, w: nat, k: nat)
    requires Fits(row, w)
    requires k < |row|
    ensures var line := FormatRow(row, w);
            var at := SlotStart(k, w) + 2;
            && at + w < |line|
            && line[at .. at + |row[k]|] == row[k]
            && (forall i :: at + |row[k]| <= i <= at + w ==> line[i] == ' ')
  {
    CellSlot(row, w, k);
    assert SlotStart(k + 1, w) == SlotStart(k, w) + (w + 3);
    SlotReadBack(FormatRow(row, w), SlotStart(k, w), row[k], w);
  }

  /** Lines joined with newlines. */
  function JoinLines(lines: seq<string>): string
    decreases |lines|
  {
    if lines == [] then ""
    else if |lines| == 1 then lines[0]
    else JoinLines(lines[..|lines| - 1]) + "\n" + lines[|lines| - 1]
  }

  /** Every row of `rows`, formatted at width `w`, in insertion order. */
  function RowLines(rows: seq<seq<string>>, w: nat): seq<string> {
    seq(|rows|, i requires 0 <= i < |rows| => FormatRow(rows[i], w))
  }

  /** The lines of a rendered table: the styled title, a divider, the head,
      a divider, one line per row in insertion order, and a closing
      divider. */
  function Lines(t: Table, style: string -> string, w: nat): seq<string> {
    var head := FormatRow(t.head, w);
    var line := Repeat('-', |head|);
    [style(t.title), line, head, line] + RowLines(t.rows, w) + [line]
  }

  lemma JoinSnoc(lines: seq<string>, x: string)
    requires lines != []
    ensures JoinLines(lines + [x]) == JoinLines(lines) + "\n" + x
  {
    assert (lines + [x])[..|lines|] == lines;
  }

  /** The four lines above the body, joined. */
  lemma JoinTop(a: string, b: string, c: string, d: string)
    ensures JoinLines([a, b, c, d]) == a + "\n" + b + "\n" + c + "\n" + d
  {
    assert JoinLines([a]) == a;
    JoinSnoc([a], b);
    assert [a] + [b] == [a, b];
    JoinSnoc([a, b], c);
    assert [a, b] + [c] == [a, b, c];
    JoinSnoc([a, b, c], d);
    assert [a, b, c] + [d] == [a, b, c, d];
  }

  lemma Regroup<T>(a: seq<T>, b: seq<T>, c: seq<T>, d: seq<T>)
    ensures a + (b + c + d) == (a + b) + c + d
  {
  }

  /** One more line below the first `k` ones. */
  lemma JoinNext(top: seq<string>, lines: seq<string>, k: nat, text: string, body: string)
    requires top != []
    requires k < |lines|
    requires text + body == JoinLines(top + lines[..k])
    ensures text + (body + "\n" + lines[k]) == JoinLines(top + lines[..k + 1])
  {
    assert top + lines[..k + 1] == (top + lines[..k]) + [lines[k]];
    JoinSnoc(top + lines[..k], lines[k]);
    Regroup(text, body, "\n", lines[k]);
  }

  /** The closing line goes below the others, and the whole is framed by
      newlines. */
  lemma JoinClose(top: seq<string>, lines: seq<string>, text: string, body: string, line: string)
    requires top != []
    requires text + body == JoinLines(top + lines)
    ensures "\n" + text + body + "\n" + line + "\n" == "\n" + JoinLines(top + lines + [line]) + "\n"
  {
    JoinSnoc(top + lines, line);
    Regroup("\n", text + body, "\n", line);
  }

  /** The divider: one dash per character of the head line. */
  method Divider(n: nat) returns (line: string)
    ensures |line| == n
    ensures forall i :: 0 <= i < n ==> line[i] == '-'
  {
    line := "";
    var i := 0;
    while i < n
      invariant 0 <= i <= n
      invariant line == Repeat('-', i)
    {
      line := line + "-";
      i := i + 1;
    }
  }

  /** The body: a newline and a formatted row for every row, appended to
      the joined lines `top` above it. */
  method RenderRows(rows: seq<seq<string>>, w: nat, top: seq<string>, head: string) returns (body: string)
    requires top != [] && head == JoinLines(top)
    ensures head + body == JoinLines(top + RowLines(rows, w))
  {
    var rowLines := RowLines(rows, w);
    body := "";
    var k := 0;
    assert top + rowLines[..0] == top;
    while k < |rows|
      invariant 0 <= k <= |rows|
      invariant head + body == JoinLines(top + rowLines[..k])
    {
      JoinNext(top, rowLines, k, head, body);
      body := body + "\n" + FormatRow(rows[k], w);
      k := k + 1;
    }
    assert rowLines[..k] == rowLines;
  }

  lemma LinesParts(t: Table, style: string -> string, w: nat, top: seq<string>, line: string)
    requires line == Repeat('-', |FormatRow(t.head, w)|)
    requires top == [style(t.title), line, FormatRow(t.head, w), line]
    ensures Lines(t, style, w) == top + RowLines(t.rows, w) + [line]
  {
  }

  /** The rendering at a known cell width. */
  method RenderAt(t: Table, style: string -> string, w: nat) returns (s: string)
    ensures s == "\n" + JoinLines(Lines(t, style, w)) + "\n"
  {
    var headString := FormatRow(t.head, w);
    var line := Divider(|headString|);
    assert line == Repeat('-', |headString|);
    var top := [style(t.title), line, headString, line];
    var head := style(t.title) + "\n" + line + "\n" + headString + "\n" + line;
    JoinTop(style(t.title), line, headString, line);
    var body := RenderRows(t.rows, w, top, head);
    JoinClose(top, RowLines(t.rows, w), head, body, line);
    LinesParts(t, style, w, top, line);
    s := "\n" + head + body + "\n" + line + "\n";
  }

  /** `render`, without printing: the string it prints is a newline, the
      lines of the table joined with newlines, and a final newline. `None`
      where finding the widest cell raises IndexError. */
  method Render(t: Table, style: string -> string) returns (r: Option<string>)
    ensures r.None? <==> WidestCell(t).None?
    ensures r.Some? ==> r.value == "\n" + JoinLines(Lines(t, style, WidestCell(t).value)) + "\n"
  {
    var width := WidestCell(t);
    if width.None? {
      return None;
    }
    var s := RenderAt(t, style, width.value);
    r := Some(s);
  }

  /** A body line is as long as the head line when its row has as many
      cells as the head. */
  lemma RowLineWidth(t: Table, w: nat, i: nat)
    requires t.head != [] && Fits(t.head, w)
    requires i < |t.rows| && Fits(t.rows[i], w) && |t.rows[i]| == |t.head|
    ensures |RowLines(t.rows, w)[i]| == |FormatRow(t.head, w)|
  {
    CellsLength(t.head, |t.head|, w);
    CellsLength(t.rows[i], |t.rows[i]|, w);
  }

  /** Every line below the title of a table whose rows have as many cells
      as its head is exactly as long as the divider, which is all dashes,
      at the widest cell's width or at any width no cell exceeds. */
  lemma AlignedLines(t: Table, style: string -> string, w: nat)
    requires t.head != [] && Fits(t.head, w)
    requires forall i :: 0 <= i < |t.rows| ==> Fits(t.rows[i], w) && |t.rows[i]| == |t.head|
    ensures var lines := Lines(t, style, w);
            && |lines| == |t.rows| + 5
            && (forall i :: 1 <= i < |lines| ==> |lines[i]| == |lines[1]|)
            && (forall i :: 0 <= i < |lines[1]| ==> lines[1][i] == '-')
  {
    var head := FormatRow(t.head, w);
    var line := Repeat('-', |head|);
    var rowLines := RowLines(t.rows, w);
    var lines := [style(t.title), line, head, line] + rowLines + [line];
    assert lines == Lines(t, style, w);
    forall i | 4 <= i < |lines| - 1
      ensures |lines[i]| == |head|
    {
      assert lines[i] == rowLines[i - 4];
      RowLineWidth(t, w, i - 4);
    }
  }
}
