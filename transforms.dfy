/**
  The three small helpers the slide mapper calls on a block's content:
  `normalize_bullets` (list lines to bullet texts), `parse_table_lines`
  (table lines to rows of cells, separator rows dropped) and `to_abs_path`
  (an image path resolved against the document's directory).
  Each list transform is a function that states the result and a method with
  the source's accumulating loop, proved to compute it.
 */
module Transforms {
  import opened Wrappers
  import opened Text
  import opened Patterns

  /**
    The indices of the elements of `xs` that `keep` accepts, in increasing
    order: the positions a filtering loop over `xs` appends for.
   */
  function Kept<T>(xs: seq<T>, keep: T -> bool): (idx: seq<nat>)
    ensures |idx| <= |xs|
    ensures forall j | 0 <= j < |idx| :: idx[j] < |xs| && keep(xs[idx[j]])
    ensures forall j, j' | 0 <= j < j' < |idx| :: idx[j] < idx[j']
    ensures forall i | 0 <= i < |xs| && keep(xs[i]) :: i in idx
  {
    if xs == [] then []
    else
      var n := |xs| - 1;
      var front := Kept(xs[..n], keep);
      assert forall j | 0 <= j < |front| :: xs[..n][front[j]] == xs[front[j]];
      front + (if keep(xs[n]) then [n] else [])
  }

  // ---------------------------------------------------------------------------
  // normalize_bullets
  // ---------------------------------------------------------------------------

  /** What `normalize_bullets` makes of one line: its item text if it is a list item, else nothing. */
  function BulletOf(line: string): seq<string> {
    if IsListLine(line) then [ListItemText(Strip(line))] else []
  }

  /**
    `normalize_bullets(lines)`: the stripped item text of every line that is
    a list item once trimmed, in order; other lines are dropped.
   */
  function Bullets(lines: seq<string>): (out: seq<string>)
    ensures |out| <= |lines|
    ensures forall j | 0 <= j < |out| :: IsStripped(out[j])
  {
    if lines == [] then [] else Bullets(lines[..|lines| - 1]) + BulletOf(lines[|lines| - 1])
  }

  /**
    The bullets are exactly the item texts of the list lines, one for each,
    in the order of the lines.
   */
  lemma {:induction false} BulletsAreKeptItems(lines: seq<string>)
    ensures var idx := Kept(lines, IsListLine);
      && |Bullets(lines)| == |idx|
      && forall j | 0 <= j < |idx| :: Bullets(lines)[j] == ListItemText(Strip(lines[idx[j]]))
  {
    if lines != [] {
      var n := |lines| - 1;
      BulletsAreKeptItems(lines[..n]);
      var front, idx := Kept(lines[..n], IsListLine), Kept(lines, IsListLine);
      assert idx == front + if IsListLine(lines[n]) then [n] else [];
      var out := Bullets(lines);
      assert out == Bullets(lines[..n]) + BulletOf(lines[n]);
      forall j | 0 <= j < |idx|
        ensures out[j] == ListItemText(Strip(lines[idx[j]]))
      {
        if j < |front| {
          assert lines[..n][front[j]] == lines[front[j]];
        }
      }
    }
  }

  /** When every line is a list item, none is dropped. */
  lemma {:induction false} AllListLinesKept(lines: seq<string>)
    requires forall i | 0 <= i < |lines| :: IsListLine(lines[i])
    ensures |Bullets(lines)| == |lines|
  {
    if lines != [] {
      AllListLinesKept(lines[..|lines| - 1]);
    }
  }

  /** `normalize_bullets` as the source writes it: a loop that appends to `out`. */
  method NormalizeBullets(lines: seq<string>) returns (out: seq<string>)
    ensures out == Bullets(lines)
  {
    out := [];
    for i := 0 to |lines|
      invariant out == Bullets(lines[..i])
    {
      assert lines[..i + 1][..i] == lines[..i];
      if IsListLine(lines[i]) {
        out := out + [ListItemText(Strip(lines[i]))];
      }
    }
    assert lines[..|lines|] == lines;
  }

  // ---------------------------------------------------------------------------
  // parse_table_lines
  // ---------------------------------------------------------------------------

  /** `[c.strip() for c in parts]` */
  function StripAll(parts: seq<string>): (r: seq<string>)
    ensures |r| == |parts|
    ensures forall k | 0 <= k < |r| :: r[k] == Strip(parts[k]) && IsStripped(r[k])
  {
    seq(|parts|, k requires 0 <= k < |parts| => Strip(parts[k]))
  }

  /** The cells of a table row: its body split at every `|`, each piece stripped. */
  function Cells(line: string): (cells: seq<string>)
    requires IsTableRow(line)
    ensures |cells| == Count(TableRowBody(line), '|') + 1
    ensures forall k | 0 <= k < |cells| :: IsStripped(cells[k])
  {
    StripAll(Split(TableRowBody(line), '|'))
  }

  /** A character allowed in a separator row: `-`, `:` or a space. */
  predicate IsRuleChar(c: char) {
    c == '-' || c == ':' || c == ' '
  }

  /** `all(set(c) <= set("-: ") for c in cells)`: every cell is made of `-`, `:` and spaces only (an empty cell too). */
  predicate IsSeparatorRow(cells: seq<string>) {
    forall k | 0 <= k < |cells| :: forall i | 0 <= i < |cells[k]| :: IsRuleChar(cells[k][i])
  }

  /** A line `parse_table_lines` turns into a row: it matches `TABLE_ROW_RE` and is not a separator row. */
  predicate IsKeptRow(line: string) {
    IsTableRow(line) && !IsSeparatorRow(Cells(line))
  }

  /** What `parse_table_lines` makes of one line: its cells, or nothing. */
  function RowOf(line: string): seq<seq<string>> {
    if IsKeptRow(line) then [Cells(line)] else []
  }

  /**
    `parse_table_lines(lines)`: the cells of every line that matches the row
    pattern and is not a separator row, in order.
   */
  function Rows(lines: seq<string>): (rows: seq<seq<string>>)
    ensures |rows| <= |lines|
  {
    if lines == [] then [] else Rows(lines[..|lines| - 1]) + RowOf(lines[|lines| - 1])
  }

  /** No row is a separator row, and every cell is stripped. */
  lemma {:induction false} RowsClean(lines: seq<string>)
    ensures var rows := Rows(lines);
      && (forall j | 0 <= j < |rows| :: !IsSeparatorRow(rows[j]))
      && (forall j, k | 0 <= j < |rows| && 0 <= k < |rows[j]| :: IsStripped(rows[j][k]))
  {
    if lines != [] {
      var n := |lines| - 1;
      RowsClean(lines[..n]);
      assert Rows(lines) == Rows(lines[..n]) + RowOf(lines[n]);
    }
  }

  /**
    The rows are exactly the cells of the kept lines, one row for each, in
    the order of the lines.
   */
  lemma {:induction false} RowsAreKeptCells(lines: seq<string>)
    ensures var idx := Kept(lines, IsKeptRow);
      && |Rows(lines)| == |idx|
      && forall j | 0 <= j < |idx| :: Rows(lines)[j] == Cells(lines[idx[j]])
  {
    if lines != [] {
      var n := |lines| - 1;
      RowsAreKeptCells(lines[..n]);
      var front, idx := Kept(lines[..n], IsKeptRow), Kept(lines, IsKeptRow);
      assert idx == front + if IsKeptRow(lines[n]) then [n] else [];
      var rows := Rows(lines);
      assert rows == Rows(lines[..n]) + RowOf(lines[n]);
      forall j | 0 <= j < |idx|
        ensures rows[j] == Cells(lines[idx[j]])
      {
        if j < |front| {
          assert lines[..n][front[j]] == lines[front[j]];
        }
      }
    }
  }

  /** Every row has one cell more than the `|` inside its line's body. */
  lemma RowWidths(lines: seq<string>)
    ensures var idx := Kept(lines, IsKeptRow);
      && |Rows(lines)| == |idx|
      && forall j | 0 <= j < |idx| :: |Rows(lines)[j]| == Count(TableRowBody(lines[idx[j]]), '|') + 1
  {
    RowsAreKeptCells(lines);
  }

  /** Lines that do not match the row pattern contribute nothing, wherever they stand. */
  lemma {:induction false} NonRowsSkipped(lines: seq<string>)
    requires forall i | 0 <= i < |lines| :: !IsTableRow(lines[i])
    ensures Rows(lines) == []
  {
    if lines != [] {
      NonRowsSkipped(lines[..|lines| - 1]);
    }
  }

  /** A stripped string is its own strip. */
  lemma StripStripped(s: string)
    requires IsStripped(s)
    ensures Strip(s) == s
  {
  }

  /** When no piece of a row's body has whitespace at its ends, joining the cells with `|` gives the body back. */
  lemma CellsRestoreBody(line: string)
    requires IsTableRow(line)
    requires forall k | 0 <= k < |Split(TableRowBody(line), '|')| :: IsStripped(Split(TableRowBody(line), '|')[k])
    ensures Join(Cells(line), '|') == TableRowBody(line)
  {
    var parts := Split(TableRowBody(line), '|');
    forall k | 0 <= k < |parts|
      ensures Cells(line)[k] == parts[k]
    {
      StripStripped(parts[k]);
    }
    assert Cells(line) == parts;
    JoinSplit(TableRowBody(line), '|');
  }

  /** `parse_table_lines` as the source writes it: a loop that skips non-rows and separator rows. */
  method ParseTableLines(lines: seq<string>) returns (rows: seq<seq<string>>)
    ensures rows == Rows(lines)
  {
    rows := [];
    for i := 0 to |lines|
      invariant rows == Rows(lines[..i])
    {
      assert lines[..i + 1][..i] == lines[..i];
      var line := lines[i];
      if !IsTableRow(line) {
        continue;
      }
      var cells := StripAll(Split(TableRowBody(line), '|'));
      if IsSeparatorRow(cells) {
        continue;
      }
      rows := rows + [cells];
    }
    assert lines[..|lines|] == lines;
  }

  // ---------------------------------------------------------------------------
  // to_abs_path
  // ---------------------------------------------------------------------------

  /** The path matches `^https?://`. */
  predicate IsUrl(path: string) {
    StartsWith(path, "http://") || StartsWith(path, "https://")
  }

  /** `re.sub(r"^\.\/", "", path)`: one leading `./` removed. */
  function DropDotSlash(path: string): (r: string)
    ensures StartsWith(path, "./") ==> path == "./" + r
    ensures !StartsWith(path, "./") ==> r == path
  {
    if StartsWith(path, "./") then path[2..] else path
  }

  /**
    `os.path.join(base, path)` on POSIX for two parts: an absolute `path`
    replaces `base`; otherwise `path` is appended, after a `/` unless `base`
    is empty or already ends in one.
   */
  function JoinPath(base: string, path: string): (r: string)
    ensures EndsWith(r, path)
    ensures StartsWith(path, "/") ==> r == path
    ensures !StartsWith(path, "/") ==> StartsWith(r, base)
  {
    if StartsWith(path, "/") then path
    else if base == "" || EndsWith(base, "/") then base + path
    else base + "/" + path
  }

  /**
    `to_abs_path(base_dir, path)`: a URL is returned unchanged; any other
    path loses one leading `./` and is joined to `base_dir`.
   */
  function ToAbsPath(baseDir: string, path: string): (r: string)
    ensures IsUrl(path) ==> r == path
    ensures !IsUrl(path) ==> EndsWith(r, DropDotSlash(path))
  {
    if IsUrl(path) then path else JoinPath(baseDir, DropDotSlash(path))
  }

  /**
    A relative path that is not a URL ends up under `base_dir`: the result is
    the directory, a `/` when needed, and the path without its `./`.
   */
  lemma RelativePathUnderBase(baseDir: string, path: string)
    requires !IsUrl(path) && !StartsWith(DropDotSlash(path), "/")
    ensures var p := DropDotSlash(path);
      ToAbsPath(baseDir, path) == baseDir + (if baseDir == "" || EndsWith(baseDir, "/") then "" else "/") + p
  {
    var p := DropDotSlash(path);
    if baseDir == "" || EndsWith(baseDir, "/") {
      assert baseDir + "" + p == baseDir + p;
    }
  }

  /**
    Resolving twice changes nothing once the first result is absolute:
    against an absolute directory, `to_abs_path` is idempotent whatever the
    second directory is.
   */
  lemma ToAbsPathIdempotent(baseDir: string, baseDir': string, path: string)
    requires StartsWith(baseDir, "/")
    ensures var r := ToAbsPath(baseDir, path);
      ToAbsPath(baseDir', r) == r
  {
    var r := ToAbsPath(baseDir, path);
    if !IsUrl(path) {
      var p := DropDotSlash(path);
      assert StartsWith(r, "/") by {
        if StartsWith(p, "/") {
          assert r == p;
        } else {
          assert r[..|baseDir|] == baseDir;
          assert r[0] == baseDir[0];
        }
      }
      assert r[0] == '/';
      assert !StartsWith(r, "./") && !StartsWith(r, "http://") && !StartsWith(r, "https://");
    }
  }
}
