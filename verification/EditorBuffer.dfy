/** The editor's buffer: a fixed array of rows with their lengths, edited in place. */
module EditorBuffer {
  import opened Words
  import opened Options
  import opened EditorText

  const SAVE_BUFFER: nat := 8192

  class Editor {
    const lines: array2<char>
    const lineLens: array<nat>
    var totalLines: nat
    var curX: nat
    var curY: nat
    var isDirty: bool
    /** The lines the rows hold. */
    ghost var text: seq<string>

    ghost predicate Sized() {
      lines.Length0 == MAX_LINES && lines.Length1 == MAX_COLS && lineLens.Length == MAX_LINES
    }

    ghost predicate RowShows(l: nat, s: string)
      requires Sized() && l < MAX_LINES
      reads lines, lineLens
    {
      lineLens[l] == |s| < MAX_COLS && forall i :: 0 <= i < |s| ==> lines[l, i] == s[i]
    }

    ghost predicate Shows()
      reads this, lines, lineLens
    {
      Sized() && totalLines == |text| <= MAX_LINES && forall l :: 0 <= l < |text| ==> RowShows(l, text[l])
    }

    ghost predicate Valid()
      reads this, lines, lineLens
    {
      Shows() && Good(View())
    }

    ghost function View(): Text
      reads this
    {
      Text(text, curX, curY)
    }

    constructor ()
      ensures Valid() && View() == Text([""], 0, 0) && fresh(lines) && fresh(lineLens)
    {
      lines := new char[MAX_LINES, MAX_COLS]((i, j) => ' ');
      lineLens := new nat[MAX_LINES](i => 0);
      totalLines, curX, curY, isDirty := 1, 0, 0, false;
      text := [""];
    }

    // ----- rows -----

    /** The first characters of row `l` are `s`. */
    ghost predicate Typed(l: nat, s: string)
      requires Sized() && l < MAX_LINES
      reads lines
    {
      |s| < MAX_COLS && forall i :: 0 <= i < |s| ==> lines[l, i] == s[i]
    }

    lemma TypedNothing(l: nat)
      requires Sized()
      ensures l < MAX_LINES ==> Typed(l, "")
    {
    }

    lemma RowFacts(l: nat, s: string)
      requires Sized() && l < MAX_LINES && RowShows(l, s)
      ensures lineLens[l] == |s| && Typed(l, s)
    {
    }

    method Truncate(l: nat, x: nat, ghost s: string)
      requires Sized() && l < MAX_LINES && RowShows(l, s) && x <= |s|
      modifies lines, lineLens
      ensures RowShows(l, s[..x])
      ensures forall m: nat, r: string :: m < MAX_LINES && m != l && old(RowShows(m, r)) ==> RowShows(m, r)
    {
      lines[l, x] := '\0';
      lineLens[l] := x;
    }

    /** Makes room at column `x` and puts `c` there. */
    method InsertInRow(y: nat, x: nat, c: char, ghost s: string)
      requires Sized() && y < MAX_LINES && RowShows(y, s) && x <= |s| < MAX_COLS - 1
      modifies lines, lineLens
      ensures RowShows(y, InsertAt(s, x, [c]))
      ensures forall l, j :: 0 <= l < MAX_LINES && l != y && 0 <= j < MAX_COLS ==> lines[l, j] == old(lines[l, j])
      ensures forall l :: 0 <= l < MAX_LINES && l != y ==> lineLens[l] == old(lineLens[l])
    {
      var len := lineLens[y];
      var i: int := len;
      while i >= x
        modifies lines
        invariant x - 1 <= i <= len
        invariant forall j :: i < j <= len ==> lines[y, j + 1] == old(lines[y, j])
        invariant forall j :: 0 <= j <= i ==> lines[y, j] == old(lines[y, j])
        invariant forall l, j :: 0 <= l < MAX_LINES && l != y && 0 <= j < MAX_COLS ==> lines[l, j] == old(lines[l, j])
      {
        lines[y, i + 1] := lines[y, i];
        i := i - 1;
      }
      lines[y, x] := c;
      lineLens[y] := len + 1;
      ghost var r := InsertAt(s, x, [c]);
      forall j | 0 <= j < |r| ensures lines[y, j] == r[j] {
        if j > x { assert lines[y, (j - 1) + 1] == old(lines[y, j - 1]); }
      }
    }

    /** Closes the gap at column `x` - 1. */
    method DeleteInRow(y: nat, x: nat, ghost s: string)
      requires Sized() && y < MAX_LINES && RowShows(y, s) && 0 < x <= |s|
      modifies lines, lineLens
      ensures RowShows(y, s[..x - 1] + s[x..])
      ensures forall l, j :: 0 <= l < MAX_LINES && l != y && 0 <= j < MAX_COLS ==> lines[l, j] == old(lines[l, j])
      ensures forall l :: 0 <= l < MAX_LINES && l != y ==> lineLens[l] == old(lineLens[l])
    {
      var len := lineLens[y];
      for i := x - 1 to len
        modifies lines
        invariant forall j :: 0 <= j < x - 1 ==> lines[y, j] == old(lines[y, j])
        invariant forall j :: x <= j <= i ==> lines[y, j - 1] == old(lines[y, j])
        invariant forall j :: i <= j <= len ==> lines[y, j] == old(lines[y, j])
        invariant forall l, j :: 0 <= l < MAX_LINES && l != y && 0 <= j < MAX_COLS ==> lines[l, j] == old(lines[l, j])
      {
        lines[y, i] := lines[y, i + 1];
      }
      lineLens[y] := len - 1;
      ghost var r := s[..x - 1] + s[x..];
      forall j | 0 <= j < |r| ensures lines[y, j] == r[j] {
        if j >= x - 1 { assert lines[y, (j + 1) - 1] == old(lines[y, j + 1]); }
      }
    }

    /** Row `source` is copied over row `target`, its terminator included. */
    method CopyRow(source: nat, target: nat, ghost s: string)
      requires Sized() && source < MAX_LINES && target < MAX_LINES && source != target && RowShows(source, s)
      modifies lines, lineLens
      ensures RowShows(target, s)
      ensures forall l: nat, r: string :: l < MAX_LINES && l != target && old(RowShows(l, r)) ==> RowShows(l, r)
    {
      var len := lineLens[source];
      for col := 0 to len + 1
        modifies lines
        invariant forall j :: 0 <= j < col ==> lines[target, j] == lines[source, j]
        invariant forall l, j :: 0 <= l < MAX_LINES && l != target && 0 <= j < MAX_COLS ==> lines[l, j] == old(lines[l, j])
      {
        lines[target, col] := lines[source, col];
      }
      lineLens[target] := len;
    }

    /** The characters of row `source` from column `first` on are put into row
        `target` from column `at` on, which becomes its end. */
    method CopyTail(source: nat, first: nat, target: nat, at: nat, ghost s: string, ghost front: string)
      requires Sized() && source < MAX_LINES && target < MAX_LINES && source != target
      requires RowShows(source, s) && first <= |s| && at + (|s| - first) < MAX_COLS
      requires |front| == at && Typed(target, front)
      modifies lines, lineLens
      ensures RowShows(target, front + s[first..])
      ensures forall l: nat, r: string :: l < MAX_LINES && l != target && old(RowShows(l, r)) ==> RowShows(l, r)
    {
      var count := lineLens[source] - first;
      for i := 0 to count
        modifies lines
        invariant forall j :: 0 <= j < at ==> lines[target, j] == front[j]
        invariant forall j :: at <= j < at + i ==> lines[target, j] == s[first + (j - at)]
        invariant forall l, j :: 0 <= l < MAX_LINES && l != target && 0 <= j < MAX_COLS ==> lines[l, j] == old(lines[l, j])
      {
        lines[target, at + i] := lines[source, first + i];
      }
      lines[target, at + count] := '\0';
      lineLens[target] := at + count;
    }

    // ----- keys -----

    method TypeChar(c: char)
      requires Valid()
      modifies this, lines, lineLens
      ensures Shows() && View() == Press(old(View()), Printable(c))
    {
      if lineLens[curY] < MAX_COLS - 1 {
        InsertInRow(curY, curX, c, text[curY]);
        text := text[curY := InsertAt(text[curY], curX, [c])];
        curX := curX + 1;
        isDirty := true;
      }
    }

    method TypeTab()
      requires Valid()
      modifies this, lines, lineLens
      ensures Shows() && View() == Press(old(View()), Tab)
    {
      ghost var x, s := curX, text[curY];
      var n := 0;
      assert Spaces(0) == "" && InsertAt(s, x, "") == s;
      while n < 4 && lineLens[curY] < MAX_COLS - 1
        invariant Shows() && curY == old(curY) < |text| && curX == x + n && n <= Min(4, MAX_COLS - 1 - |s|)
        invariant text == old(text)[curY := InsertAt(s, x, Spaces(n))]
        decreases 4 - n
      {
        InsertInRow(curY, curX, ' ', text[curY]);
        assert InsertAt(InsertAt(s, x, Spaces(n)), x + n, [' ']) == InsertAt(s, x, Spaces(n + 1));
        text := text[curY := InsertAt(text[curY], curX, [' '])];
        curX := curX + 1;
        isDirty := true;
        n := n + 1;
      }
      assert RowShows(curY, text[curY]) && n == Min(4, MAX_COLS - 1 - |s|);
    }

    method TypeBackspace()
      requires Valid()
      modifies this, lines, lineLens
      ensures Shows() && View() == Press(old(View()), Backspace)
    {
      if curX > 0 {
        DeleteInRow(curY, curX, text[curY]);
        text := text[curY := text[curY][..curX - 1] + text[curY][curX..]];
        curX := curX - 1;
        isDirty := true;
      } else if curY > 0 && lineLens[curY - 1] + lineLens[curY] < MAX_COLS - 1 {
        MergeUp();
      }
    }

    /** The current line joins the one above; the lines below move up. */
    method MergeUp()
      requires Valid() && curX == 0 && curY > 0 && |text[curY - 1]| + |text[curY]| < MAX_COLS - 1
      modifies this, lines, lineLens
      ensures Shows() && View() == Press(old(View()), Backspace)
    {
      hide RowShows, Typed;
      ghost var t, y := text, curY;
      RowFacts(y - 1, t[y - 1]);
      var prevLen := lineLens[curY - 1];
      CopyTail(curY, 0, curY - 1, prevLen, t[y], t[y - 1]);
      assert t[y][0..] == t[y];
      for l := curY to totalLines - 1
        modifies lines, lineLens
        invariant forall m :: 0 <= m < y - 1 ==> RowShows(m, t[m])
        invariant RowShows(y - 1, t[y - 1] + t[y])
        invariant forall m: nat, i: nat :: y <= m < l && i == m + 1 ==> RowShows(m, t[i])
        invariant forall m :: l <= m < |t| && y < |t| && m > y ==> RowShows(m, t[m])
      {
        CopyRow(l + 1, l, t[l + 1]);
      }
      totalLines := totalLines - 1;
      curY := curY - 1;
      curX := prevLen;
      isDirty := true;
      text := t[..y - 1] + [t[y - 1] + t[y]] + t[y + 1..];
      forall m | 0 <= m < |text| ensures RowShows(m, text[m]) {
        if m >= y { assert text[m] == t[m + 1]; }
      }
    }

    /** The lines below move down and the rest of the line becomes a new one. */
    method TypeEnter()
      requires Valid()
      modifies this, lines, lineLens
      ensures Shows() && View() == Press(old(View()), Enter)
    {
      if totalLines >= MAX_LINES { return; }
      hide RowShows, Typed;
      ghost var t, y := text, curY;
      var l := totalLines;
      while l > curY + 1
        modifies lines, lineLens
        invariant y + 1 <= l <= |t|
        invariant forall m :: 0 <= m < l && m < |t| ==> RowShows(m, t[m])
        invariant forall m: nat, i: nat :: l < m <= |t| && m == i + 1 ==> RowShows(m, t[i])
      {
        CopyRow(l - 1, l, t[l - 1]);
        l := l - 1;
      }
      TypedNothing(curY + 1);
      CopyTail(curY, curX, curY + 1, 0, t[y], "");
      assert "" + t[y][curX..] == t[y][curX..];
      Truncate(curY, curX, t[y]);
      text := t[..y] + [t[y][..curX], t[y][curX..]] + t[y + 1..];
      totalLines := totalLines + 1;
      curY := curY + 1;
      curX := 0;
      isDirty := true;
      forall m | 0 <= m < |text| ensures RowShows(m, text[m]) {
        if m > y + 1 { assert text[m] == t[m - 1]; }
      }
    }

    method Move(k: Key)
      requires Valid() && (k.Left? || k.Right? || k.Up? || k.Down?)
      modifies this`curX, this`curY
      ensures Shows() && View() == Press(old(View()), k)
    {
      match k
      case Left =>
        if curX > 0 {
          curX := curX - 1;
        } else if curY > 0 {
          curY := curY - 1;
          curX := lineLens[curY];
        }
      case Right =>
        if curX < lineLens[curY] {
          curX := curX + 1;
        } else if curY + 1 < totalLines {
          curY := curY + 1;
          curX := 0;
        }
      case Up =>
        if curY > 0 {
          curY := curY - 1;
          if curX > lineLens[curY] { curX := lineLens[curY]; }
        }
      case Down =>
        if curY + 1 < totalLines {
          curY := curY + 1;
          if curX > lineLens[curY] { curX := lineLens[curY]; }
        }
    }

    /** One key press, in the arrays and in the flat text. */
    method Handle(k: Key)
      requires Valid() && (k.Printable? ==> ' ' <= k.c <= '~')
      modifies this, lines, lineLens
      ensures Valid() && View() == Press(old(View()), k)
      ensures EditFits(EditOf(old(View()), k), old(Join(text)), old(Position(View())))
      ensures (Join(text), Position(View())) == Apply(EditOf(old(View()), k), old(Join(text)), old(Position(View())))
    {
      KeyRefinesEdit(View(), k);
      match k
      case Printable(c) => TypeChar(c);
      case Tab => TypeTab();
      case Enter => TypeEnter();
      case Backspace => TypeBackspace();
      case _ => Move(k);
    }

    // ----- files -----

    /** Reads file contents into the rows; false when they would leave the arrays. */
    method LoadFile(contents: string) returns (ok: bool)
      requires Sized()
      modifies this, lines, lineLens
      ensures ok == Load(contents).Some?
      ensures ok ==> Valid() && View() == Text(Load(contents).value, 0, 0)
    {
      hide RowShows;
      curX, curY, isDirty := 0, 0, false;
      LoadFits(contents, [], "");
      ghost var done, cur := [], "";
      var l, c, pos := 0, 0, 0;
      while pos < |contents| && l < MAX_LINES
        modifies lines, lineLens
        invariant pos <= |contents| && l == |done| <= MAX_LINES && c == |cur| < MAX_COLS
        invariant LoadFrom(contents, [], "") == LoadFrom(contents[pos..], done, cur)
        invariant forall m :: 0 <= m < l ==> RowShows(m, done[m])
        invariant l < MAX_LINES ==> Typed(l, cur)
        decreases |contents| - pos
      {
        var ch := contents[pos];
        assert contents[pos..][1..] == contents[pos + 1..];
        if ch == '\n' {
          EndRow(l, c, done, cur);
          done, cur := done + [cur], "";
          l, c := l + 1, 0;
          TypedNothing(l);
        } else if ch != '\r' && c < MAX_COLS - 1 {
          PutChar(l, c, ch, done, cur);
          cur := cur + [ch];
          c := c + 1;
        }
        pos := pos + 1;
      }
      if l >= MAX_LINES { return false; }
      assert contents[pos..] == "";
      assert LoadFrom("", done, cur) == Some(done + [cur]);
      EndRow(l, c, done, cur);
      totalLines := l + 1;
      text := done + [cur];
      ok := true;
    }

    method PutChar(l: nat, c: nat, ch: char, ghost done: seq<string>, ghost cur: string)
      requires Sized() && l == |done| < MAX_LINES && c == |cur| < MAX_COLS - 1 && Typed(l, cur)
      requires forall m :: 0 <= m < l ==> RowShows(m, done[m])
      modifies lines
      ensures Typed(l, cur + [ch]) && forall m :: 0 <= m < l ==> RowShows(m, done[m])
    {
      lines[l, c] := ch;
    }

    method EndRow(l: nat, c: nat, ghost done: seq<string>, ghost cur: string)
      requires Sized() && l == |done| < MAX_LINES && c == |cur| < MAX_COLS && Typed(l, cur)
      requires forall m :: 0 <= m < l ==> RowShows(m, done[m])
      modifies lines, lineLens
      ensures RowShows(l, cur) && forall m :: 0 <= m < l ==> RowShows(m, done[m])
      ensures forall m :: 0 <= m <= l ==> RowShows(m, (done + [cur])[m])
    {
      lines[l, c] := '\0';
      lineLens[l] := c;
    }

    /** Appends row `l` as far as the limit allows. */
    method CopyOut(l: nat, buf: array<char>, start: nat, ghost s: string) returns (n: nat)
      requires Sized() && l < MAX_LINES && RowShows(l, s)
      requires buf.Length == SAVE_BUFFER && start < SAVE_LIMIT
      modifies buf
      ensures n <= SAVE_LIMIT && buf[..n] == old(buf[..start]) + s[..Min(|s|, SAVE_LIMIT - start)]
    {
      n := start;
      var c := 0;
      while c < lineLens[l] && n < SAVE_LIMIT
        modifies buf
        invariant c <= |s| && n == start + c <= SAVE_LIMIT && buf[..n] == old(buf[..start]) + s[..c]
        decreases |s| - c
      {
        buf[n] := lines[l, c];
        n := n + 1;
        c := c + 1;
        assert s[..c] == s[..c - 1] + [s[c - 1]];
      }
    }

    /** Writes the rows to the output buffer; its first `n` characters are the file. */
    method SaveFile() returns (buf: array<char>, n: nat)
      requires Valid()
      ensures fresh(buf) && buf.Length == SAVE_BUFFER && n <= SAVE_LIMIT + 1 && buf[..n] == Save(text)
    {
      buf := new char[SAVE_BUFFER](_ => '\0');
      n := 0;
      var l := 0;
      while l < totalLines && n < SAVE_LIMIT
        modifies buf
        invariant l <= totalLines && n <= SAVE_LIMIT + 1
        invariant SaveFrom(text, "") == SaveFrom(text[l..], buf[..n])
        decreases totalLines - l
      {
        ghost var out := buf[..n];
        n := CopyOut(l, buf, n, text[l]);
        ghost var row := buf[..n];
        if l + 1 < totalLines {
          buf[n] := '\n';
          n := n + 1;
          assert buf[..n] == row + "\n";
        }
        assert text[l..][1..] == text[l + 1..];
        l := l + 1;
      }
      assert text[|text|..] == [];
    }
  }
}
