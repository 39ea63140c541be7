/**
 The editor's text as lines with a cursor, and as one flat string with a position:
 every key is an insertion, a deletion or a move in the flat text.
 */
module EditorText {
  import opened Words
  import opened Options

  const MAX_LINES: nat := 128
  const MAX_COLS: nat := 74

  datatype Text = Text(lines: seq<string>, x: nat, y: nat)

  datatype Key = Printable(c: char) | Tab | Enter | Backspace | Left | Right | Up | Down

  predicate GoodLine(s: string) {
    |s| < MAX_COLS && '\n' !in s && '\r' !in s
  }

  predicate GoodLines(lines: seq<string>) {
    1 <= |lines| <= MAX_LINES && forall i :: 0 <= i < |lines| ==> GoodLine(lines[i])
  }

  predicate Good(t: Text) {
    GoodLines(t.lines) && t.y < |t.lines| && t.x <= |t.lines[t.y]|
  }

  function Spaces(n: nat): (s: string)
    ensures |s| == n
  {
    seq(n, _ => ' ')
  }

  // ----- keys on lines -----

  function InsertAt(s: string, x: nat, piece: string): string
    requires x <= |s|
  {
    s[..x] + piece + s[x..]
  }

  function Press(t: Text, k: Key): Text
    requires Good(t)
  {
    var line := t.lines[t.y];
    match k
    case Printable(c) =>
      if |line| < MAX_COLS - 1 then Text(t.lines[t.y := InsertAt(line, t.x, [c])], t.x + 1, t.y) else t
    case Tab =>
      var n := Min(4, MAX_COLS - 1 - |line|);
      Text(t.lines[t.y := InsertAt(line, t.x, Spaces(n))], t.x + n, t.y)
    case Enter =>
      if |t.lines| < MAX_LINES then Text(t.lines[..t.y] + [line[..t.x], line[t.x..]] + t.lines[t.y + 1..], 0, t.y + 1)
      else t
    case Backspace =>
      if t.x > 0 then Text(t.lines[t.y := line[..t.x - 1] + line[t.x..]], t.x - 1, t.y)
      else if t.y > 0 && |t.lines[t.y - 1]| + |line| < MAX_COLS - 1 then
        var above := t.lines[t.y - 1];
        Text(t.lines[..t.y - 1] + [above + line] + t.lines[t.y + 1..], |above|, t.y - 1)
      else t
    case Left =>
      if t.x > 0 then t.(x := t.x - 1)
      else if t.y > 0 then t.(y := t.y - 1, x := |t.lines[t.y - 1]|)
      else t
    case Right =>
      if t.x < |line| then t.(x := t.x + 1)
      else if t.y + 1 < |t.lines| then t.(y := t.y + 1, x := 0)
      else t
    case Up => if t.y > 0 then t.(y := t.y - 1, x := Min(t.x, |t.lines[t.y - 1]|)) else t
    case Down => if t.y + 1 < |t.lines| then t.(y := t.y + 1, x := Min(t.x, |t.lines[t.y + 1]|)) else t
  }

  // ----- the flat text -----

  /** The lines with a newline between them. */
  function Join(lines: seq<string>): string
    requires lines != []
  {
    if |lines| == 1 then lines[0] else lines[0] + "\n" + Join(lines[1..])
  }

  /** Text before line `y`. */
  function Before(lines: seq<string>, y: nat): string
    requires y <= |lines|
  {
    if y == 0 then "" else Before(lines, y - 1) + lines[y - 1] + "\n"
  }

  /** Text after the end of line `y`. */
  function After(lines: seq<string>, y: nat): string
    requires y < |lines|
    decreases |lines| - y
  {
    if y + 1 == |lines| then "" else "\n" + lines[y + 1] + After(lines, y + 1)
  }

  function Position(t: Text): nat
    requires Good(t)
  {
    |Before(t.lines, t.y)| + t.x
  }

  lemma {:induction false} JoinAround(lines: seq<string>, y: nat)
    requires y < |lines|
    ensures Join(lines) == Before(lines, y) + lines[y] + After(lines, y)
    decreases y
  {
    if y > 0 {
      JoinAround(lines, y - 1);
      var a, b := Before(lines, y - 1), lines[y - 1];
      assert Before(lines, y) == a + b + "\n";
      assert After(lines, y - 1) == "\n" + lines[y] + After(lines, y);
      assert a + b + ("\n" + lines[y] + After(lines, y)) == (a + b + "\n") + lines[y] + After(lines, y);
    } else {
      JoinFirst(lines);
    }
  }

  lemma {:induction false} JoinFirst(lines: seq<string>)
    requires lines != []
    ensures Join(lines) == lines[0] + After(lines, 0)
    decreases |lines|
  {
    if |lines| > 1 {
      JoinFirst(lines[1..]);
      AfterTail(lines, 0);
      assert lines[0] + "\n" + (lines[1] + After(lines, 1)) == lines[0] + ("\n" + lines[1] + After(lines, 1));
    }
  }

  lemma {:induction false} AfterTail(lines: seq<string>, y: nat)
    requires y + 1 < |lines|
    ensures After(lines[1..], y) == After(lines, y + 1)
    decreases |lines| - y
  {
    if y + 2 < |lines| { AfterTail(lines, y + 1); }
  }

  lemma {:induction false} BeforeSame(a: seq<string>, b: seq<string>, y: nat)
    requires y <= |a| && y <= |b| && a[..y] == b[..y]
    ensures Before(a, y) == Before(b, y)
    decreases y
  {
    if y > 0 {
      assert a[..y - 1] == a[..y][..y - 1] == b[..y - 1];
      assert a[y - 1] == a[..y][y - 1] == b[y - 1];
      BeforeSame(a, b, y - 1);
    }
  }

  lemma {:induction false} AfterSame(a: seq<string>, b: seq<string>, y: nat, z: nat)
    requires y < |a| && z < |b| && a[y + 1..] == b[z + 1..]
    ensures After(a, y) == After(b, z)
    decreases |a| - y
  {
    assert |a| - y == |b| - z;
    if y + 1 < |a| {
      assert a[y + 1] == a[y + 1..][0] == b[z + 1..][0] == b[z + 1];
      assert a[y + 2..] == a[y + 1..][1..] == b[z + 2..];
      AfterSame(a, b, y + 1, z + 1);
    }
  }

  // ----- edits -----

  datatype Edit = Keep | Insert(piece: string) | DeleteBefore | MoveTo(pos: nat)

  predicate EditFits(e: Edit, text: string, pos: nat) {
    pos <= |text| && (e.DeleteBefore? ==> pos > 0) && (e.MoveTo? ==> e.pos <= |text|)
  }

  function Apply(e: Edit, text: string, pos: nat): (string, nat)
    requires EditFits(e, text, pos)
  {
    match e
    case Keep => (text, pos)
    case Insert(piece) => (InsertAt(text, pos, piece), pos + |piece|)
    case DeleteBefore => (text[..pos - 1] + text[pos..], pos - 1)
    case MoveTo(p) => (text, p)
  }

  /** What a key does to the flat text; the limits on columns and lines decide
      whether it does anything. */
  function EditOf(t: Text, k: Key): Edit
    requires Good(t)
  {
    var line := t.lines[t.y];
    match k
    case Printable(c) => if |line| < MAX_COLS - 1 then Insert([c]) else Keep
    case Tab => Insert(Spaces(Min(4, MAX_COLS - 1 - |line|)))
    case Enter => if |t.lines| < MAX_LINES then Insert("\n") else Keep
    case Backspace =>
      if t.x > 0 || (t.y > 0 && |t.lines[t.y - 1]| + |line| < MAX_COLS - 1) then DeleteBefore else Keep
    case Left => if Position(t) > 0 then MoveTo(Position(t) - 1) else Keep
    case Right => if Position(t) < |Join(t.lines)| then MoveTo(Position(t) + 1) else Keep
    case Up => if t.y > 0 then MoveTo(|Before(t.lines, t.y - 1)| + Min(t.x, |t.lines[t.y - 1]|)) else Keep
    case Down => if t.y + 1 < |t.lines| then MoveTo(|Before(t.lines, t.y + 1)| + Min(t.x, |t.lines[t.y + 1]|)) else Keep
  }

  ghost predicate Refines(t: Text, k: Key)
    requires Good(t)
  {
    && EditFits(EditOf(t, k), Join(t.lines), Position(t)) && Good(Press(t, k))
    && (Join(Press(t, k).lines), Position(Press(t, k))) == Apply(EditOf(t, k), Join(t.lines), Position(t))
  }

  lemma PositionInside(t: Text)
    requires Good(t)
    ensures Position(t) <= |Join(t.lines)|
    ensures Position(t) == 0 <==> t.y == 0 && t.x == 0
    ensures Position(t) == |Join(t.lines)| <==> t.y + 1 == |t.lines| && t.x == |t.lines[t.y]|
  {
    JoinAround(t.lines, t.y);
  }

  /** Replacing one line replaces its stretch of the flat text. */
  lemma LineReplaced(lines: seq<string>, y: nat, s: string)
    requires y < |lines|
    ensures Join(lines[y := s]) == Before(lines, y) + s + After(lines, y)
    ensures Before(lines[y := s], y) == Before(lines, y)
  {
    var b := lines[y := s];
    JoinAround(b, y);
    assert b[..y] == lines[..y];
    assert b[y + 1..] == lines[y + 1..];
    BeforeSame(b, lines, y);
    AfterSame(b, lines, y, y);
  }

  lemma InsertedInside(a: string, s: string, z: string, x: nat, piece: string)
    requires x <= |s|
    ensures a + InsertAt(s, x, piece) + z == InsertAt(a + s + z, |a| + x, piece)
  {
    var t := a + s + z;
    assert t[..|a| + x] == a + s[..x];
    assert t[|a| + x..] == s[x..] + z;
  }

  lemma GoodReplaced(lines: seq<string>, y: nat, s: string)
    requires GoodLines(lines) && y < |lines| && GoodLine(s)
    ensures GoodLines(lines[y := s])
  {
  }

  lemma InsertRefines(t: Text, k: Key, piece: string)
    requires Good(t) && (k.Printable? || k.Tab?) && EditOf(t, k) == Insert(piece) && GoodLine(piece)
    requires Press(t, k) == Text(t.lines[t.y := InsertAt(t.lines[t.y], t.x, piece)], t.x + |piece|, t.y)
    requires |t.lines[t.y]| + |piece| < MAX_COLS
    ensures Refines(t, k)
  {
    hide Join, Before, After;
    var line := t.lines[t.y];
    JoinAround(t.lines, t.y);
    LineReplaced(t.lines, t.y, InsertAt(line, t.x, piece));
    InsertedInside(Before(t.lines, t.y), line, After(t.lines, t.y), t.x, piece);
    PositionInside(t);
    GoodReplaced(t.lines, t.y, InsertAt(line, t.x, piece));
  }

  lemma EnterRefines(t: Text)
    requires Good(t)
    ensures Refines(t, Enter)
  {
    hide Join, Before, After;
    PositionInside(t);
    if |t.lines| < MAX_LINES {
      var y, line := t.y, t.lines[t.y];
      var r := Press(t, Enter).lines;
      JoinAround(t.lines, y);
      JoinAround(r, y);
      JoinAround(r, y + 1);
      assert r[..y] == t.lines[..y];
      assert r[y + 2..] == t.lines[y + 1..];
      BeforeSame(r, t.lines, y);
      AfterSame(r, t.lines, y + 1, y);
      EnterPieces(r, y);
      InsertedInside(Before(t.lines, y), line, After(t.lines, y), t.x, "\n");
      assert line == line[..t.x] + line[t.x..];
      var a, z := Before(t.lines, y), After(t.lines, y);
      Regroup(a, line[..t.x], line[t.x..], z);
      EnterGood(t);
    }
  }

  lemma Regroup(a: string, l: string, r: string, z: string)
    ensures a + l + ("\n" + r + z) == a + (l + "\n" + r) + z
  {
  }

  lemma EnterGood(t: Text)
    requires Good(t) && |t.lines| < MAX_LINES
    ensures Good(Press(t, Enter))
  {
    var line, r := t.lines[t.y], Press(t, Enter).lines;
    assert GoodLine(line[..t.x]) && GoodLine(line[t.x..]);
    forall i | 0 <= i < |r| ensures GoodLine(r[i]) {
      if i > t.y + 1 { assert r[i] == t.lines[i - 1]; }
    }
  }

  lemma EnterPieces(r: seq<string>, y: nat)
    requires y + 1 < |r|
    ensures After(r, y) == "\n" + r[y + 1] + After(r, y + 1)
    ensures Before(r, y + 1) == Before(r, y) + r[y] + "\n"
  {
  }

  lemma BackspaceRefines(t: Text)
    requires Good(t)
    ensures Refines(t, Backspace)
  {
    hide Join, Before, After;
    if t.x > 0 {
      DeleteRefines(t);
    } else if t.y > 0 && |t.lines[t.y - 1]| + |t.lines[t.y]| < MAX_COLS - 1 {
      MergeRefines(t);
    } else {
      PositionInside(t);
    }
  }

  lemma DeleteRefines(t: Text)
    requires Good(t) && t.x > 0
    ensures Refines(t, Backspace)
  {
    hide Join, Before, After;
    PositionInside(t);
    JoinAround(t.lines, t.y);
    var line := t.lines[t.y];
    var s := line[..t.x - 1] + line[t.x..];
    LineReplaced(t.lines, t.y, s);
    DeletedInside(Before(t.lines, t.y), line, After(t.lines, t.y), t.x);
    assert GoodLine(s);
    GoodReplaced(t.lines, t.y, s);
  }

  lemma DeletedInside(a: string, s: string, z: string, x: nat)
    requires 0 < x <= |s|
    ensures var text := a + s + z;
            a + (s[..x - 1] + s[x..]) + z == text[..|a| + x - 1] + text[|a| + x..]
  {
    var text := a + s + z;
    assert text[..|a| + x - 1] == a + s[..x - 1];
    assert text[|a| + x..] == s[x..] + z;
  }

  lemma MergeRefines(t: Text)
    requires Good(t) && t.x == 0 && t.y > 0 && |t.lines[t.y - 1]| + |t.lines[t.y]| < MAX_COLS - 1
    ensures Refines(t, Backspace)
  {
    hide Join, Before, After;
    PositionInside(t);
    var y, line, above := t.y, t.lines[t.y], t.lines[t.y - 1];
    var r := Press(t, Backspace).lines;
    JoinAround(t.lines, y - 1);
    EnterPieces(t.lines, y - 1);
    JoinAround(r, y - 1);
    assert r[..y - 1] == t.lines[..y - 1];
    assert r[y..] == t.lines[y + 1..];
    BeforeSame(r, t.lines, y - 1);
    AfterSame(r, t.lines, y - 1, y);
    var a, z := Before(t.lines, y - 1), After(t.lines, y);
    var text := a + above + ("\n" + line + z);
    assert text[..|a| + |above|] == a + above;
    assert text[|a| + |above| + 1..] == line + z;
    assert a + (above + line) + z == (a + above) + (line + z);
    forall i | 0 <= i < |r| ensures GoodLine(r[i]) {
      if i >= y { assert r[i] == t.lines[i + 1]; }
    }
  }

  /** The cursor may stand anywhere in its line; positions of neighbouring lines. */
  lemma CursorAt(lines: seq<string>, x: nat, y: nat)
    requires GoodLines(lines) && y < |lines| && x <= |lines[y]|
    ensures |Before(lines, y)| + x <= |Join(lines)|
    ensures y + 1 < |lines| ==> |Before(lines, y + 1)| == |Before(lines, y)| + |lines[y]| + 1
  {
    PositionInside(Text(lines, x, y));
    if y + 1 < |lines| { EnterPieces(lines, y); }
  }

  lemma LeftRefines(t: Text)
    requires Good(t)
    ensures Refines(t, Left)
  {
    hide Join, Before, After;
    PositionInside(t);
    if t.y > 0 { CursorAt(t.lines, |t.lines[t.y - 1]|, t.y - 1); }
  }

  lemma RightRefines(t: Text)
    requires Good(t)
    ensures Refines(t, Right)
  {
    hide Join, Before, After;
    PositionInside(t);
    CursorAt(t.lines, t.x, t.y);
    if t.y + 1 < |t.lines| { CursorAt(t.lines, 0, t.y + 1); }
  }

  lemma UpRefines(t: Text)
    requires Good(t)
    ensures Refines(t, Up)
  {
    hide Join, Before, After;
    PositionInside(t);
    if t.y > 0 { CursorAt(t.lines, Min(t.x, |t.lines[t.y - 1]|), t.y - 1); }
  }

  lemma DownRefines(t: Text)
    requires Good(t)
    ensures Refines(t, Down)
  {
    hide Join, Before, After;
    PositionInside(t);
    if t.y + 1 < |t.lines| { CursorAt(t.lines, Min(t.x, |t.lines[t.y + 1]|), t.y + 1); }
  }

  /** Every key acts on the flat text and position as an insertion, a deletion or a
      move there, and keeps the limits on cursor, columns and lines. */
  lemma KeyRefinesEdit(t: Text, k: Key)
    requires Good(t) && (k.Printable? ==> ' ' <= k.c <= '~')
    ensures Good(Press(t, k)) && EditFits(EditOf(t, k), Join(t.lines), Position(t))
    ensures (Join(Press(t, k).lines), Position(Press(t, k))) == Apply(EditOf(t, k), Join(t.lines), Position(t))
  {
    hide Join, Before, After, Position, Apply, EditFits, Good;
    assert Refines(t, k) by {
      match k
      case Printable(c) => PrintableRefines(t, c);
      case Tab => TabRefines(t);
      case Enter => EnterRefines(t);
      case Backspace => BackspaceRefines(t);
      case Left => LeftRefines(t);
      case Right => RightRefines(t);
      case Up => UpRefines(t);
      case Down => DownRefines(t);
    }
  }

  lemma PrintableRefines(t: Text, c: char)
    requires Good(t) && ' ' <= c <= '~'
    ensures Refines(t, Printable(c))
  {
    hide Join, Before, After;
    PositionInside(t);
    if |t.lines[t.y]| < MAX_COLS - 1 { InsertRefines(t, Printable(c), [c]); }
  }

  lemma TabRefines(t: Text)
    requires Good(t)
    ensures Refines(t, Tab)
  {
    hide Join, Before, After;
    InsertRefines(t, Tab, Spaces(Min(4, MAX_COLS - 1 - |t.lines[t.y]|)));
  }

  // ----- loading -----

  /** Reads the rest of a file: `done` lines so far and the current one. None when
      a 129th line would begin, past the arrays. */
  function LoadFrom(text: string, done: seq<string>, cur: string): (r: Option<seq<string>>)
    ensures r.Some? ==> |r.value| > |done|
    decreases |text|
  {
    if |done| >= MAX_LINES then None
    else if text == "" then Some(done + [cur])
    else if text[0] == '\r' then LoadFrom(text[1..], done, cur)
    else if text[0] == '\n' then LoadFrom(text[1..], done + [cur], "")
    else LoadFrom(text[1..], done, if |cur| < MAX_COLS - 1 then cur + [text[0]] else cur)
  }

  function Load(text: string): Option<seq<string>> {
    LoadFrom(text, [], "")
  }

  function Newlines(text: string): nat {
    if text == "" then 0 else (if text[0] == '\n' then 1 else 0) + Newlines(text[1..])
  }

  /** Loading stays inside the arrays exactly when the file has at most 127
      newlines, and then gives good lines. */
  lemma {:induction false} LoadFits(text: string, done: seq<string>, cur: string)
    requires |done| <= MAX_LINES && GoodLine(cur) && forall i :: 0 <= i < |done| ==> GoodLine(done[i])
    ensures LoadFrom(text, done, cur).Some? <==> |done| + Newlines(text) < MAX_LINES
    ensures LoadFrom(text, done, cur).Some? ==> GoodLines(LoadFrom(text, done, cur).value)
    decreases |text|
  {
    if |done| < MAX_LINES && text != "" {
      if text[0] == '\r' {
        LoadFits(text[1..], done, cur);
      } else if text[0] == '\n' {
        LoadFits(text[1..], done + [cur], "");
      } else {
        LoadFits(text[1..], done, if |cur| < MAX_COLS - 1 then cur + [text[0]] else cur);
      }
    }
  }

  /** A line is read back whole. */
  lemma {:induction false} LoadLine(s: string, rest: string, done: seq<string>, cur: string)
    requires |done| < MAX_LINES && GoodLine(s) && |cur| + |s| < MAX_COLS
    ensures LoadFrom(s + rest, done, cur) == LoadFrom(rest, done, cur + s)
    decreases |s|
  {
    if s == "" {
      assert s + rest == rest && cur + s == cur;
    } else {
      assert (s + rest)[1..] == s[1..] + rest;
      assert cur + [s[0]] + s[1..] == cur + s;
      assert s[0] in s && forall c :: c in s[1..] ==> c in s;
      LoadLine(s[1..], rest, done, cur + [s[0]]);
    }
  }

  lemma {:induction false} LoadJoined(lines: seq<string>, done: seq<string>)
    requires lines != [] && (forall i :: 0 <= i < |lines| ==> GoodLine(lines[i])) && |done| + |lines| <= MAX_LINES
    ensures LoadFrom(Join(lines), done, "") == Some(done + lines)
    decreases |lines|
  {
    var s := lines[0];
    if |lines| == 1 {
      assert Join(lines) == s + "" && "" + s == s;
      LoadLine(s, "", done, "");
      assert done + [s] == done + lines;
    } else {
      var rest := "\n" + Join(lines[1..]);
      assert Join(lines) == s + rest;
      LoadLine(s, rest, done, "");
      assert "" + s == s && rest[1..] == Join(lines[1..]);
      LoadJoined(lines[1..], done + [s]);
      assert done + [s] + lines[1..] == done + lines;
    }
  }

  // ----- saving -----

  const SAVE_LIMIT: nat := 8100

  /** Appends lines to the output buffer until it holds 8100 characters; the newline
      after a line is appended even then. */
  function SaveFrom(lines: seq<string>, out: string): string
    decreases |lines|
  {
    if lines == [] || |out| >= SAVE_LIMIT then out
    else
      var row := out + lines[0][..Min(|lines[0]|, SAVE_LIMIT - |out|)];
      SaveFrom(lines[1..], if |lines| > 1 then row + "\n" else row)
  }

  function Save(lines: seq<string>): string {
    SaveFrom(lines, "")
  }

  /** Texts that saving writes in full. */
  predicate Saveable(text: string) {
    |text| <= SAVE_LIMIT || (|text| == SAVE_LIMIT + 1 && text[SAVE_LIMIT] == '\n' && text[SAVE_LIMIT - 1] != '\n')
  }

  lemma {:induction false} SaveExact(lines: seq<string>, out: string)
    requires GoodLines(lines) && |out| <= SAVE_LIMIT + 1
    requires |out| > 0 ==> out[|out| - 1] == '\n'
    requires |out| == SAVE_LIMIT + 1 ==> out[SAVE_LIMIT - 1] != '\n'
    ensures SaveFrom(lines, out) == out + Join(lines) <==> Saveable(out + Join(lines))
    decreases |lines|
  {
    var s, text := lines[0], out + Join(lines);
    if |out| >= SAVE_LIMIT {
      SaveStops(lines, out);
    } else if |out| + |s| <= SAVE_LIMIT {
      assert s[..|s|] == s;
      if |lines| > 1 {
        var next := out + s + "\n";
        assert text == next + Join(lines[1..]);
        assert |s| > 0 ==> (out + s)[|out| + |s| - 1] == s[|s| - 1] && s[|s| - 1] in s;
        SaveExact(lines[1..], next);
      }
    } else {
      SaveCut(lines, out);
    }
  }

  lemma SaveStops(lines: seq<string>, out: string)
    requires GoodLines(lines) && SAVE_LIMIT <= |out| <= SAVE_LIMIT + 1 && out[|out| - 1] == '\n'
    requires |out| == SAVE_LIMIT + 1 ==> out[SAVE_LIMIT - 1] != '\n'
    ensures SaveFrom(lines, out) == out
    ensures out == out + Join(lines) <==> Saveable(out + Join(lines))
  {
    var text := out + Join(lines);
    if |out| == SAVE_LIMIT && |text| == SAVE_LIMIT + 1 {
      assert text[SAVE_LIMIT - 1] == '\n';
    }
    assert |Join(lines)| == 0 ==> text == out;
  }

  lemma SaveCut(lines: seq<string>, out: string)
    requires GoodLines(lines) && |out| < SAVE_LIMIT < |out| + |lines[0]|
    ensures SaveFrom(lines, out) != out + Join(lines) && !Saveable(out + Join(lines))
  {
    var s, text := lines[0], out + Join(lines);
    JoinFirst(lines);
    var row := out + s[..SAVE_LIMIT - |out|];
    assert |row| == SAVE_LIMIT;
    assert SaveFrom(lines, out) == if |lines| > 1 then row + "\n" else row;
    assert text[SAVE_LIMIT] == s[SAVE_LIMIT - |out|] && s[SAVE_LIMIT - |out|] in s;
    if |lines| > 1 { assert |After(lines, 0)| > 0; }
  }

  /** Saving writes the text in full exactly when it is saveable, which every text of
      at most 8100 characters is; and loading what was saved gives the lines back. */
  lemma SaveThenLoad(lines: seq<string>)
    requires GoodLines(lines)
    ensures Save(lines) == Join(lines) <==> Saveable(Join(lines))
    ensures Saveable(Join(lines)) ==> Load(Save(lines)) == Some(lines)
  {
    assert "" + Join(lines) == Join(lines);
    SaveExact(lines, "");
    LoadJoined(lines, []);
    assert [] + lines == lines;
  }

  // ----- opening and saving -----

  /** Bytes of a file that fit the buffer it is read into. */
  const READ_LIMIT: nat := 8191

  function Opened(file: string): Option<seq<string>> {
    Load(file[..Min(|file|, READ_LIMIT)])
  }

  predicate BreaksAt(text: string, i: nat) {
    i + MAX_COLS <= |text| ==> '\n' in text[i..i + MAX_COLS]
  }

  /** Among any 74 characters in a row there is a newline. */
  predicate ShortLines(text: string) {
    forall i: nat :: i <= |text| ==> BreaksAt(text, i)
  }

  lemma {:induction false} JoinEnd(done: seq<string>, s: string, t: string)
    ensures Join(done + [s + t]) == Join(done + [s]) + t
    ensures Join(done + [s] + [""]) == Join(done + [s]) + "\n"
    decreases |done|
  {
    if done == [] {
      assert done + [s] + [""] == [s, ""] && [s, ""][1..] == [""];
      assert Join([s, ""]) == s + "\n" + Join([""]);
    } else {
      JoinEnd(done[1..], s, t);
      assert (done + [s + t])[1..] == done[1..] + [s + t] && (done + [s])[1..] == done[1..] + [s];
      assert (done + [s] + [""])[1..] == done[1..] + [s] + [""];
    }
  }

  lemma ShortBehind(cur: string, rest: string)
    requires |cur| < MAX_COLS
    ensures ShortLines(cur + ("\n" + rest)) <==> ShortLines(rest)
  {
    var text := cur + ("\n" + rest);
    assert forall k :: 0 <= k <= |rest| ==> text[|cur| + 1 + k..] == rest[k..];
    if ShortLines(text) {
      forall i: nat | i <= |rest| ensures BreaksAt(rest, i) {
        assert BreaksAt(text, |cur| + 1 + i);
        if i + MAX_COLS <= |rest| { assert text[|cur| + 1 + i..|cur| + 1 + i + MAX_COLS] == rest[i..i + MAX_COLS]; }
      }
    }
    if ShortLines(rest) {
      forall i: nat | i <= |text| ensures BreaksAt(text, i) {
        if i + MAX_COLS <= |text| {
          if i <= |cur| {
            assert text[i..i + MAX_COLS][|cur| - i] == '\n';
          } else {
            assert BreaksAt(rest, i - |cur| - 1);
            assert text[i..i + MAX_COLS] == rest[i - |cur| - 1..i - |cur| - 1 + MAX_COLS];
          }
        }
      }
    }
  }

  /** A text was kept whole, or characters are missing. */
  predicate Kept(all: string, whole: string, clean: bool) {
    |all| <= |whole| && (|all| == |whole| <==> clean) && (clean ==> all == whole)
  }

  /** Loading drops carriage returns and what does not fit a line, and nothing else. */
  lemma {:induction false} LoadKeeps(text: string, done: seq<string>, cur: string)
    requires GoodLine(cur) && LoadFrom(text, done, cur).Some?
    ensures Kept(Join(LoadFrom(text, done, cur).value), Join(done + [cur]) + text, '\r' !in text && ShortLines(cur + text))
    decreases |text|
  {
    hide Join, ShortLines, Kept, GoodLine;
    if text == "" {
      GoodIsShort(cur);
      NothingDropped(Join(done + [cur]));
      assert cur + text == cur && Join(done + [cur]) + text == Join(done + [cur]);
    } else {
      var c, rest := text[0], text[1..];
      assert text == [c] + rest;
      if c == '\n' {
        EmptyIsGood();
        LoadKeeps(rest, done + [cur], "");
        NewlineKeeps(Join(LoadFrom(text, done, cur).value), done, cur, rest);
      } else if c != '\r' && |cur| < MAX_COLS - 1 {
        LongerIsGood(cur, c);
        LoadKeeps(rest, done, cur + [c]);
        CharKeeps(Join(LoadFrom(text, done, cur).value), done, cur, c, rest);
      } else {
        LoadKeeps(rest, done, cur);
        Dropped(Join(LoadFrom(rest, done, cur).value), Join(done + [cur]), c, rest, '\r' !in rest && ShortLines(cur + rest));
        if c != '\r' { TooLong(cur, c, rest); }
      }
    }
  }

  lemma GoodIsShort(cur: string)
    requires GoodLine(cur)
    ensures ShortLines(cur)
  {
  }

  lemma EmptyIsGood()
    ensures GoodLine("")
  {
  }

  lemma LongerIsGood(cur: string, c: char)
    requires GoodLine(cur) && |cur| < MAX_COLS - 1 && c != '\n' && c != '\r'
    ensures GoodLine(cur + [c])
  {
  }

  lemma NewlineKeeps(all: string, done: seq<string>, cur: string, rest: string)
    requires GoodLine(cur) && Kept(all, Join(done + [cur] + [""]) + rest, '\r' !in rest && ShortLines("" + rest))
    ensures Kept(all, Join(done + [cur]) + (['\n'] + rest), '\r' !in ['\n'] + rest && ShortLines(cur + (['\n'] + rest)))
  {
    hide Join, ShortLines, Kept;
    JoinEnd(done, cur, "");
    ShortBehind(cur, rest);
    assert "\n" + rest == ['\n'] + rest && "" + rest == rest;
    assert Join(done + [cur]) + (['\n'] + rest) == Join(done + [cur] + [""]) + rest;
  }

  lemma CharKeeps(all: string, done: seq<string>, cur: string, c: char, rest: string)
    requires c != '\r' && Kept(all, Join(done + [cur + [c]]) + rest, '\r' !in rest && ShortLines(cur + [c] + rest))
    ensures Kept(all, Join(done + [cur]) + ([c] + rest), '\r' !in [c] + rest && ShortLines(cur + ([c] + rest)))
  {
    hide Join, ShortLines, Kept;
    JoinEnd(done, cur, [c]);
    assert Join(done + [cur]) + ([c] + rest) == Join(done + [cur + [c]]) + rest && cur + [c] + rest == cur + ([c] + rest);
  }

  lemma NothingDropped(all: string)
    ensures Kept(all, all, true)
  {
  }

  lemma Dropped(all: string, front: string, c: char, rest: string, clean: bool)
    requires Kept(all, front + rest, clean)
    ensures Kept(all, front + ([c] + rest), false)
  {
  }

  lemma TooLong(cur: string, c: char, rest: string)
    requires GoodLine(cur) && |cur| >= MAX_COLS - 1 && c != '\n'
    ensures !ShortLines(cur + ([c] + rest))
  {
    var text := cur + ([c] + rest);
    assert text[0..MAX_COLS] == cur + [c];
    assert !BreaksAt(text, 0);
  }

  lemma {:induction false} SaveLength(lines: seq<string>, out: string)
    requires lines != []
    ensures |SaveFrom(lines, out)| <= |out| + |Join(lines)|
    decreases |lines|
  {
    if |out| < SAVE_LIMIT && |lines| > 1 {
      SaveLength(lines[1..], out + lines[0][..Min(|lines[0]|, SAVE_LIMIT - |out|)] + "\n");
    }
  }

  /** Opening a file and saving it unchanged keeps it exactly when it has no carriage
      return, no line of more than 73 characters and at most 127 newlines, and saving
      writes it in full. */
  lemma OpenThenSave(file: string)
    ensures Opened(file).Some? && Save(Opened(file).value) == file <==>
            '\r' !in file && ShortLines(file) && Newlines(file) < MAX_LINES && Saveable(file)
  {
    var text := file[..Min(|file|, READ_LIMIT)];
    LoadFits(text, [], "");
    if Load(text).Some? {
      var lines := Load(text).value;
      LoadKeeps(text, [], "");
      SaveLength(lines, "");
      SaveThenLoad(lines);
      assert Join([] + [""]) + text == text && "" + text == text;
    }
    if |file| <= READ_LIMIT { assert text == file; }
  }
}
