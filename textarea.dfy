/**
 * The multi-line text widget the form's fields are edited in: a list of lines
 * (never empty) and a cursor given by line and character position.
 */
module TextArea {
  import opened Text
  import opened Keys

  datatype Area = Area(lines: seq<string>, row: nat, col: nat)

  predicate AreaOk(a: Area) {
    |a.lines| >= 1 && a.row < |a.lines| && a.col <= |a.lines[a.row]|
  }

  /** `TextArea::new`: the given lines, or one empty line when there are none; the cursor
      at the very start. */
  function NewArea(lines: seq<string>): (a: Area)
    ensures AreaOk(a) && a.row == 0 && a.col == 0
    ensures lines != [] ==> a.lines == lines
    ensures lines == [] ==> a.lines == [""]
  {
    Area(if lines == [] then [""] else lines, 0, 0)
  }

  /** `TextArea::default`. */
  const EmptyArea: Area := Area([""], 0, 0)

  /** Every line followed by a line break. */
  function Prefix(ls: seq<string>): string {
    if ls == [] then [] else ls[0] + "\n" + Prefix(ls[1..])
  }

  /** Every line preceded by a line break. */
  function Suffix(ls: seq<string>): string {
    if ls == [] then [] else "\n" + ls[0] + Suffix(ls[1..])
  }

  /** The whole text: what `lines().join("\n")` gives. */
  function Content(a: Area): string {
    Join(a.lines, "\n")
  }

  /** The text before the cursor. */
  function Before(a: Area): string
    requires AreaOk(a)
  {
    Prefix(a.lines[..a.row]) + a.lines[a.row][..a.col]
  }

  /** The text after the cursor. */
  function After(a: Area): string
    requires AreaOk(a)
  {
    a.lines[a.row][a.col..] + Suffix(a.lines[a.row + 1..])
  }

  /** `TextArea::default` is a new editor with no lines: empty text, the cursor at the
      start with nothing before or after it. */
  lemma EmptyAreaIsNew()
    ensures EmptyArea == NewArea([]) && AreaOk(EmptyArea)
    ensures Content(EmptyArea) == "" && Before(EmptyArea) == "" && After(EmptyArea) == ""
  {
  }

  lemma {:induction false} PrefixSnoc(ls: seq<string>, s: string)
    ensures Prefix(ls + [s]) == Prefix(ls) + s + "\n"
  {
    if ls == [] {
      assert ls + [s] == [s];
      assert [s][1..] == [];
    } else {
      assert (ls + [s])[1..] == ls[1..] + [s];
      PrefixSnoc(ls[1..], s);
    }
  }

  lemma {:induction false} JoinAsSuffix(ls: seq<string>)
    requires ls != []
    ensures Join(ls, "\n") == ls[0] + Suffix(ls[1..])
  {
    if |ls| > 1 {
      JoinAsSuffix(ls[1..]);
      assert ls[1..][1..] == ls[2..];
    }
  }

  lemma {:induction false} JoinAround(ls: seq<string>, i: nat)
    requires i < |ls|
    ensures Join(ls, "\n") == Prefix(ls[..i]) + ls[i] + Suffix(ls[i + 1..])
  {
    if i == 0 {
      JoinAsSuffix(ls);
      assert ls[..0] == [];
    } else {
      JoinAround(ls[1..], i - 1);
      assert ls[1..][..i - 1] == ls[1..i];
      assert ls[1..][i - 1 + 1..] == ls[i + 1..];
      assert ls[..i][1..] == ls[1..i];
    }
  }

  /** The cursor splits the text in two: nothing is lost or doubled between them. */
  lemma ContentSplit(a: Area)
    requires AreaOk(a)
    ensures Content(a) == Before(a) + After(a)
  {
    var x := a.lines[a.row];
    JoinAround(a.lines, a.row);
    assert x == x[..a.col] + x[a.col..];
  }

  function Min(a: nat, b: nat): nat {
    if a < b then a else b
  }

  /** `TextArea::input` for one key: a character is inserted at the cursor, Enter breaks
      the line at the cursor, Backspace and Delete remove the character before or after
      the cursor (joining lines at a line boundary), and the arrows move the cursor. Keys
      held with Control or Alt are not followed by this model and change nothing. */
  function Input(a: Area, k: KeyEvent): (r: Area)
    requires AreaOk(a)
    ensures AreaOk(r)
    ensures k.ctrl || k.alt ==> r == a
  {
    var x := a.lines[a.row];
    if k.ctrl || k.alt then a
    else
      match k.code
      case Char(c) =>
        a.(lines := a.lines[a.row := x[..a.col] + [c] + x[a.col..]], col := a.col + 1)
      case Enter =>
        Area(a.lines[..a.row] + [x[..a.col], x[a.col..]] + a.lines[a.row + 1..], a.row + 1, 0)
      case Backspace =>
        if a.col > 0 then a.(lines := a.lines[a.row := x[..a.col - 1] + x[a.col..]], col := a.col - 1)
        else if a.row > 0 then
          var p := a.lines[a.row - 1];
          Area(a.lines[..a.row - 1] + [p + x] + a.lines[a.row + 1..], a.row - 1, |p|)
        else a
      case Delete =>
        if a.col < |x| then a.(lines := a.lines[a.row := x[..a.col] + x[a.col + 1..]])
        else if a.row + 1 < |a.lines| then
          Area(a.lines[..a.row] + [x + a.lines[a.row + 1]] + a.lines[a.row + 2..], a.row, a.col)
        else a
      case Left =>
        if a.col > 0 then a.(col := a.col - 1)
        else if a.row > 0 then a.(row := a.row - 1, col := |a.lines[a.row - 1]|)
        else a
      case Right =>
        if a.col < |x| then a.(col := a.col + 1)
        else if a.row + 1 < |a.lines| then a.(row := a.row + 1, col := 0)
        else a
      case Up =>
        if a.row > 0 then a.(row := a.row - 1, col := Min(a.col, |a.lines[a.row - 1]|)) else a
      case Down =>
        if a.row + 1 < |a.lines| then a.(row := a.row + 1, col := Min(a.col, |a.lines[a.row + 1]|)) else a
      case _ => a
  }

  /** A character goes in right before the cursor. */
  lemma InsertCharEdit(a: Area, c: char, kind: KeyKind)
    requires AreaOk(a)
    ensures var r := Input(a, KeyEvent(Char(c), kind, false, false));
      Before(r) == Before(a) + [c] && After(r) == After(a)
  {
    var r := Input(a, KeyEvent(Char(c), kind, false, false));
    var x := a.lines[a.row];
    var y := x[..a.col] + [c] + x[a.col..];
    assert r.lines[..a.row] == a.lines[..a.row];
    assert r.lines[a.row + 1..] == a.lines[a.row + 1..];
    assert y[..a.col + 1] == x[..a.col] + [c];
    assert y[a.col + 1..] == x[a.col..];
  }

  /** Enter puts a line break right before the cursor. */
  lemma NewlineEdit(a: Area, kind: KeyKind)
    requires AreaOk(a)
    ensures var r := Input(a, KeyEvent(Enter, kind, false, false));
      Before(r) == Before(a) + "\n" && After(r) == After(a)
  {
    var r := Input(a, KeyEvent(Enter, kind, false, false));
    var x := a.lines[a.row];
    assert r.lines[..a.row + 1] == a.lines[..a.row] + [x[..a.col]];
    PrefixSnoc(a.lines[..a.row], x[..a.col]);
    assert r.lines[a.row + 1] == x[a.col..];
    assert r.lines[a.row + 2..] == a.lines[a.row + 1..];
  }

  /** Backspace removes the character right before the cursor, if any. */
  lemma BackspaceEdit(a: Area, kind: KeyKind)
    requires AreaOk(a)
    ensures var r := Input(a, KeyEvent(Backspace, kind, false, false));
      Before(r) == DropLast(Before(a)) && After(r) == After(a)
  {
    var r := Input(a, KeyEvent(Backspace, kind, false, false));
    var x := a.lines[a.row];
    if a.col > 0 {
      assert r == a.(lines := a.lines[a.row := x[..a.col - 1] + x[a.col..]], col := a.col - 1);
      BackspaceInLine(a);
    } else if a.row > 0 {
      var p := a.lines[a.row - 1];
      assert r == Area(a.lines[..a.row - 1] + [p + x] + a.lines[a.row + 1..], a.row - 1, |p|);
      JoinWithPrevious(a);
    } else {
      assert r == a;
      assert a.lines[..0] == [];
    }
  }

  lemma BackspaceInLine(a: Area)
    requires AreaOk(a) && a.col > 0
    ensures var x := a.lines[a.row];
      var r := a.(lines := a.lines[a.row := x[..a.col - 1] + x[a.col..]], col := a.col - 1);
      AreaOk(r) && Before(r) == DropLast(Before(a)) && After(r) == After(a)
  {
    var x := a.lines[a.row];
    var y := x[..a.col - 1] + x[a.col..];
    var r := a.(lines := a.lines[a.row := y], col := a.col - 1);
    assert r.lines[..a.row] == a.lines[..a.row];
    assert r.lines[a.row + 1..] == a.lines[a.row + 1..];
    assert y[..a.col - 1] == x[..a.col - 1];
    assert y[a.col - 1..] == x[a.col..];
    assert x[..a.col] == x[..a.col - 1] + [x[a.col - 1]];
  }

  /** Backspace at the start of a line joins it to the previous one. */
  lemma JoinWithPrevious(a: Area)
    requires AreaOk(a) && a.col == 0 && a.row > 0
    ensures var p := a.lines[a.row - 1];
      var r := Area(a.lines[..a.row - 1] + [p + a.lines[a.row]] + a.lines[a.row + 1..], a.row - 1, |p|);
      AreaOk(r) && Before(r) == DropLast(Before(a)) && After(r) == After(a)
  {
    var x := a.lines[a.row];
    var p := a.lines[a.row - 1];
    var r := Area(a.lines[..a.row - 1] + [p + x] + a.lines[a.row + 1..], a.row - 1, |p|);
    assert r.lines[..a.row - 1] == a.lines[..a.row - 1];
    assert r.lines[a.row - 1] == p + x;
    assert r.lines[a.row..] == a.lines[a.row + 1..];
    assert a.lines[..a.row] == a.lines[..a.row - 1] + [p];
    PrefixSnoc(a.lines[..a.row - 1], p);
    assert (p + x)[..|p|] == p;
    assert (p + x)[|p|..] == x;
  }

  /** Delete removes the character right after the cursor, if any. */
  lemma DeleteEdit(a: Area, kind: KeyKind)
    requires AreaOk(a)
    ensures var r := Input(a, KeyEvent(Delete, kind, false, false));
      Before(r) == Before(a) && After(r) == if After(a) == [] then [] else After(a)[1..]
  {
    var r := Input(a, KeyEvent(Delete, kind, false, false));
    var x := a.lines[a.row];
    if a.col < |x| {
      var y := x[..a.col] + x[a.col + 1..];
      assert r == a.(lines := a.lines[a.row := y]);
      assert r.lines[..a.row] == a.lines[..a.row];
      assert r.lines[a.row + 1..] == a.lines[a.row + 1..];
      assert y[..a.col] == x[..a.col];
      assert y[a.col..] == x[a.col + 1..];
      assert x[a.col..] == [x[a.col]] + x[a.col + 1..];
    } else if a.row + 1 < |a.lines| {
      var n := a.lines[a.row + 1];
      assert r == Area(a.lines[..a.row] + [x + n] + a.lines[a.row + 2..], a.row, a.col);
      assert r.lines[..a.row] == a.lines[..a.row];
      assert r.lines[a.row] == x + n;
      assert r.lines[a.row + 1..] == a.lines[a.row + 2..];
      assert a.lines[a.row + 1..][1..] == a.lines[a.row + 2..];
      assert (x + n)[..a.col] == x[..a.col];
      assert (x + n)[a.col..] == n;
      assert x[a.col..] == [];
    } else {
      assert r == a;
      assert a.lines[a.row + 1..] == [];
      assert x[a.col..] == [];
    }
  }

  /** Left moves the cursor back over one character of the unchanged text. */
  lemma MoveLeftEdit(a: Area, kind: KeyKind)
    requires AreaOk(a)
    ensures var r := Input(a, KeyEvent(Left, kind, false, false));
      r.lines == a.lines && Before(r) == DropLast(Before(a))
  {
    var r := Input(a, KeyEvent(Left, kind, false, false));
    var x := a.lines[a.row];
    if a.col > 0 {
      assert r == a.(col := a.col - 1);
      assert x[..a.col] == x[..a.col - 1] + [x[a.col - 1]];
    } else if a.row > 0 {
      var p := a.lines[a.row - 1];
      assert r == a.(row := a.row - 1, col := |p|);
      assert a.lines[..a.row] == a.lines[..a.row - 1] + [p];
      PrefixSnoc(a.lines[..a.row - 1], p);
    } else {
      assert r == a;
      assert a.lines[..0] == [];
    }
  }

  /** Right moves the cursor forward over one character of the unchanged text. */
  lemma MoveRightEdit(a: Area, kind: KeyKind)
    requires AreaOk(a)
    ensures var r := Input(a, KeyEvent(Right, kind, false, false));
      r.lines == a.lines && After(r) == if After(a) == [] then [] else After(a)[1..]
  {
    var r := Input(a, KeyEvent(Right, kind, false, false));
    var x := a.lines[a.row];
    if a.col < |x| {
      assert x[a.col..] == [x[a.col]] + x[a.col + 1..];
    } else if a.row + 1 < |a.lines| {
      assert a.lines[a.row + 1..][1..] == a.lines[a.row + 2..];
      assert x[a.col..] == [];
    } else {
      assert a.lines[a.row + 1..] == [];
      assert x[a.col..] == [];
    }
  }

  /** `insert_str` of a text without line breaks. */
  function InsertText(a: Area, s: string): (r: Area)
    requires AreaOk(a) && '\n' !in s
    ensures AreaOk(r)
    ensures Before(r) == Before(a) + s && After(r) == After(a)
  {
    var x := a.lines[a.row];
    var y := x[..a.col] + s + x[a.col..];
    var r := a.(lines := a.lines[a.row := y], col := a.col + |s|);
    assert r.lines[..a.row] == a.lines[..a.row];
    assert r.lines[a.row + 1..] == a.lines[a.row + 1..];
    assert y[..a.col + |s|] == x[..a.col] + s;
    assert y[a.col + |s|..] == x[a.col..];
    r
  }
}
