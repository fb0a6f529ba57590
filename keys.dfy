/** Key events as the terminal delivers them. */
module Keys {
  datatype KeyCode =
    | Char(c: char)
    | Tab
    | BackTab
    | Enter
    | Esc
    | Backspace
    | Delete
    | Left
    | Right
    | Up
    | Down
    | Other

  datatype KeyKind = Press | Repeat | Release

  /** A key, whether it was pressed, repeated or released, and whether Control or Alt
      was held. */
  datatype KeyEvent = KeyEvent(code: KeyCode, kind: KeyKind, ctrl: bool, alt: bool)
}
