/**
 * The part of a DOM `keydown` event both input components look at.
 */
module Keyboard {

  /** `e.keyCode` and `e.key`. */
  datatype KeyEvent = KeyEvent(keyCode: int, key: string)

  /** The key code a browser reports while an input method (IME) is composing a character. */
  const ImeProcessKeyCode: int := 229

  /** The `key` value of the Enter key. */
  const EnterKey: string := "Enter"

  /** A keydown fired while a composition is in progress; both handlers ignore it. */
  predicate IsComposing(e: KeyEvent) {
    e.keyCode == ImeProcessKeyCode
  }

  /** A keydown that both handlers treat as "submit". */
  predicate IsSubmit(e: KeyEvent) {
    !IsComposing(e) && e.key == EnterKey
  }
}
