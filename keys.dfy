/**
  The two key enumerations the repository translates between: the listener's
  keys (module Rdev, the keys reported by the global keyboard hook) and the
  injector's keys (module Enigo, the keys that synthetic input is sent for),
  together with the two calls the injector offers.
*/
module Enigo {

  /** The injector's key. `Layout` is a character key; the named variants are
      those the repository mentions; `Unlisted(name)` stands for every other
      variant of the injector's enumeration, `name` being its derived `Debug` text. */
  datatype Key =
    | Layout(c: char)
    | Space | Return | Backspace | Tab | Escape
    | UpArrow | DownArrow | LeftArrow | RightArrow
    | Shift | Control | Alt | Meta
    | Unlisted(name: string)

  /** The injector's two entry points, as recorded in an output trace. */
  datatype Call = KeyDown(key: Key) | KeyUp(key: Key)
}

module Rdev {

  type Upper = c: char | 'A' <= c <= 'Z' witness 'A'
  type Digit = d: nat | d < 10
  type FnNumber = n: nat | 1 <= n <= 12 witness 1

  /** The listener's key. `KeyLetter(c)` is `KeyA` … `KeyZ`, `Num(d)` is
      `Num0` … `Num9`, `F(n)` is `F1` … `F12`; `Unlisted(code)` stands for
      every other key the listener can report. */
  datatype Key =
    | KeyLetter(letter: Upper)
    | Num(digit: Digit)
    | F(n: FnNumber)
    | Space | Return | Backspace | Tab | Escape
    | UpArrow | DownArrow | LeftArrow | RightArrow
    | ShiftLeft | ShiftRight | ControlLeft | ControlRight
    | Alt | AltGr | MetaLeft | MetaRight
    | Unlisted(code: nat)
}
