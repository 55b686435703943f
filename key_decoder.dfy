/** Translation of a physical key event into the text the active keyboard
    layout would type. The static keycode-to-name table and the live layout
    table are external data and are passed in. */
module KeyDecoder {
  import opened JsValues

  const KeyBackspace := "Backspace"
  const KeyTab := "Tab"
  const KeyArrows := ["ArrowUp", "ArrowDown", "ArrowLeft", "ArrowRight"]

  datatype KeyEvent = KeyEvent(keycode: int, shiftKey: bool, altKey: bool, ctrlKey: bool, metaKey: bool)

  /** One key of the live layout table; a field the layout does not define is `None`. */
  datatype LayoutEntry = LayoutEntry(
    value: Option<string>,
    withShift: Option<string>,
    withAltGr: Option<string>,
    withShiftAltGr: Option<string>)

  /** Keycode to symbolic key name (the `chars` table). */
  type CharTable = map<int, string>
  /** Key name to layout entry (the result of fetching the current keymap). */
  type KeyMap = map<string, LayoutEntry>

  /** The key name of a keycode, `None` (the source's `null`) when the table has none. */
  function CharNameFromKeycode(chars: CharTable, keycode: int): (r: Option<string>)
    ensures r.Some? <==> keycode in chars
    ensures r.Some? ==> r.value == chars[keycode]
  {
    if keycode in chars then Some(chars[keycode]) else None
  }

  function IsBackspace(chars: CharTable, keycode: int): (r: bool)
    ensures r <==> keycode in chars && chars[keycode] == KeyBackspace
  {
    CharNameFromKeycode(chars, keycode) == Some(KeyBackspace)
  }

  /** Whether the key leaves the linear typing context: Backspace with the
      option key, Tab, or an arrow key. */
  function ShouldResetBuffer(chars: CharTable, ev: KeyEvent): (r: bool)
    ensures r <==> ev.keycode in chars &&
                   ((chars[ev.keycode] == KeyBackspace && ev.altKey) ||
                    chars[ev.keycode] == KeyTab ||
                    chars[ev.keycode] in KeyArrows)
  {
    var pressed := CharNameFromKeycode(chars, ev.keycode);
    (pressed == Some(KeyBackspace) && ev.altKey)
      || pressed == Some(KeyTab)
      || (pressed.Some? && pressed.value in KeyArrows)
  }

  /** A text field of a layout entry counts only when it is present and non-empty
      (the source tests the field for truthiness). */
  function Printable(field: Option<string>): Option<string> {
    if field.Some? && field.value != "" then field else None
  }

  /** The character the event types, or `None`, following the source's chain of
      modifier tests. */
  function EventToUnicode(chars: CharTable, keymap: KeyMap, ev: KeyEvent): (r: Option<string>)
    ensures ev.ctrlKey || ev.metaKey ==> r == None
    ensures ev.keycode !in chars ==> r == None
    ensures ev.keycode in chars && chars[ev.keycode] !in keymap ==> r == None
    ensures r.Some? ==> r.value != ""
    ensures r == DecodeByTable(chars, keymap, ev)
  {
    var name := CharNameFromKeycode(chars, ev.keycode);
    if name.None? || name.value == "" || name.value !in keymap then None
    else
      var entry := keymap[name.value];
      var value :=
        if ev.shiftKey && ev.altKey && !ev.ctrlKey && !ev.metaKey then entry.withShiftAltGr
        else if ev.shiftKey && !ev.ctrlKey && !ev.metaKey then entry.withShift
        else if ev.altKey && !ev.ctrlKey && !ev.metaKey then entry.withAltGr
        else if !ev.ctrlKey && !ev.metaKey then entry.value
        else None;
      Printable(value)
  }

  /** The four text fields of a layout entry. */
  datatype Field = ShiftAltGr | Shift | AltGr | Base

  function FieldOf(entry: LayoutEntry, f: Field): Option<string> {
    match f
    case ShiftAltGr => entry.withShiftAltGr
    case Shift => entry.withShift
    case AltGr => entry.withAltGr
    case Base => entry.value
  }

  /** The modifier table: control and command chords read no field; otherwise
      shift and option together read `withShiftAltGr`, shift alone `withShift`,
      option alone `withAltGr` and no modifier the base `value`. */
  function SelectedField(ev: KeyEvent): Option<Field> {
    if ev.ctrlKey || ev.metaKey then None
    else
      match (ev.shiftKey, ev.altKey)
      case (true, true) => Some(ShiftAltGr)
      case (true, false) => Some(Shift)
      case (false, true) => Some(AltGr)
      case (false, false) => Some(Base)
  }

  /** Decoding stated as a table lookup: a known, non-empty key name present in
      the layout, the field the modifiers select, and a non-empty text there. */
  function DecodeByTable(chars: CharTable, keymap: KeyMap, ev: KeyEvent): Option<string> {
    if ev.keycode in chars && chars[ev.keycode] != "" && chars[ev.keycode] in keymap then
      match SelectedField(ev)
      case None => None
      case Some(f) => Printable(FieldOf(keymap[chars[ev.keycode]], f))
    else None
  }
}
