# ConfirmationCodeView: the slot logic of a PIN-entry widget, in Dafny

`ConfirmationCodeView` is an Android text field that shows a confirmation code
as a row of boxes, one per digit. This project models the logic behind the
boxes and proves properties about it:

- **Slots.** The widget keeps an array of `digitNumber` characters, where `'*'`
  (`EMPTY_SIGN`) marks an empty box.
- **Edits.** The slots are rewritten by `clear`, `setCode` and the text
  watcher's `afterTextChanged`.
- **Flags.** Two flags are changed by `alertPin` and `block`: `isAlerted` and
  `isBlocked` (the latter also drives `isEnabled`).
- **Change detection.** After every edit, `onTextChanged` may clear the alert.
  It reports the code once no box is empty.
- **Selection and layout.** The active box is computed by `findLastCharsIndex`.
  It gets the outline when drawn, and the caret when the field is clicked.
  `onDraw` also places the boxes with integer arithmetic.

The project has four modules:

- `Extensions` (extensions.dfy) holds Kotlin's nullable values as `Option`, and
  `orDefault`.
- `CodeEntry` (code_entry.dfy) holds the slot logic as values. It also has the
  library calls that logic relies on: `indexOf`, `lastIndexOf`, `getOrNull` and
  `joinToString`. The change-detection rule is written there as two functions,
  `AlertAfterChange` and `ChangeEvents`. The lemmas about that rule are in the
  same module.
- `Geometry` (geometry.dfy) holds the width formula and the left edge of each
  cell.
- `CodeView` (code_view.dfy) holds the class `ConfirmationCodeView`. Its fields
  are the slot array `chars: array<char>`, the field's `text`, the flags, and
  `events`. `events` is the log of listener calls (`CodeEntered(code)`,
  `AlertChanged(b)`) in the order the widget makes them.

Each method that changes state states its whole new state in terms of the
`CodeEntry` functions. What those functions promise is proved as lemmas.

Three behaviours of the code are worth stating plainly:

- **A code containing `'*'`.** It is never reported as entered: the code is
  reported only when `lastIndexOf('*') == -1` (`NoCompletionWithEmptySign`).
- **Repeated reports.** A full code is reported on every change detection that
  finds no empty slot. Repeating `setCode` with a full code reports it again
  (`CompletionIffFull`).
- **Alert reports.** Every assignment to `isAlerted` is reported. This includes
  `alertPin()` on a widget that is already alerted (`AlertPin`).

## Model

| member | source | states |
|---|---|---|
| `Extensions.OrDefault` | mylibrary/src/main/java/com/chanov/mylibrary/extensions.kt:3 | the receiver when it is non-null, else the default; a non-null default gives a non-null result |
| `Extensions.OrDefaultIdempotent` | mylibrary/src/main/java/com/chanov/mylibrary/extensions.kt:3 | applying `orDefault` twice with the same default is the same as applying it once |
| `Extensions.OrDefaultPicksOne` | mylibrary/src/main/java/com/chanov/mylibrary/extensions.kt:3 | the result is the receiver or the default, and is null only when both are |
| `CodeEntry.IndexOf` | mylibrary/src/main/java/com/chanov/mylibrary/ConfirmationCodeView.kt:159 | `indexOf` is -1 exactly when the character is absent; otherwise it is a position holding it with no earlier occurrence |
| `CodeEntry.LastIndexOf` | mylibrary/src/main/java/com/chanov/mylibrary/ConfirmationCodeView.kt:163 | `lastIndexOf` is -1 exactly when the character is absent; otherwise it is a position holding it with no later occurrence |
| `CodeEntry.GetOrNull` | mylibrary/src/main/java/com/chanov/mylibrary/ConfirmationCodeView.kt:251 | `getOrNull(i)` is non-null exactly for indices inside the string, and then it is that character |
| `CodeEntry.EmptySlots` | mylibrary/src/main/java/com/chanov/mylibrary/ConfirmationCodeView.kt:152 | the slots of `createChars`: `digitNumber` of them, each the empty sign |
| `CodeEntry.TextSlots` | mylibrary/src/main/java/com/chanov/mylibrary/ConfirmationCodeView.kt:250-252 | the watcher's slots: `digitNumber` of them; slot i is the text's i-th character when the text has one, else the empty sign |
| `CodeEntry.FindLastCharsIndex` | mylibrary/src/main/java/com/chanov/mylibrary/ConfirmationCodeView.kt:206-214 | never beyond the text length; with an empty slot it is the first empty slot, or the text length when the text ends before that slot; with none it is the default capped at the text length |
| `CodeEntry.JoinWithoutSeparator` | mylibrary/src/main/java/com/chanov/mylibrary/ConfirmationCodeView.kt:231-233 | joining the slots with the empty separator gives back exactly the slots, so `getCode` loses nothing (proved by induction) |
| `CodeEntry.CharPositionIsStride` | mylibrary/src/main/java/com/chanov/mylibrary/ConfirmationCodeView.kt:232 | in a joined string, character i sits at i times (1 + the separator's length) |
| `CodeEntry.JoinLength` | mylibrary/src/main/java/com/chanov/mylibrary/ConfirmationCodeView.kt:232 | a non-empty joined string of n characters has length n + (n - 1) times the separator's length, and ends with its last character |
| `CodeEntry.JoinCharAt` | mylibrary/src/main/java/com/chanov/mylibrary/ConfirmationCodeView.kt:232 | character i of the input is at its position in the joined string |
| `CodeEntry.JoinSeparatorAt` | mylibrary/src/main/java/com/chanov/mylibrary/ConfirmationCodeView.kt:232 | exactly the separator lies between the positions of characters i and i+1 of a joined string |
| `CodeEntry.CompletionIffFull` | mylibrary/src/main/java/com/chanov/mylibrary/ConfirmationCodeView.kt:163-165 | change detection reports a code if and only if no slot is empty, and the code it reports, as its last event, is the slots themselves, whatever the alert state |
| `CodeEntry.AlertClearedIff` | mylibrary/src/main/java/com/chanov/mylibrary/ConfirmationCodeView.kt:159-161 | the alert is cleared and `AlertChanged(false)` is reported if and only if the widget was alerted and slot 0 is filled (or there are no slots); otherwise an alerted widget stays alerted; change detection never reports `AlertChanged(true)` |
| `CodeEntry.NoCompletionWithEmptySign` | mylibrary/src/main/java/com/chanov/mylibrary/ConfirmationCodeView.kt:235-243 | slots that still hold an empty sign (for instance a `setCode` argument containing `'*'`) report no code; the only possible event is the alert being cleared |
| `CodeEntry.EmptySlotsAreQuiet` | mylibrary/src/main/java/com/chanov/mylibrary/ConfirmationCodeView.kt:147-152 | with at least one slot, change detection over fresh empty slots reports nothing and keeps the alert flag |
| `CodeEntry.TypingReportsOnce` | mylibrary/src/main/java/com/chanov/mylibrary/ConfirmationCodeView.kt:247-255 | typing a code of `digitNumber` digits one character at a time into an unalerted widget reports nothing for each proper prefix, and reports the typed code exactly once after the last digit |
| `CodeEntry.ActiveCellAfterTyping` | mylibrary/src/main/java/com/chanov/mylibrary/ConfirmationCodeView.kt:206-214 | after typing fewer than `digitNumber` digits, the active cell (for any default) is the next one to fill, at index equal to the number typed |
| `CodeEntry.OutlineAndCaret` | mylibrary/src/main/java/com/chanov/mylibrary/ConfirmationCodeView.kt:179 | the outline (default 0) and the click caret (default `digitNumber`) land on the same index while some slot is empty; once all are full the outline falls back to cell 0 and the caret to the end of the text |
| `Geometry.HalfTowardZero` | mylibrary/src/main/java/com/chanov/mylibrary/ConfirmationCodeView.kt:176 | Kotlin's `rectWidth / 2` rounds toward zero: the remainder is 0 or 1 and has the sign of the dividend |
| `Geometry.CellGap` | mylibrary/src/main/java/com/chanov/mylibrary/ConfirmationCodeView.kt:175-184 | the gap between cell i's right edge and cell i+1's left edge is `digitExtraSpace` |
| `Geometry.LastCellFillsWidth` | mylibrary/src/main/java/com/chanov/mylibrary/ConfirmationCodeView.kt:133-134 | with at least one cell, the last cell's right edge plus one gap equals the left padding plus the configured width |
| `CodeView.ConfirmationCodeView.constructor` | mylibrary/src/main/java/com/chanov/mylibrary/ConfirmationCodeView.kt:84-145 | configuration: all slots empty, empty text, neither alerted nor blocked, no events, no padding, width from the width formula, height from the digit height |
| `CodeView.ConfirmationCodeView.CreateChars` | mylibrary/src/main/java/com/chanov/mylibrary/ConfirmationCodeView.kt:152 | a new array of `digitNumber` empty slots |
| `CodeView.ConfirmationCodeView.SetIsAlerted` | mylibrary/src/main/java/com/chanov/mylibrary/ConfirmationCodeView.kt:45-49 | the flag takes the value and `AlertChanged(value)` is appended, on every assignment |
| `CodeView.ConfirmationCodeView.SetIsBlocked` | mylibrary/src/main/java/com/chanov/mylibrary/ConfirmationCodeView.kt:50-57 | blocked takes the value and enabled its negation; nothing else changes |
| `CodeView.ConfirmationCodeView.AlertPin` | mylibrary/src/main/java/com/chanov/mylibrary/ConfirmationCodeView.kt:71-74 | afterwards the widget is alerted and `AlertChanged(true)` is appended, even when it was already alerted |
| `CodeView.ConfirmationCodeView.Block` | mylibrary/src/main/java/com/chanov/mylibrary/ConfirmationCodeView.kt:154-156 | sets blocked and clears or sets enabled; slots, text, alert flag and events are untouched |
| `CodeView.ConfirmationCodeView.GetCode` | mylibrary/src/main/java/com/chanov/mylibrary/ConfirmationCodeView.kt:231-233 | the code read back is exactly the slot contents |
| `CodeView.ConfirmationCodeView.OnTextChanged` | mylibrary/src/main/java/com/chanov/mylibrary/ConfirmationCodeView.kt:158-166 | the alert flag becomes `AlertAfterChange` and exactly `ChangeEvents` of the current slots is appended; the slots are untouched |
| `CodeView.ConfirmationCodeView.SetCode` | mylibrary/src/main/java/com/chanov/mylibrary/ConfirmationCodeView.kt:235-243 | a code of length `digitNumber` becomes the slots, followed by change detection over it; any other length leaves slots, alert flag and events unchanged |
| `CodeView.ConfirmationCodeView.AfterTextChanged` | mylibrary/src/main/java/com/chanov/mylibrary/ConfirmationCodeView.kt:247-255 | when not blocked the slots become the text padded with empty signs (a null text counts as empty), then change detection runs; when blocked nothing changes and nothing is reported |
| `CodeView.ConfirmationCodeView.SetText` | mylibrary/src/main/java/com/chanov/mylibrary/ConfirmationCodeView.kt:149 | the field's text becomes `s`, as `setText` (line 149) or the user's typing does. The watcher registered at line 92 then runs, with the same blocked and unblocked cases as `AfterTextChanged`. The length filter of line 119 keeps `s` within `digitNumber` |
| `CodeView.ConfirmationCodeView.Clear` | mylibrary/src/main/java/com/chanov/mylibrary/ConfirmationCodeView.kt:147-150 | fresh all-empty slots and an empty text; with at least one slot (or when blocked) the alert flag and the events are unchanged |
| `CodeView.ConfirmationCodeView.SelectionOnClick` | mylibrary/src/main/java/com/chanov/mylibrary/ConfirmationCodeView.kt:94-99 | the caret index is always a valid selection (between 0 and the text length); it is at the first empty slot unless the text ends first, and at the end of the text when every slot is full |
| `CodeView.ConfirmationCodeView.Draw` | mylibrary/src/main/java/com/chanov/mylibrary/ConfirmationCodeView.kt:168-204 | the alert paint is chosen exactly when alerted; cell i spans `CellLeft(i)` to `CellLeft(i) + rectWidth` and its digit is centred at `CellLeft(i) + rectWidth/2`; it is outlined exactly when it is the active cell (default 0); a digit is drawn exactly in the non-empty cells |

## Left out

- **Drawing.** All `Canvas` and `Paint` calls, the colours, and the text
  baseline `textY` are left out; `textY` is floating point. The vertical extent
  of each box is left out too (`boxStrokeWidth / 2`, and `height` converted to
  float). `Draw` returns the integer horizontal layout, which cell gets the
  outline, and which digit is drawn where.
- **Attribute parsing.** The styled attributes are not read and there are no
  resource lookups. The values the model uses are constructor parameters:
  `digitNumber`, `rectWidth`, `digitExtraSpace` and `digitHeight`.
  `boxStrokeWidth`, `rectRadius` and the colours only affect painting.
  `digitWidth` is read but never used.
- **Negative `digitNumber`.** It would make `CharArray` throw, so the model
  types `digitNumber` as a natural number. Zero slots is allowed, as in the
  source.
- **The one-argument constructor.** It registers no watcher and no click
  listener, so it is not modelled.
- **Redraw requests.** Every `invalidate()` call is left out.
- **Focus and keyboard.** `requestFocusAndShowKeyboard` when the widget is
  unblocked or clicked is left out. So is `setSelection` on click. Only the
  caret index is kept (`SelectionOnClick`). KeyBoardUtils.kt is not part of
  this model.
- **Listener objects.** `events` records every call the widget makes through
  `listener?.…`. When no listener is registered, Kotlin's safe call `?.`
  skips the call. The model does not track whether a listener is registered.
- **Listeners that call back into the widget.** The model assumes that
  listeners do not call back into the widget. The alert listener is called
  synchronously, before the completion check. A listener that called
  `clear()` or `setCode` there would change the slots that check sees.
  `OnTextChanged`, and through it `CompletionIffFull` ("the code reported is
  the slots"), rely on that assumption.
- **The length filter.** It is modelled as the precondition
  `|s| <= digitNumber` of `SetText`. Its truncation of longer insertions is
  not modelled.
- **The text watcher's other callbacks.** `beforeTextChanged` and its
  `onTextChanged` do nothing, so they are not modelled.
- **Outside changes to the view.** The host may change the padding or the
  enabled flag itself through the view's API. The model does not cover this:
  padding is fixed at 0, as `init` sets it, and `isEnabled` only changes
  through `block`.
- **Text set by the superclass.** Text set from XML attributes before the
  watcher is registered is not modelled; the model starts with an empty text.
- **Integer overflow.** Kotlin's 32-bit `Int` can overflow in the width and
  offset arithmetic; the model uses unbounded integers, so this is not
  modelled. It needs pixel sizes far beyond any screen.
- `SetCode`, `AfterTextChanged` (with `TextSlots`) and `SetText`: Kotlin's
  `Char` is a UTF-16 code unit, and `String.length` and indexing count code
  units. A Dafny `char` is a Unicode scalar value. So characters outside the
  Basic Multilingual Plane are counted and stored differently. For example, a
  code with one emoji has one character more in Kotlin than in the model. It
  passes `setCode`'s length check with one character fewer, and its two
  surrogate halves fill two slots.
