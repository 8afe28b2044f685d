/**
 * The confirmation-code widget: a fixed row of character slots fed by the text
 * field, two flags (alerted, blocked) and the calls it makes on its listeners,
 * which are appended to `events` in the order the widget makes them.
 */
module CodeView {
  import opened Extensions
  import opened CodeEntry
  import opened Geometry

  /** What `onDraw` paints for one cell: its horizontal extent, the outline, the digit and where it is centred. */
  datatype CellDraw = CellDraw(left: int, right: int, outlined: bool, digit: Option<char>, digitX: int)

  class ConfirmationCodeView {
    // configuration, fixed once the attributes are read
    const digitNumber: nat
    const rectWidth: int
    const digitExtraSpace: int
    const paddingLeft: int
    const width: int
    const height: int

    // the slots, the text in the field and the two flags
    var chars: array<char>
    var text: string
    var isAlerted: bool
    var isBlocked: bool
    var isEnabled: bool

    // every listener call made so far, oldest first
    var events: seq<Event>

    /** The slot array keeps its length, the length filter bounds the text, and enabled mirrors blocked. */
    ghost predicate Valid()
      reads this
    {
      chars.Length == digitNumber && |text| <= digitNumber && isEnabled == !isBlocked
    }

    /** The two-argument constructor path, which runs `init` with the configured attributes. */
    constructor (digitNumber: nat, rectWidth: int, digitExtraSpace: int, digitHeight: int)
      ensures Valid() && fresh(chars)
      ensures this.digitNumber == digitNumber && this.rectWidth == rectWidth
      ensures this.digitExtraSpace == digitExtraSpace && height == digitHeight
      ensures paddingLeft == 0 && width == TotalWidth(rectWidth, digitExtraSpace, digitNumber)
      ensures chars[..] == EmptySlots(digitNumber) && text == ""
      ensures !isAlerted && !isBlocked && events == []
    {
      this.digitNumber := digitNumber;
      this.rectWidth := rectWidth;
      this.digitExtraSpace := digitExtraSpace;
      paddingLeft := 0;
      width := rectWidth * digitNumber + digitExtraSpace * (digitNumber + 1);
      height := digitHeight;
      var slots := CreateChars(digitNumber);
      chars := slots;
      text := "";
      isAlerted, isBlocked, isEnabled := false, false, true;
      events := [];
    }

    /** `createChars`: a new array of `digitNumber` empty slots. */
    static method CreateChars(digitNumber: nat) returns (a: array<char>)
      ensures fresh(a) && a[..] == EmptySlots(digitNumber)
    {
      a := new char[digitNumber](_ => EMPTY_SIGN);
    }

    /** The `isAlerted` setter: every assignment is reported to the alert listener. */
    method SetIsAlerted(value: bool)
      modifies this`isAlerted, this`events
      ensures isAlerted == value
      ensures events == old(events) + [AlertChanged(value)]
    {
      isAlerted := value;
      events := events + [AlertChanged(isAlerted)];
    }

    /** The `isBlocked` setter: a blocked widget is disabled, an unblocked one enabled. */
    method SetIsBlocked(value: bool)
      requires Valid()
      modifies this`isBlocked, this`isEnabled
      ensures Valid()
      ensures isBlocked == value && isEnabled == !value
    {
      isBlocked := value;
      isEnabled := !isBlocked;
    }

    /** `alertPin`: raise the alert, reporting it even when it was already raised. */
    method AlertPin()
      modifies this`isAlerted, this`events
      ensures isAlerted
      ensures events == old(events) + [AlertChanged(true)]
    {
      SetIsAlerted(true);
    }

    /** `block`: only the blocked and enabled flags change; slots, text, alert and events stay. */
    method Block(isBlockMode: bool)
      requires Valid()
      modifies this`isBlocked, this`isEnabled
      ensures Valid()
      ensures isBlocked == isBlockMode && isEnabled == !isBlockMode
    {
      SetIsBlocked(isBlockMode);
    }

    /** `getCode`: the slots joined with no separator, which is the slots themselves. */
    function GetCode(): (r: string)
      reads this, chars
      ensures r == chars[..]
    {
      JoinWithoutSeparator(chars[..]);
      JoinToString(chars[..], "")
    }

    /**
     * The widget's own `onTextChanged`: clear the alert unless slot 0 is still the
     * first empty one, then report the code if no slot is empty.
     */
    method OnTextChanged()
      modifies this`isAlerted, this`events
      ensures isAlerted == AlertAfterChange(old(isAlerted), chars[..])
      ensures events == old(events) + ChangeEvents(old(isAlerted), chars[..])
    {
      if isAlerted && IndexOf(chars[..], EMPTY_SIGN) != 0 {
        SetIsAlerted(false);
      }
      if LastIndexOf(chars[..], EMPTY_SIGN) == -1 {
        events := events + [CodeEntered(GetCode())];
      }
    }

    /** `setCode`: a code of exactly `digitNumber` characters replaces the slots; any other length is ignored. */
    method SetCode(pinCode: string)
      requires Valid()
      modifies chars, this`isAlerted, this`events
      ensures Valid()
      ensures |pinCode| == digitNumber ==>
                chars[..] == pinCode &&
                isAlerted == AlertAfterChange(old(isAlerted), pinCode) &&
                events == old(events) + ChangeEvents(old(isAlerted), pinCode)
      ensures |pinCode| != digitNumber ==>
                chars[..] == old(chars[..]) && isAlerted == old(isAlerted) && events == old(events)
    {
      if |pinCode| == digitNumber {
        for index := 0 to chars.Length
          modifies chars
          invariant forall j :: 0 <= j < index ==> chars[j] == pinCode[j]
        {
          chars[index] := pinCode[index];
        }
        assert chars[..] == pinCode;
        OnTextChanged();
      }
    }

    /**
     * `CodeEntryTextWatcher.afterTextChanged`: unless blocked, slot `i` takes the
     * text's `i`-th character, or the empty sign past its end, then change
     * detection runs. A null text counts as the empty text.
     */
    method AfterTextChanged(s: Option<string>)
      requires Valid()
      modifies chars, this`isAlerted, this`events
      ensures Valid()
      ensures !old(isBlocked) ==>
                chars[..] == TextSlots(if s.Some? then s.value else "", digitNumber) &&
                isAlerted == AlertAfterChange(old(isAlerted), chars[..]) &&
                events == old(events) + ChangeEvents(old(isAlerted), chars[..])
      ensures old(isBlocked) ==>
                chars[..] == old(chars[..]) && isAlerted == old(isAlerted) && events == old(events)
    {
      if !isBlocked {
        var str := OrDefault(s, Some("")).value;
        for i := 0 to digitNumber
          modifies chars
          invariant forall j :: 0 <= j < i ==> chars[j] == TextSlots(str, digitNumber)[j]
        {
          chars[i] := OrDefault(GetOrNull(str, i), Some(EMPTY_SIGN)).value;
        }
        assert chars[..] == TextSlots(str, digitNumber);
        OnTextChanged();
      }
    }

    /**
     * The field's text becomes `s` (typed by the user or set by the program) and
     * the text watcher runs. The length filter keeps the text within `digitNumber`.
     */
    method SetText(s: string)
      requires Valid() && |s| <= digitNumber
      modifies chars, this`text, this`isAlerted, this`events
      ensures Valid() && text == s
      ensures !old(isBlocked) ==>
                chars[..] == TextSlots(s, digitNumber) &&
                isAlerted == AlertAfterChange(old(isAlerted), chars[..]) &&
                events == old(events) + ChangeEvents(old(isAlerted), chars[..])
      ensures old(isBlocked) ==>
                chars[..] == old(chars[..]) && isAlerted == old(isAlerted) && events == old(events)
    {
      text := s;
      AfterTextChanged(Some(s));
    }

    /**
     * `clear`: fresh empty slots and an empty text. The text watcher sees the
     * empty text; with at least one slot it reports nothing and keeps the alert.
     */
    method Clear()
      requires Valid()
      modifies this`chars, this`text, this`isAlerted, this`events
      ensures Valid() && fresh(chars)
      ensures chars[..] == EmptySlots(digitNumber) && text == ""
      ensures old(isBlocked) || digitNumber >= 1 ==> isAlerted == old(isAlerted) && events == old(events)
      ensures !old(isBlocked) ==>
                isAlerted == AlertAfterChange(old(isAlerted), EmptySlots(digitNumber)) &&
                events == old(events) + ChangeEvents(old(isAlerted), EmptySlots(digitNumber))
    {
      chars := CreateChars(digitNumber);
      SetText("");
      assert TextSlots("", digitNumber) == EmptySlots(digitNumber);
      if digitNumber >= 1 {
        EmptySlotsAreQuiet(old(isAlerted), digitNumber);
      }
    }

    /**
     * The click listener's caret position (`findLastCharsIndex(chars, digitNumber)`):
     * always a valid selection in the text, on the first empty slot unless the text
     * ends before it, and at the end of the text when every slot is full.
     */
    function SelectionOnClick(): (r: int)
      reads this, chars
      requires Valid()
      ensures 0 <= r <= |text|
      ensures EMPTY_SIGN !in chars[..] ==> r == |text|
      ensures EMPTY_SIGN in chars[..] ==>
                EMPTY_SIGN !in chars[..r] && (chars[r] == EMPTY_SIGN || r == |text|)
    {
      FindLastCharsIndex(chars[..], digitNumber, |text|)
    }

    /**
     * `onDraw`, reduced to its integer layout: the paint colour choice and, per
     * cell, its left and right edges, whether it gets the outline (the first empty
     * slot, else cell 0, never past the text) and the digit drawn at its centre.
     */
    method Draw() returns (useAlertColor: bool, cells: seq<CellDraw>)
      requires Valid()
      ensures useAlertColor == isAlerted
      ensures |cells| == digitNumber
      ensures forall i :: 0 <= i < |cells| ==>
                cells[i].left == CellLeft(paddingLeft, digitExtraSpace, rectWidth, i) &&
                cells[i].right == cells[i].left + rectWidth &&
                cells[i].digitX == cells[i].left + HalfTowardZero(rectWidth) &&
                cells[i].outlined == (i == FindLastCharsIndex(chars[..], 0, |text|)) &&
                cells[i].digit == (if chars[i] != EMPTY_SIGN then Some(chars[i]) else None)
    {
      useAlertColor := isAlerted;
      var start := paddingLeft + digitExtraSpace;
      var startDigit := paddingLeft + digitExtraSpace + HalfTowardZero(rectWidth);
      var lastCharIndex := FindLastCharsIndex(chars[..], 0, |text|);
      cells := [];
      for i := 0 to chars.Length
        invariant |cells| == i
        invariant start == CellLeft(paddingLeft, digitExtraSpace, rectWidth, if i == 0 then 0 else i - 1)
        invariant startDigit == start + HalfTowardZero(rectWidth)
        invariant forall j :: 0 <= j < i ==>
                    cells[j].left == CellLeft(paddingLeft, digitExtraSpace, rectWidth, j) &&
                    cells[j].right == cells[j].left + rectWidth &&
                    cells[j].digitX == cells[j].left + HalfTowardZero(rectWidth) &&
                    cells[j].outlined == (j == lastCharIndex) &&
                    cells[j].digit == (if chars[j] != EMPTY_SIGN then Some(chars[j]) else None)
      {
        startDigit := startDigit + if i > 0 then rectWidth + digitExtraSpace else 0;
        start := start + if i > 0 then rectWidth + digitExtraSpace else 0;
        if i > 0 {
          CellGap(paddingLeft, digitExtraSpace, rectWidth, i - 1);
        }
        var digit := if chars[i] != EMPTY_SIGN then Some(chars[i]) else None;
        cells := cells + [CellDraw(start, start + rectWidth, i == lastCharIndex, digit, startDigit)];
      }
    }
  }
}
