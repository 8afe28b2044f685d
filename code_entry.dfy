/**
 * The slot logic of the confirmation-code widget, as values: the empty sign, the
 * notifications the widget sends, the library calls it relies on (`indexOf`,
 * `lastIndexOf`, `getOrNull`, `joinToString`), the active-cell index and the
 * change-detection rule that the widget runs after every edit.
 */
module CodeEntry {
  import opened Extensions

  /** Marks a slot that holds no digit yet (`EMPTY_SIGN`). */
  const EMPTY_SIGN: char := '*'

  /** A call the widget makes on one of its two listeners. */
  datatype Event =
    | CodeEntered(code: string)
    | AlertChanged(isAlerted: bool)

  /** `CharArray.indexOf(c)`: the first position holding `c`, or -1. */
  function IndexOf(s: seq<char>, c: char): (r: int)
    ensures -1 <= r < |s|
    ensures r == -1 <==> c !in s
    ensures r >= 0 ==> s[r] == c && c !in s[..r]
  {
    if |s| == 0 then -1
    else if s[0] == c then 0
    else
      var k := IndexOf(s[1..], c);
      if k == -1 then -1
      else
        assert s[..k + 1] == [s[0]] + s[1..][..k];
        k + 1
  }

  /** `CharArray.lastIndexOf(c)`: the last position holding `c`, or -1. */
  function LastIndexOf(s: seq<char>, c: char): (r: int)
    ensures -1 <= r < |s|
    ensures r == -1 <==> c !in s
    ensures r >= 0 ==> s[r] == c && c !in s[r + 1..]
  {
    if |s| == 0 then -1
    else if s[|s| - 1] == c then |s| - 1
    else
      var init := s[..|s| - 1];
      var k := LastIndexOf(init, c);
      assert s == init + [s[|s| - 1]];
      assert k >= 0 ==> s[k + 1..] == init[k + 1..] + [s[|s| - 1]];
      k
  }

  /** `String.getOrNull(i)`: the character at `i`, or null outside the string. */
  function GetOrNull(s: string, i: int): (r: Option<char>)
    ensures r.Some? <==> 0 <= i < |s|
    ensures r.Some? ==> r.value == s[i]
  {
    if 0 <= i < |s| then Some(s[i]) else None
  }

  /** The slots `createChars` builds: `digitNumber` empty signs. */
  function EmptySlots(n: nat): (r: seq<char>)
    ensures |r| == n
    ensures forall i :: 0 <= i < n ==> r[i] == EMPTY_SIGN
  {
    seq(n, _ => EMPTY_SIGN)
  }

  /**
   * The slots the text watcher writes for the text `s`: slot `i` is the text's
   * `i`-th character, or the empty sign past the end of the text.
   */
  function TextSlots(s: string, n: nat): (r: seq<char>)
    ensures |r| == n
    ensures forall i :: 0 <= i < n && i < |s| ==> r[i] == s[i]
    ensures forall i :: |s| <= i < n ==> r[i] == EMPTY_SIGN
  {
    seq(n, i requires 0 <= i < n => OrDefault(GetOrNull(s, i), Some(EMPTY_SIGN)).value)
  }

  /**
   * `findLastCharsIndex`: the first empty slot, or `defValue` when there is none,
   * never beyond `length` (the length of the text in the field).
   */
  function FindLastCharsIndex(chars: seq<char>, defValue: int, length: nat): (r: int)
    ensures r <= length
    ensures EMPTY_SIGN !in chars ==> r == if defValue <= length then defValue else length
    ensures EMPTY_SIGN in chars ==>
              0 <= r < |chars| && EMPTY_SIGN !in chars[..r] &&
              (chars[r] == EMPTY_SIGN || r == length)
  {
    var firstEmpty := IndexOf(chars, EMPTY_SIGN);
    var found := if firstEmpty != -1 then Some(firstEmpty) else None;
    var index := OrDefault(found, Some(defValue)).value;
    if index <= length then index else length
  }

  /** `joinToString(separator)` over characters. */
  function JoinToString(chars: seq<char>, separator: string): (r: string)
    decreases |chars|
  {
    if |chars| == 0 then ""
    else if |chars| == 1 then [chars[0]]
    else [chars[0]] + separator + JoinToString(chars[1..], separator)
  }

  /** Joined with the empty separator (`getCode`), the slots read back unchanged. */
  lemma {:induction false} JoinWithoutSeparator(chars: seq<char>)
    ensures JoinToString(chars, "") == chars
    decreases |chars|
  {
    if |chars| > 1 {
      JoinWithoutSeparator(chars[1..]);
      assert chars == [chars[0]] + chars[1..];
    }
  }

  /** Where character `i` of a joined string sits: one character and one separator per earlier character. */
  function CharPosition(i: nat, separator: string): nat
  {
    if i == 0 then 0 else CharPosition(i - 1, separator) + 1 + |separator|
  }

  /** Characters of a joined string sit every `1 + |separator|` places. */
  lemma {:induction false} CharPositionIsStride(i: nat, separator: string)
    ensures CharPosition(i, separator) == i * (1 + |separator|)
  {
    if i > 0 {
      CharPositionIsStride(i - 1, separator);
    }
  }

  /** A joined string ends with its last character. */
  lemma {:induction false} JoinLength(chars: seq<char>, separator: string)
    requires |chars| > 0
    ensures |JoinToString(chars, separator)| == CharPosition(|chars| - 1, separator) + 1
    ensures |JoinToString(chars, separator)| == |chars| + (|chars| - 1) * |separator|
    decreases |chars|
  {
    CharPositionIsStride(|chars| - 1, separator);
    if |chars| > 1 {
      JoinLength(chars[1..], separator);
    }
  }

  /** In a joined string, character `i` sits at `CharPosition(i)`. */
  lemma {:induction false} JoinCharAt(chars: seq<char>, separator: string, i: nat)
    requires i < |chars|
    ensures CharPosition(i, separator) < |JoinToString(chars, separator)|
    ensures JoinToString(chars, separator)[CharPosition(i, separator)] == chars[i]
    decreases |chars|
  {
    JoinLength(chars, separator);
    if i > 0 {
      var rest := JoinToString(chars[1..], separator);
      assert JoinToString(chars, separator) == [chars[0]] + separator + rest;
      JoinCharAt(chars[1..], separator, i - 1);
    }
  }

  /** A slice past a prefix is the same slice of what follows it. */
  lemma SliceAfterPrefix(prefix: string, rest: string, from: nat, to: nat)
    requires from <= to <= |rest|
    ensures (prefix + rest)[|prefix| + from..|prefix| + to] == rest[from..to]
  {
  }

  /** In a joined string, exactly the separator lies between characters `i` and `i + 1`. */
  lemma {:induction false} JoinSeparatorAt(chars: seq<char>, separator: string, i: nat)
    requires i + 1 < |chars|
    ensures CharPosition(i + 1, separator) < |JoinToString(chars, separator)|
    ensures JoinToString(chars, separator)[CharPosition(i, separator) + 1..CharPosition(i + 1, separator)] == separator
    decreases |chars|
  {
    var prefix := [chars[0]] + separator;
    var rest := JoinToString(chars[1..], separator);
    assert JoinToString(chars, separator) == prefix + rest;
    JoinCharAt(chars, separator, i + 1);
    if i == 0 {
      assert (prefix + rest)[1..|prefix|] == separator;
    } else {
      JoinSeparatorAt(chars[1..], separator, i - 1);
      SliceAfterPrefix(prefix, rest, CharPosition(i - 1, separator) + 1, CharPosition(i, separator));
    }
  }

  /** True when no slot is empty: `chars.lastIndexOf(EMPTY_SIGN) == -1`. */
  predicate IsComplete(chars: seq<char>)
  {
    LastIndexOf(chars, EMPTY_SIGN) == -1
  }

  /**
   * The alert flag after change detection: an alerted widget stays alerted only
   * while its first empty slot is slot 0.
   */
  function AlertAfterChange(isAlerted: bool, chars: seq<char>): bool
  {
    isAlerted && IndexOf(chars, EMPTY_SIGN) == 0
  }

  /**
   * The listener calls change detection makes, in order: the alert is cleared
   * (which notifies), then the code is reported when no slot is empty.
   */
  function ChangeEvents(isAlerted: bool, chars: seq<char>): seq<Event>
  {
    (if isAlerted && IndexOf(chars, EMPTY_SIGN) != 0 then [AlertChanged(false)] else []) +
    (if IsComplete(chars) then [CodeEntered(JoinToString(chars, ""))] else [])
  }

  /** The code is reported exactly when no slot is empty, and it is the slots themselves. */
  lemma CompletionIffFull(isAlerted: bool, chars: seq<char>)
    ensures (exists code :: CodeEntered(code) in ChangeEvents(isAlerted, chars)) <==> EMPTY_SIGN !in chars
    ensures forall code :: CodeEntered(code) in ChangeEvents(isAlerted, chars) ==> code == chars
    ensures EMPTY_SIGN !in chars ==>
              ChangeEvents(isAlerted, chars)[|ChangeEvents(isAlerted, chars)| - 1] == CodeEntered(chars)
  {
    JoinWithoutSeparator(chars);
    if EMPTY_SIGN !in chars {
      assert CodeEntered(chars) in ChangeEvents(isAlerted, chars);
    }
  }

  /**
   * Change detection clears the alert (and says so) exactly when the widget was
   * alerted and slot 0 is filled or there are no slots; otherwise the flag is kept.
   */
  lemma AlertClearedIff(isAlerted: bool, chars: seq<char>)
    ensures AlertChanged(false) in ChangeEvents(isAlerted, chars) <==>
              isAlerted && (|chars| == 0 || chars[0] != EMPTY_SIGN)
    ensures AlertAfterChange(isAlerted, chars) <==>
              isAlerted && |chars| > 0 && chars[0] == EMPTY_SIGN
    ensures AlertChanged(true) !in ChangeEvents(isAlerted, chars)
  {
  }

  /** A code that still holds an empty sign is never reported, whatever the alert state. */
  lemma NoCompletionWithEmptySign(isAlerted: bool, chars: seq<char>)
    requires EMPTY_SIGN in chars
    ensures ChangeEvents(isAlerted, chars) == if isAlerted && chars[0] != EMPTY_SIGN then [AlertChanged(false)] else []
  {
  }

  /** Fresh slots neither clear the alert nor complete a code, as long as there is a slot. */
  lemma EmptySlotsAreQuiet(isAlerted: bool, n: nat)
    requires n >= 1
    ensures ChangeEvents(isAlerted, EmptySlots(n)) == []
    ensures AlertAfterChange(isAlerted, EmptySlots(n)) == isAlerted
  {
  }

  /**
   * Typing a code of `n` digits one character at a time into an unalerted widget:
   * no prefix notifies anyone, and the full code is reported once, as typed.
   */
  lemma {:induction false} TypingReportsOnce(code: string, n: nat)
    requires |code| == n && EMPTY_SIGN !in code
    ensures forall k :: 0 <= k < n ==> ChangeEvents(false, TextSlots(code[..k], n)) == []
    ensures TextSlots(code, n) == code
    ensures ChangeEvents(false, TextSlots(code, n)) == [CodeEntered(code)]
  {
    forall k | 0 <= k < n
      ensures ChangeEvents(false, TextSlots(code[..k], n)) == []
    {
      var slots := TextSlots(code[..k], n);
      assert slots[k] == EMPTY_SIGN;
      assert EMPTY_SIGN in slots;
    }
    var full := TextSlots(code, n);
    assert full == code;
    JoinWithoutSeparator(code);
  }

  /**
   * After typing the digits `typed` (fewer than `n`), both the outline and the
   * caret sit on the next slot to fill.
   */
  lemma ActiveCellAfterTyping(typed: string, n: nat, defValue: int)
    requires |typed| < n && EMPTY_SIGN !in typed
    ensures FindLastCharsIndex(TextSlots(typed, n), defValue, |typed|) == |typed|
  {
    var slots := TextSlots(typed, n);
    assert slots[|typed|] == EMPTY_SIGN;
    assert slots[..|typed|] == typed;
  }

  /**
   * The outline (drawn with default 0) and the caret (placed with default
   * `digitNumber`) agree while a slot is empty; once all are full the outline
   * falls back to the first cell and the caret to the end of the text.
   */
  lemma OutlineAndCaret(chars: seq<char>, length: nat)
    requires length <= |chars|
    ensures EMPTY_SIGN in chars ==>
              FindLastCharsIndex(chars, 0, length) == FindLastCharsIndex(chars, |chars|, length)
    ensures EMPTY_SIGN !in chars ==>
              FindLastCharsIndex(chars, 0, length) == 0 &&
              FindLastCharsIndex(chars, |chars|, length) == length
  {
  }
}
