/**
 Key combinations, clicks and touches: everything that presses something and must let go of it.
 */
module Pressing {
  import opened Wrappers
  import opened HidHost
  import opened Remotes
  import opened Movement

  const MAX_KEYBOARD_KEYS := 6

  function ModifierBit(key: string): Option<bv8> {
    match key
    case "ControlLeft" => Some(1)
    case "ShiftLeft" => Some(2)
    case "AltLeft" => Some(4)
    case "MetaLeft" => Some(8)
    case "ControlRight" => Some(16)
    case "ShiftRight" => Some(32)
    case "AltRight" => Some(64)
    case "MetaRight" => Some(128)
    case _ => None
  }

  function LetterCode(key: string): Option<byte> {
    match key
    case "KeyA" => Some(0x04)
    case "KeyB" => Some(0x05)
    case "KeyC" => Some(0x06)
    case "KeyD" => Some(0x07)
    case "KeyE" => Some(0x08)
    case "KeyF" => Some(0x09)
    case "KeyG" => Some(0x0a)
    case "KeyH" => Some(0x0b)
    case "KeyI" => Some(0x0c)
    case "KeyJ" => Some(0x0d)
    case "KeyK" => Some(0x0e)
    case "KeyL" => Some(0x0f)
    case "KeyM" => Some(0x10)
    case "KeyN" => Some(0x11)
    case "KeyO" => Some(0x12)
    case "KeyP" => Some(0x13)
    case "KeyQ" => Some(0x14)
    case "KeyR" => Some(0x15)
    case "KeyS" => Some(0x16)
    case "KeyT" => Some(0x17)
    case "KeyU" => Some(0x18)
    case "KeyV" => Some(0x19)
    case "KeyW" => Some(0x1a)
    case "KeyX" => Some(0x1b)
    case "KeyY" => Some(0x1c)
    case "KeyZ" => Some(0x1d)
    case _ => None
  }

  function RowCode(key: string): Option<byte> {
    match key
    case "Digit1" => Some(0x1e)
    case "Digit2" => Some(0x1f)
    case "Digit3" => Some(0x20)
    case "Digit4" => Some(0x21)
    case "Digit5" => Some(0x22)
    case "Digit6" => Some(0x23)
    case "Digit7" => Some(0x24)
    case "Digit8" => Some(0x25)
    case "Digit9" => Some(0x26)
    case "Digit0" => Some(0x27)
    case "Enter" => Some(0x28)
    case "Escape" => Some(0x29)
    case "Backspace" => Some(0x2a)
    case "Tab" => Some(0x2b)
    case "Space" => Some(0x2c)
    case "Minus" => Some(0x2d)
    case "Equal" => Some(0x2e)
    case "BracketLeft" => Some(0x2f)
    case "BracketRight" => Some(0x30)
    case "Backslash" => Some(0x31)
    case "IntlHash" => Some(0x32)
    case "Semicolon" => Some(0x33)
    case "Quote" => Some(0x34)
    case "Backquote" => Some(0x35)
    case "Comma" => Some(0x36)
    case "Period" => Some(0x37)
    case "Slash" => Some(0x38)
    case "CapsLock" => Some(0x39)
    case _ => None
  }

  function FunctionCode(key: string): Option<byte> {
    match key
    case "F1" => Some(0x3a)
    case "F2" => Some(0x3b)
    case "F3" => Some(0x3c)
    case "F4" => Some(0x3d)
    case "F5" => Some(0x3e)
    case "F6" => Some(0x3f)
    case "F7" => Some(0x40)
    case "F8" => Some(0x41)
    case "F9" => Some(0x42)
    case "F10" => Some(0x43)
    case "F11" => Some(0x44)
    case "F12" => Some(0x45)
    case "PrintScreen" => Some(0x46)
    case "ScrollLock" => Some(0x47)
    case "Pause" => Some(0x48)
    case "Insert" => Some(0x49)
    case "Home" => Some(0x4a)
    case "PageUp" => Some(0x4b)
    case "Delete" => Some(0x4c)
    case "End" => Some(0x4d)
    case "PageDown" => Some(0x4e)
    case "ArrowRight" => Some(0x4f)
    case "ArrowLeft" => Some(0x50)
    case "ArrowDown" => Some(0x51)
    case "ArrowUp" => Some(0x52)
    case _ => None
  }

  function NumpadCode(key: string): Option<byte> {
    match key
    case "NumLock" => Some(0x53)
    case "NumpadDivide" => Some(0x54)
    case "NumpadMultiply" => Some(0x55)
    case "NumpadSubtract" => Some(0x56)
    case "NumpadAdd" => Some(0x57)
    case "NumpadEnter" => Some(0x58)
    case "Numpad1" => Some(0x59)
    case "Numpad2" => Some(0x5a)
    case "Numpad3" => Some(0x5b)
    case "Numpad4" => Some(0x5c)
    case "Numpad5" => Some(0x5d)
    case "Numpad6" => Some(0x5e)
    case "Numpad7" => Some(0x5f)
    case "Numpad8" => Some(0x60)
    case "Numpad9" => Some(0x61)
    case "Numpad0" => Some(0x62)
    case "NumpadDecimal" => Some(0x63)
    case "IntlBackslash" => Some(0x64)
    case "ContextMenu" => Some(0x65)
    case _ => None
  }

  /** The usage code of a key that is not a modifier. */
  function KeyCode(key: string): Option<byte> {
    if LetterCode(key).Some? then LetterCode(key)
    else if RowCode(key).Some? then RowCode(key)
    else if FunctionCode(key).Some? then FunctionCode(key)
    else NumpadCode(key)
  }

  function ButtonBit(button: string): Option<byte> {
    match button
    case "left" => Some(1)
    case "right" => Some(2)
    case "middle" => Some(4)
    case _ => None
  }

  /** The modifiers in the order of their bits, and the buttons of a mouse in the order of theirs: how a
      target reads the first byte of a report. */
  const MODIFIERS: seq<string> :=
    ["ControlLeft", "ShiftLeft", "AltLeft", "MetaLeft", "ControlRight", "ShiftRight", "AltRight", "MetaRight"]

  const BUTTONS: seq<string> := ["left", "right", "middle"]

  function Bit(k: nat): nat {
    if k == 0 then 1 else 2 * Bit(k - 1)
  }

  /** Every modifier has the bit of its place, and nothing else is one. */
  lemma ModifiersHaveTheirBits(k: nat, key: string)
    ensures k < |MODIFIERS| ==>
              ModifierBit(MODIFIERS[k]).Some? && ModifierBit(MODIFIERS[k]).value as nat == Bit(k)
    ensures ModifierBit(key).Some? ==> key in MODIFIERS
  {
    BitsAre();
  }

  lemma BitsAre()
    ensures Bit(0) == 1 && Bit(1) == 2 && Bit(2) == 4 && Bit(3) == 8
    ensures Bit(4) == 16 && Bit(5) == 32 && Bit(6) == 64 && Bit(7) == 128
  {
  }

  lemma ButtonsHaveTheirBits(k: nat, button: string)
    ensures k < |BUTTONS| ==> ButtonBit(BUTTONS[k]).Some? && ButtonBit(BUTTONS[k]).value == Bit(k)
    ensures ButtonBit(button).Some? ==> button in BUTTONS
  {
    BitsAre();
  }

  // ---------------------------------------------------------------- key combinations

  /** The usage codes of the keys that are not modifiers, each once, in order. */
  function Codes(keys: seq<string>): seq<byte> {
    if keys == [] then [] else CodesWith(Codes(keys[..|keys| - 1]), keys[|keys| - 1])
  }

  function CodesWith(codes: seq<byte>, key: string): seq<byte> {
    if ModifierBit(key).Some? || KeyCode(key).None? || KeyCode(key).value in codes then codes
    else codes + [KeyCode(key).value]
  }

  function Modifiers(keys: seq<string>): bv8 {
    if keys == [] then 0
    else
      var init, key := Modifiers(keys[..|keys| - 1]), keys[|keys| - 1];
      if ModifierBit(key).Some? then init | ModifierBit(key).value else init
  }

  predicate Known(key: string) {
    ModifierBit(key).Some? || KeyCode(key).Some?
  }

  predicate AllKnown(keys: seq<string>) {
    forall key :: key in keys ==> Known(key)
  }

  /** A report with these modifiers and codes in its slots, the rest of them empty. */
  predicate IsCombo(report: Report, modifiers: bv8, codes: seq<byte>) {
    && |codes| <= MAX_KEYBOARD_KEYS && |report| == 8 && report[0] == modifiers as int && report[1] == 0
    && report[2..2 + |codes|] == codes && forall k :: 2 + |codes| <= k < 8 ==> report[k] == 0
  }

  lemma ComboOf(modifiers: bv8, slots: seq<byte>, codes: seq<byte>)
    requires |slots| == 6 && |codes| <= 6 && slots[..|codes|] == codes
    requires forall k :: |codes| <= k < 6 ==> slots[k] == 0
    ensures IsCombo([modifiers as int, 0] + slots, modifiers, codes)
  {
    var report: Report := [modifiers as int, 0] + slots;
    assert report[2..2 + |codes|] == slots[..|codes|];
  }

  lemma FilledSlot(slots: seq<byte>, codes: seq<byte>, code: byte)
    requires |slots| == 6 && |codes| < 6 && slots[..|codes|] == codes
    requires forall k :: |codes| <= k < 6 ==> slots[k] == 0
    ensures var now := slots[|codes| := code];
            now[..|codes| + 1] == codes + [code] && forall k :: |codes| < k < 6 ==> now[k] == 0
  {
  }

  lemma NextKey(keys: seq<string>, i: nat)
    requires i < |keys|
    ensures AllKnown(keys[..i + 1]) <==> AllKnown(keys[..i]) && Known(keys[i])
    ensures Modifiers(keys[..i + 1])
            == if ModifierBit(keys[i]).Some? then Modifiers(keys[..i]) | ModifierBit(keys[i]).value
                else Modifiers(keys[..i])
    ensures Codes(keys[..i + 1]) == CodesWith(Codes(keys[..i]), keys[i])
    ensures |Codes(keys[..i + 1])| <= |Codes(keys)|
    ensures !Known(keys[i]) ==> !AllKnown(keys)
  {
    hide Known;
    assert keys[..i + 1][..i] == keys[..i] && keys[..i + 1] == keys[..i] + [keys[i]];
    CodesGrow(keys, i + 1);
    assert keys[i] in keys;
  }

  /** The combination is refused for an unknown key or a seventh code; otherwise the first byte holds
      the modifiers and the slots hold the codes. */
  method BuildKeyComboReport(keys: seq<string>) returns (r: Result<Report, Failure>)
    ensures r.Ok? <==> AllKnown(keys) && |Codes(keys)| <= MAX_KEYBOARD_KEYS
    ensures r.Err? ==> r == Err(Rejected)
    ensures r.Ok? ==> IsCombo(r.value, Modifiers(keys), Codes(keys))
  {
    hide ModifierBit, KeyCode, AllKnown, Modifiers, Codes, IsCombo;
    var modifiers: bv8, seenKeys: set<byte>, slots: seq<byte> := 0, {}, [0, 0, 0, 0, 0, 0];
    var keyIndex := 0;
    ghost var codes: seq<byte> := [];
    NoKeys(keys);
    for i := 0 to |keys|
      invariant AllKnown(keys[..i]) && modifiers == Modifiers(keys[..i]) && codes == Codes(keys[..i])
      invariant |slots| == 6 && keyIndex == |codes| <= 6 && slots[..keyIndex] == codes
      invariant forall k :: keyIndex <= k < 6 ==> slots[k] == 0
      invariant forall c :: c in seenKeys <==> c in codes
    {
      NextKey(keys, i);
      var bit := ModifierBit(keys[i]);
      if bit.Some? {
        modifiers := modifiers | bit.value;
        continue;
      }
      var code := KeyCode(keys[i]);
      if code.None? {
        return Err(Rejected);
      }
      if code.value in seenKeys {
        continue;
      }
      if keyIndex >= MAX_KEYBOARD_KEYS {
        return Err(Rejected);
      }
      FilledSlot(slots, codes, code.value);
      seenKeys := seenKeys + {code.value};
      slots := slots[keyIndex := code.value];
      codes := codes + [code.value];
      keyIndex := keyIndex + 1;
    }
    assert keys[..|keys|] == keys;
    ComboOf(modifiers, slots, codes);
    return Ok([modifiers as int, 0] + slots);
  }

  lemma NoKeys(keys: seq<string>)
    ensures AllKnown(keys[..0]) && Modifiers(keys[..0]) == 0 && Codes(keys[..0]) == []
  {
  }

  lemma {:induction false} CodesGrow(keys: seq<string>, n: nat)
    requires n <= |keys|
    ensures |Codes(keys[..n])| <= |Codes(keys)|
    decreases |keys|
  {
    if n < |keys| {
      CodesGrow(keys[..|keys| - 1], n);
      assert keys[..|keys| - 1][..n] == keys[..n];
    } else {
      assert keys[..n] == keys;
    }
  }

  function LetterName(code: byte): string {
    match code
    case 0x04 => "KeyA"
    case 0x05 => "KeyB"
    case 0x06 => "KeyC"
    case 0x07 => "KeyD"
    case 0x08 => "KeyE"
    case 0x09 => "KeyF"
    case 0x0a => "KeyG"
    case 0x0b => "KeyH"
    case 0x0c => "KeyI"
    case 0x0d => "KeyJ"
    case 0x0e => "KeyK"
    case 0x0f => "KeyL"
    case 0x10 => "KeyM"
    case 0x11 => "KeyN"
    case 0x12 => "KeyO"
    case 0x13 => "KeyP"
    case 0x14 => "KeyQ"
    case 0x15 => "KeyR"
    case 0x16 => "KeyS"
    case 0x17 => "KeyT"
    case 0x18 => "KeyU"
    case 0x19 => "KeyV"
    case 0x1a => "KeyW"
    case 0x1b => "KeyX"
    case 0x1c => "KeyY"
    case 0x1d => "KeyZ"
    case _ => ""
  }

  function RowName(code: byte): string {
    match code
    case 0x1e => "Digit1"
    case 0x1f => "Digit2"
    case 0x20 => "Digit3"
    case 0x21 => "Digit4"
    case 0x22 => "Digit5"
    case 0x23 => "Digit6"
    case 0x24 => "Digit7"
    case 0x25 => "Digit8"
    case 0x26 => "Digit9"
    case 0x27 => "Digit0"
    case 0x28 => "Enter"
    case 0x29 => "Escape"
    case 0x2a => "Backspace"
    case 0x2b => "Tab"
    case 0x2c => "Space"
    case 0x2d => "Minus"
    case 0x2e => "Equal"
    case 0x2f => "BracketLeft"
    case 0x30 => "BracketRight"
    case 0x31 => "Backslash"
    case 0x32 => "IntlHash"
    case 0x33 => "Semicolon"
    case 0x34 => "Quote"
    case 0x35 => "Backquote"
    case 0x36 => "Comma"
    case 0x37 => "Period"
    case 0x38 => "Slash"
    case 0x39 => "CapsLock"
    case _ => ""
  }

  function FunctionName(code: byte): string {
    match code
    case 0x3a => "F1"
    case 0x3b => "F2"
    case 0x3c => "F3"
    case 0x3d => "F4"
    case 0x3e => "F5"
    case 0x3f => "F6"
    case 0x40 => "F7"
    case 0x41 => "F8"
    case 0x42 => "F9"
    case 0x43 => "F10"
    case 0x44 => "F11"
    case 0x45 => "F12"
    case 0x46 => "PrintScreen"
    case 0x47 => "ScrollLock"
    case 0x48 => "Pause"
    case 0x49 => "Insert"
    case 0x4a => "Home"
    case 0x4b => "PageUp"
    case 0x4c => "Delete"
    case 0x4d => "End"
    case 0x4e => "PageDown"
    case 0x4f => "ArrowRight"
    case 0x50 => "ArrowLeft"
    case 0x51 => "ArrowDown"
    case 0x52 => "ArrowUp"
    case _ => ""
  }

  function NumpadName(code: byte): string {
    match code
    case 0x53 => "NumLock"
    case 0x54 => "NumpadDivide"
    case 0x55 => "NumpadMultiply"
    case 0x56 => "NumpadSubtract"
    case 0x57 => "NumpadAdd"
    case 0x58 => "NumpadEnter"
    case 0x59 => "Numpad1"
    case 0x5a => "Numpad2"
    case 0x5b => "Numpad3"
    case 0x5c => "Numpad4"
    case 0x5d => "Numpad5"
    case 0x5e => "Numpad6"
    case 0x5f => "Numpad7"
    case 0x60 => "Numpad8"
    case 0x61 => "Numpad9"
    case 0x62 => "Numpad0"
    case 0x63 => "NumpadDecimal"
    case 0x64 => "IntlBackslash"
    case 0x65 => "ContextMenu"
    case _ => ""
  }

  /** The key of a usage code, the table read backwards. */
  function KeyName(code: byte): string {
    if code < 0x1e then LetterName(code)
    else if code < 0x3a then RowName(code)
    else if code < 0x53 then FunctionName(code)
    else NumpadName(code)
  }

  lemma LetterNames(key: string)
    ensures LetterCode(key).Some? ==> 0 <= LetterCode(key).value < 0x1e && LetterName(LetterCode(key).value) == key
  {
  }

  lemma RowNames(key: string)
    ensures RowCode(key).Some? ==> 0x1e <= RowCode(key).value < 0x3a && RowName(RowCode(key).value) == key
  {
  }

  lemma FunctionNames(key: string)
    ensures FunctionCode(key).Some? ==>
              0x3a <= FunctionCode(key).value < 0x53 && FunctionName(FunctionCode(key).value) == key
  {
  }

  lemma NumpadNames(key: string)
    ensures NumpadCode(key).Some? ==> 0x53 <= NumpadCode(key).value < 0x66 && NumpadName(NumpadCode(key).value) == key
  {
  }

  lemma NoKey()
    ensures KeyCode("").None? && KeyName(0) == ""
  {
  }

  /** The table gives every key its own code, and none the code of "no key". */
  lemma KeyTableIsInjective(key: string, other: string)
    requires KeyCode(key).Some?
    ensures KeyCode(key) == KeyCode(other) ==> key == other
    ensures KeyCode(key).value != 0
  {
    hide LetterCode, RowCode, FunctionCode, NumpadCode, LetterName, RowName, FunctionName, NumpadName;
    LetterNames(key);
    RowNames(key);
    FunctionNames(key);
    NumpadNames(key);
    LetterNames(other);
    RowNames(other);
    FunctionNames(other);
    NumpadNames(other);
    NoKey();
  }

  lemma LetterCodes(code: byte)
    requires 0x04 <= code < 0x1e
    ensures LetterCode(LetterName(code)) == Some(code)
  {
  }

  lemma RowCodes(code: byte)
    requires 0x1e <= code < 0x3a
    ensures RowCode(RowName(code)) == Some(code)
  {
  }

  lemma FunctionCodes(code: byte)
    requires 0x3a <= code < 0x53
    ensures FunctionCode(FunctionName(code)) == Some(code)
  {
  }

  lemma NumpadCodes(code: byte)
    requires 0x53 <= code < 0x66
    ensures NumpadCode(NumpadName(code)) == Some(code)
  {
  }

  /** A name of one group is not found in the groups that are looked up before it. */
  lemma LettersAreApart(key: string)
    ensures LetterCode(key).Some? ==> |key| == 4 && key[0] == 'K'
  {
  }

  lemma RowIsApart(code: byte)
    requires 0x1e <= code < 0x3a
    ensures LetterCode(RowName(code)).None?
  {
    LettersAreApart(RowName(code));
  }

  lemma FunctionsAreApart(code: byte)
    requires 0x3a <= code < 0x53
    ensures LetterCode(FunctionName(code)).None? && RowCode(FunctionName(code)).None?
  {
    LettersAreApart(FunctionName(code));
    hide LetterCode;
  }

  lemma NumpadIsApart(code: byte)
    requires 0x53 <= code < 0x66
    ensures RowCode(NumpadName(code)).None? && FunctionCode(NumpadName(code)).None?
  {
  }

  lemma NumpadHasNoLetters(code: byte)
    requires 0x53 <= code < 0x66
    ensures LetterCode(NumpadName(code)).None?
  {
    LettersAreApart(NumpadName(code));
  }

  /** Every usage code from the letter A to the context menu key has a name in the table: that of the
      key that the target takes it for. */
  lemma KeyTableIsComplete(code: byte)
    requires 0x04 <= code < 0x66
    ensures KeyCode(KeyName(code)) == Some(code)
  {
    hide LetterCode, RowCode, FunctionCode, NumpadCode, LetterName, RowName, FunctionName, NumpadName;
    if code < 0x1e {
      LetterCodes(code);
    } else if code < 0x3a {
      RowCodes(code);
      RowIsApart(code);
    } else if code < 0x53 {
      FunctionCodes(code);
      FunctionsAreApart(code);
    } else {
      NumpadCodes(code);
      NumpadIsApart(code);
      NumpadHasNoLetters(code);
    }
  }

  /** The codes of a combination: exactly those asked for, none twice, in the order in which they were
      first asked for. */
  lemma {:induction false} CodesAreTheKeys(keys: seq<string>)
    ensures forall c :: c in Codes(keys)
              <==> exists key :: key in keys && ModifierBit(key).None? && KeyCode(key) == Some(c)
    ensures forall i, j :: 0 <= i < j < |Codes(keys)| ==> Codes(keys)[i] != Codes(keys)[j]
    ensures keys != [] ==> Codes(keys[..|keys| - 1]) <= Codes(keys)
  {
    hide ModifierBit;
    if keys != [] {
      var init, last := keys[..|keys| - 1], keys[|keys| - 1];
      CodesAreTheKeys(init);
      assert keys == init + [last];
      assert forall key :: key in keys <==> key in init || key == last;
    }
  }

  lemma BitsOfOr(a: bv8, b: bv8, bit: bv8)
    ensures (a | b) & bit != 0 <==> a & bit != 0 || b & bit != 0
  {
  }

  lemma BitsAreSingle(key: string, other: string)
    requires ModifierBit(key).Some? && ModifierBit(other).Some?
    ensures ModifierBit(key).value & ModifierBit(other).value != 0 <==> key == other
  {
  }

  /** A modifier's bit is set exactly if that modifier was asked for. */
  lemma {:induction false} ModifiersAreTheKeys(keys: seq<string>, modifier: string)
    requires ModifierBit(modifier).Some?
    ensures Modifiers(keys) & ModifierBit(modifier).value != 0 <==> modifier in keys
  {
    hide ModifierBit;
    if keys == [] {
      assert 0 & ModifierBit(modifier).value == 0;
    } else {
      var init, last := keys[..|keys| - 1], keys[|keys| - 1];
      ModifiersAreTheKeys(init, modifier);
      assert modifier in keys <==> modifier in init || modifier == last by { assert keys == init + [last]; }
      if ModifierBit(last).Some? {
        BitsOfOr(Modifiers(init), ModifierBit(last).value, ModifierBit(modifier).value);
        BitsAreSingle(last, modifier);
      }
    }
  }

  // ---------------------------------------------------------------- the calls

  /** Writes a press, waits, and writes its release: PressKeys and TouchAbsoluteButton do this on
      their endpoints. */
  method PressAndRelease(remote: Remote, ep: Endpoint, press: Report, release: Report) returns (error: Option<Failure>)
    modifies remote
    ensures old(remote.log) <= remote.log && error != Some(Rejected)
    ensures Ran(ep, [press, release], release, remote.log[|old(remote.log)|..], error.None?)
    ensures CallHeeds(old(remote.acts), remote.acts, release, true, error)
  {
    hide Ran, AllSent, Sent, ActOk, GoesOn, Heeds;
    ghost var before, start, plan := remote.log, remote.acts, [press, release];
    ghost var acts := [];
    AllSentOfNone(ep, plan);
    SentNext(ep, plan, 0);
    SentNext(ep, plan, 1);
    GoesOnAtFirst(release, true);
    var ended := remote.ContextEnded();
    if ended {
      StopsWith(start, acts, Looked(true), [], remote.acts, release, true);
      StopsBetween(ep, plan, release, 0, before, remote.log);
      return Some(Cancelled);
    }
    GoesOnWith(acts, Looked(false), release, true);
    acts := acts + [Looked(false)];
    var ok := remote.Write(ep, press);
    if !ok {
      var last := remote.Write(ep, release);
      StopsWith(start, acts, Tried(ep, press, false), [Tried(ep, release, last)], remote.acts, release, true);
      StopsFailing(ep, plan, release, 0, before, remote.log, last);
      return Some(WriteFailed);
    }
    GoesOnWith(acts, Tried(ep, press, true), release, true);
    acts := acts + [Tried(ep, press, true)];
    ended := remote.ContextEnded();
    if ended {
      var last := remote.Write(ep, release);
      StopsWith(start, acts, Looked(true), [Tried(ep, release, last)], remote.acts, release, true);
      StopsReleasing(ep, plan, release, 1, before, remote.log, last);
      return Some(Cancelled);
    }
    GoesOnWith(acts, Looked(false), release, true);
    acts := acts + [Looked(false)];
    ok := remote.Write(ep, release);
    if !ok {
      StopsWith(start, acts, Tried(ep, release, false), [], remote.acts, release, true);
      StopsReleasing(ep, plan, release, 1, before, remote.log, false);
      return Some(WriteFailed);
    }
    GoesOnWith(acts, Tried(ep, release, true), release, true);
    acts := acts + [Tried(ep, release, true)];
    GoesOnToEnd(start, acts, remote.acts, release, true);
    StopsAtEnd(ep, plan, release, before, remote.log);
    return None;
  }

  method PressKeys(remote: Remote, keys: seq<string>) returns (error: Option<Failure>)
    modifies remote
    ensures old(remote.log) <= remote.log
    ensures error == Some(Rejected) <==> !(AllKnown(keys) && |Codes(keys)| <= MAX_KEYBOARD_KEYS)
    ensures error == Some(Rejected) ==> remote.log == old(remote.log) && remote.acts == old(remote.acts)
    ensures error != Some(Rejected) ==>
              exists report :: IsCombo(report, Modifiers(keys), Codes(keys))
                && Ran(Keyboard, [report, KEY_UP], KEY_UP, remote.log[|old(remote.log)|..], error.None?)
    ensures error != Some(Rejected) ==> CallHeeds(old(remote.acts), remote.acts, KEY_UP, true, error)
  {
    hide Heeds, Ran, IsCombo, AllKnown, Modifiers, Codes;
    var built := BuildKeyComboReport(keys);
    if built.Err? {
      return Some(Rejected);
    }
    error := PressAndRelease(remote, Keyboard, built.value, KEY_UP);
  }

  function OnScreen(x: real, y: real): bool {
    0.0 <= x <= 1.0 && 0.0 <= y <= 1.0
  }

  function Touch(x: real, y: real, buttons: byte): Report {
    AbsoluteReport(AbsoluteCoordinate(x), AbsoluteCoordinate(y), buttons, 0)
  }

  method TouchAbsoluteButton(remote: Remote, x: real, y: real, button: string) returns (error: Option<Failure>)
    modifies remote
    ensures old(remote.log) <= remote.log
    ensures error == Some(Rejected) <==> !(OnScreen(x, y) && ButtonBit(button).Some?)
    ensures error == Some(Rejected) ==> remote.log == old(remote.log) && remote.acts == old(remote.acts)
    ensures error != Some(Rejected) ==>
              Ran(Absolute, [Touch(x, y, ButtonBit(button).value), Touch(x, y, 0)], Touch(x, y, 0),
                  remote.log[|old(remote.log)|..], error.None?)
    ensures error != Some(Rejected) ==> CallHeeds(old(remote.acts), remote.acts, Touch(x, y, 0), true, error)
  {
    hide Heeds, Ran, Touch;
    if !OnScreen(x, y) {
      return Some(Rejected);
    }
    var bit := ButtonBit(button);
    if bit.None? {
      return Some(Rejected);
    }
    error := PressAndRelease(remote, Absolute, Touch(x, y, bit.value), Touch(x, y, 0));
  }

  /** Moves the pointer, with no button down: one report, unless the point is off the screen or the call
      is cancelled. */
  method MoveAbsolute(remote: Remote, x: real, y: real) returns (error: Option<Failure>)
    modifies remote
    ensures error == Some(Rejected) <==> !OnScreen(x, y)
    ensures error == Some(Rejected) ==> remote.log == old(remote.log) && remote.acts == old(remote.acts)
    ensures error == Some(Cancelled) ==>
              remote.log == old(remote.log) && remote.acts == old(remote.acts) + [Looked(true)]
    ensures error != Some(Rejected) && error != Some(Cancelled) ==>
              && remote.log == old(remote.log) + [Sent(Absolute, Touch(x, y, 0), error.None?)]
              && remote.acts == old(remote.acts) + [Looked(false), Tried(Absolute, Touch(x, y, 0), error.None?)]
  {
    hide Touch;
    if !OnScreen(x, y) {
      return Some(Rejected);
    }
    var ended := remote.ContextEnded();
    if ended {
      return Some(Cancelled);
    }
    var ok := remote.Write(Absolute, Touch(x, y, 0));
    return if ok then None else Some(WriteFailed);
  }

  function Clicking(bit: byte): Report {
    RelativeReport(0, 0, bit, 0)
  }

  function ClickReports(press: Report, clicks: nat): seq<Report> {
    if clicks == 0 then [] else ClickReports(press, clicks - 1) + [press, MOUSE_UP]
  }

  lemma {:induction false} ClickReportsAre(press: Report, clicks: nat)
    ensures var plan := ClickReports(press, clicks);
            |plan| == 2 * clicks && forall k :: 0 <= k < |plan| ==> plan[k] == if k % 2 == 0 then press else MOUSE_UP
  {
    if clicks > 0 {
      ClickReportsAre(press, clicks - 1);
    }
  }

  lemma ClickPlanLength(press: Report, clicks: nat)
    ensures |ClickReports(press, clicks)| == 2 * clicks
  {
    ClickReportsAre(press, clicks);
  }

  lemma ClickAt(press: Report, clicks: nat, i: nat)
    requires i < clicks
    ensures var plan := ClickReports(press, clicks);
            |plan| == 2 * clicks && plan[2 * i] == press && plan[2 * i + 1] == MOUSE_UP
  {
    hide ClickReports;
    ClickReportsAre(press, clicks);
  }

  /** As many clicks as asked for, but one at least and five at most. */
  method Click(remote: Remote, button: string, asked: Int) returns (error: Option<Failure>)
    modifies remote
    ensures old(remote.log) <= remote.log
    ensures error == Some(Rejected) <==> ButtonBit(button).None?
    ensures error == Some(Rejected) ==> remote.log == old(remote.log) && remote.acts == old(remote.acts)
    ensures error != Some(Rejected) ==>
              exists clicks: nat :: clicks == (if asked < 1 then 1 else if asked > 5 then 5 else asked)
                && Ran(Relative, ClickReports(Clicking(ButtonBit(button).value), clicks), MOUSE_UP,
                       remote.log[|old(remote.log)|..], error.None?)
    ensures error != Some(Rejected) ==> CallHeeds(old(remote.acts), remote.acts, MOUSE_UP, true, error)
  {
    hide Heeds, Ran;
    var bit := ButtonBit(button);
    if bit.None? {
      return Some(Rejected);
    }
    var clicks := Clamp(asked, 1, 5);
    error := ClickTimes(remote, Clicking(bit.value), clicks);
  }

  /** The loop of Click. */
  method ClickTimes(remote: Remote, press: Report, clicks: nat) returns (error: Option<Failure>)
    modifies remote
    ensures old(remote.log) <= remote.log && error != Some(Rejected)
    ensures Ran(Relative, ClickReports(press, clicks), MOUSE_UP, remote.log[|old(remote.log)|..], error.None?)
    ensures CallHeeds(old(remote.acts), remote.acts, MOUSE_UP, true, error)
  {
    hide Ran, AllSent, Sent, ClickReports, ActOk, GoesOn, Heeds;
    ghost var before, start, plan := remote.log, remote.acts, ClickReports(press, clicks);
    ghost var acts := [];
    ClickPlanLength(press, clicks);
    AllSentOfNone(Relative, plan);
    GoesOnAtFirst(MOUSE_UP, true);
    for i := 0 to clicks
      invariant remote.log == before + AllSent(Relative, plan[..2 * i])
      invariant remote.acts == start + acts && GoesOn(acts, MOUSE_UP, true)
    {
      ClickAt(press, clicks, i);
      error, acts := OneClick(remote, press, before, start, acts, plan, 2 * i);
      if error.Some? {
        return error;
      }
      if i + 1 < clicks {
        var ended := remote.ContextEnded();
        if ended {
          StopsWith(start, acts, Looked(true), [], remote.acts, MOUSE_UP, true);
          StopsBetween(Relative, plan, MOUSE_UP, 2 * i + 2, before, remote.log);
          return Some(Cancelled);
        }
        GoesOnWith(acts, Looked(false), MOUSE_UP, true);
        acts := acts + [Looked(false)];
      }
    }
    GoesOnToEnd(start, acts, remote.acts, MOUSE_UP, true);
    StopsAtEnd(Relative, plan, MOUSE_UP, before, remote.log);
    return None;
  }

  /** One click: a press, a wait, and the release. */
  method OneClick(remote: Remote, press: Report, ghost before: Log, ghost start: seq<Act>, ghost acts: seq<Act>,
                  ghost plan: seq<Report>, ghost k: nat)
    returns (error: Option<Failure>, ghost now: seq<Act>)
    requires k + 2 <= |plan| && plan[k] == press && plan[k + 1] == MOUSE_UP
    requires remote.log == before + AllSent(Relative, plan[..k])
    requires remote.acts == start + acts && GoesOn(acts, MOUSE_UP, true)
    modifies remote
    ensures before <= remote.log && start <= remote.acts && error != Some(Rejected)
    ensures error.None? ==>
              remote.log == before + AllSent(Relative, plan[..k + 2]) && remote.acts == start + now
              && GoesOn(now, MOUSE_UP, true)
    ensures error.Some? ==>
              Ran(Relative, plan, MOUSE_UP, remote.log[|before|..], false)
              && CallHeeds(start, remote.acts, MOUSE_UP, true, error)
  {
    hide Ran, AllSent, GoesOn, Heeds;
    error, now := LookAndWrite(remote, Relative, press, MOUSE_UP, true, before, start, acts, plan, k);
    if error.Some? {
      return error, now;
    }
    error, now := LookAndWrite(remote, Relative, MOUSE_UP, MOUSE_UP, true, before, start, now, plan, k + 1);
  }

  // ---------------------------------------------------------------- nothing stays down

  /** After keys are pressed, in any way the call can end, something is still held only if its last
      write, the release, failed. */
  lemma PressKeysEndsReleased(report: Report, before: Log, w: Log, ok: bool)
    requires Ran(Keyboard, [report, KEY_UP], KEY_UP, w, ok) && !MayHold(before, Keyboard)
    ensures MayHold(before + w, Keyboard) ==> w != [] && w[|w| - 1] == Sent(Keyboard, KEY_UP, false)
  {
    hide Ran, MayHold;
    RanEndsReleased(Keyboard, [report, KEY_UP], KEY_UP, before, w, ok);
  }

  /** The same after the screen is touched with a button, wherever that is. */
  lemma TouchEndsReleased(x: real, y: real, buttons: byte, before: Log, w: Log, ok: bool)
    requires Ran(Absolute, [Touch(x, y, buttons), Touch(x, y, 0)], Touch(x, y, 0), w, ok) && !MayHold(before, Absolute)
    ensures MayHold(before + w, Absolute) ==> w != [] && w[|w| - 1] == Sent(Absolute, Touch(x, y, 0), false)
  {
    hide Ran, MayHold, Touch;
    TouchReleases(x, y);
    RanEndsReleased(Absolute, [Touch(x, y, buttons), Touch(x, y, 0)], Touch(x, y, 0), before, w, ok);
  }

  lemma TouchReleases(x: real, y: real)
    ensures !Presses(Absolute, Touch(x, y, 0))
  {
  }

  lemma ClickingEndsReleased(press: Report, clicks: nat, before: Log, w: Log, ok: bool)
    requires Ran(Relative, ClickReports(press, clicks), MOUSE_UP, w, ok) && !MayHold(before, Relative)
    ensures MayHold(before + w, Relative) ==> w != [] && w[|w| - 1] == Sent(Relative, MOUSE_UP, false)
  {
    hide Ran, MayHold, ClickReports;
    ClickReportsAre(press, clicks);
    RanEndsReleased(Relative, ClickReports(press, clicks), MOUSE_UP, before, w, ok);
  }
}
