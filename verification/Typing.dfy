/**
 Typing text: every character of the default table becomes a key-down report and a key-up report.

 `HostTypes` is the other side, written without the table: a target that watches the reports, emits
 the character of every key that goes down, and knows the US layout by its usage codes.
 */
module Typing {
  import opened Wrappers
  import opened HidHost
  import opened Remotes

  datatype Key = Key(modifiers: byte, code: byte)

  // ---------------------------------------------------------------- the default table

  function LowercaseKey(c: char): Option<Key> {
    match c
    case 'a' => Some(Key(0, 4))
    case 'b' => Some(Key(0, 5))
    case 'c' => Some(Key(0, 6))
    case 'd' => Some(Key(0, 7))
    case 'e' => Some(Key(0, 8))
    case 'f' => Some(Key(0, 9))
    case 'g' => Some(Key(0, 10))
    case 'h' => Some(Key(0, 11))
    case 'i' => Some(Key(0, 12))
    case 'j' => Some(Key(0, 13))
    case 'k' => Some(Key(0, 14))
    case 'l' => Some(Key(0, 15))
    case 'm' => Some(Key(0, 16))
    case 'n' => Some(Key(0, 17))
    case 'o' => Some(Key(0, 18))
    case 'p' => Some(Key(0, 19))
    case 'q' => Some(Key(0, 20))
    case 'r' => Some(Key(0, 21))
    case 's' => Some(Key(0, 22))
    case 't' => Some(Key(0, 23))
    case 'u' => Some(Key(0, 24))
    case 'v' => Some(Key(0, 25))
    case 'w' => Some(Key(0, 26))
    case 'x' => Some(Key(0, 27))
    case 'y' => Some(Key(0, 28))
    case 'z' => Some(Key(0, 29))
    case _ => None
  }

  function UppercaseKey(c: char): Option<Key> {
    match c
    case 'A' => Some(Key(2, 4))
    case 'B' => Some(Key(2, 5))
    case 'C' => Some(Key(2, 6))
    case 'D' => Some(Key(2, 7))
    case 'E' => Some(Key(2, 8))
    case 'F' => Some(Key(2, 9))
    case 'G' => Some(Key(2, 10))
    case 'H' => Some(Key(2, 11))
    case 'I' => Some(Key(2, 12))
    case 'J' => Some(Key(2, 13))
    case 'K' => Some(Key(2, 14))
    case 'L' => Some(Key(2, 15))
    case 'M' => Some(Key(2, 16))
    case 'N' => Some(Key(2, 17))
    case 'O' => Some(Key(2, 18))
    case 'P' => Some(Key(2, 19))
    case 'Q' => Some(Key(2, 20))
    case 'R' => Some(Key(2, 21))
    case 'S' => Some(Key(2, 22))
    case 'T' => Some(Key(2, 23))
    case 'U' => Some(Key(2, 24))
    case 'V' => Some(Key(2, 25))
    case 'W' => Some(Key(2, 26))
    case 'X' => Some(Key(2, 27))
    case 'Y' => Some(Key(2, 28))
    case 'Z' => Some(Key(2, 29))
    case _ => None
  }

  function NumberKey(c: char): Option<Key> {
    match c
    case '1' => Some(Key(0, 30))
    case '2' => Some(Key(0, 31))
    case '3' => Some(Key(0, 32))
    case '4' => Some(Key(0, 33))
    case '5' => Some(Key(0, 34))
    case '6' => Some(Key(0, 35))
    case '7' => Some(Key(0, 36))
    case '8' => Some(Key(0, 37))
    case '9' => Some(Key(0, 38))
    case '0' => Some(Key(0, 39))
    case _ => None
  }

  function ShiftedNumberKey(c: char): Option<Key> {
    match c
    case '!' => Some(Key(2, 30))
    case '@' => Some(Key(2, 31))
    case '#' => Some(Key(2, 32))
    case '$' => Some(Key(2, 33))
    case '%' => Some(Key(2, 34))
    case '^' => Some(Key(2, 35))
    case '&' => Some(Key(2, 36))
    case '*' => Some(Key(2, 37))
    case '(' => Some(Key(2, 38))
    case ')' => Some(Key(2, 39))
    case _ => None
  }

  function OtherKey(c: char): Option<Key> {
    match c
    case '\n' => Some(Key(0, 40))
    case '\t' => Some(Key(0, 43))
    case ' ' => Some(Key(0, 44))
    case '-' => Some(Key(0, 45))
    case '=' => Some(Key(0, 46))
    case '[' => Some(Key(0, 47))
    case ']' => Some(Key(0, 48))
    case '\\' => Some(Key(0, 49))
    case ';' => Some(Key(0, 51))
    case '\'' => Some(Key(0, 52))
    case '`' => Some(Key(0, 53))
    case ',' => Some(Key(0, 54))
    case '.' => Some(Key(0, 55))
    case '/' => Some(Key(0, 56))
    case _ => None
  }

  function ShiftedSymbolKey(c: char): Option<Key> {
    match c
    case '_' => Some(Key(2, 45))
    case '+' => Some(Key(2, 46))
    case '{' => Some(Key(2, 47))
    case '}' => Some(Key(2, 48))
    case '|' => Some(Key(2, 49))
    case ':' => Some(Key(2, 51))
    case '"' => Some(Key(2, 52))
    case '~' => Some(Key(2, 53))
    case '<' => Some(Key(2, 54))
    case '>' => Some(Key(2, 55))
    case '?' => Some(Key(2, 56))
    case _ => None
  }

  /** GetCharMap with no language: the default table. */
  function CharKey(c: char): Option<Key> {
    if LowercaseKey(c).Some? then LowercaseKey(c)
    else if UppercaseKey(c).Some? then UppercaseKey(c)
    else if NumberKey(c).Some? then NumberKey(c)
    else if ShiftedNumberKey(c).Some? then ShiftedNumberKey(c)
    else if OtherKey(c).Some? then OtherKey(c)
    else ShiftedSymbolKey(c)
  }

  // ---------------------------------------------------------------- the target

  predicate Shifted(modifiers: byte) {
    modifiers / 2 % 2 == 1 || modifiers / 32 % 2 == 1
  }

  /** The US keyboard by usage code: letters from 4, digits from 30, then the symbol keys. */
  function HostChar(modifiers: byte, code: byte): Option<char> {
    var shift := Shifted(modifiers);
    if 4 <= code <= 29 then Some(((if shift then 'A' else 'a') as int + code - 4) as char)
    else if 30 <= code <= 38 && !shift then Some(('1' as int + code - 30) as char)
    else
      match code
      case 30 => Some('!')
      case 31 => Some('@')
      case 32 => Some('#')
      case 33 => Some('$')
      case 34 => Some('%')
      case 35 => Some('^')
      case 36 => Some('&')
      case 37 => Some('*')
      case 38 => Some('(')
      case 39 => Some(if shift then ')' else '0')
      case 40 => Some('\n')
      case 43 => Some('\t')
      case 44 => Some(' ')
      case 45 => Some(if shift then '_' else '-')
      case 46 => Some(if shift then '+' else '=')
      case 47 => Some(if shift then '{' else '[')
      case 48 => Some(if shift then '}' else ']')
      case 49 => Some(if shift then '|' else '\\')
      case 51 => Some(if shift then ':' else ';')
      case 52 => Some(if shift then '"' else '\'')
      case 53 => Some(if shift then '~' else '`')
      case 54 => Some(if shift then '<' else ',')
      case 55 => Some(if shift then '>' else '.')
      case 56 => Some(if shift then '?' else '/')
      case _ => None
  }

  /** What going from one report to the next types: the keys of slots k and up that were not down. */
  function Newly(before: Report, now: Report, k: nat): string
    decreases 8 - k
  {
    if k >= 8 || |now| != 8 then ""
    else
      var typed := HostChar(now[0], now[k]);
      (if now[k] == 0 || (|before| == 8 && now[k] in before[2..]) || typed.None? then "" else [typed.value])
      + Newly(before, now, k + 1)
  }

  function Last(reports: seq<Report>): Report {
    if reports == [] then KEY_UP else reports[|reports| - 1]
  }

  function HostTypes(reports: seq<Report>): string {
    if reports == [] then ""
    else
      var init := reports[..|reports| - 1];
      HostTypes(init) + Newly(Last(init), Last(reports), 2)
  }

  // ---------------------------------------------------------------- reports for a text

  function KeyDown(key: Key): Report {
    [key.modifiers, 0, key.code, 0, 0, 0, 0, 0]
  }

  function TypeReports(text: string): seq<Report> {
    if text == "" then []
    else
      var key := CharKey(text[|text| - 1]);
      TypeReports(text[..|text| - 1]) + if key.Some? then [KeyDown(key.value), KEY_UP] else []
  }

  /** Printable ASCII, the line feed and the tabulator. */
  predicate Printable(c: char) {
    ' ' <= c <= '~' || c == '\n' || c == '\t'
  }

  function Typeable(text: string): string {
    if text == "" then ""
    else Typeable(text[..|text| - 1]) + if Printable(text[|text| - 1]) then [text[|text| - 1]] else []
  }

  function Skipped(text: string): string {
    if text == "" then ""
    else Skipped(text[..|text| - 1]) + if Printable(text[|text| - 1]) then [] else [text[|text| - 1]]
  }

  method BuildTypeReports(text: string) returns (reports: seq<Report>, skipped: string)
    ensures reports == TypeReports(text) && skipped == Skipped(text)
  {
    hide CharKey;
    reports, skipped := [], "";
    for i := 0 to |text|
      invariant reports == TypeReports(text[..i]) && skipped == Skipped(text[..i])
    {
      assert text[..i + 1][..i] == text[..i];
      TableIsComplete(text[i]);
      var key := CharKey(text[i]);
      if key.None? {
        skipped := skipped + [text[i]];
        continue;
      }
      reports := reports + [KeyDown(key.value), KEY_UP];
    }
    assert text[..|text|] == text;
  }

  lemma LettersAreThere(c: char)
    ensures LowercaseKey(c).Some? <==> 'a' <= c <= 'z'
    ensures UppercaseKey(c).Some? <==> 'A' <= c <= 'Z'
  {
  }

  lemma NumbersAreThere(c: char)
    ensures NumberKey(c).Some? <==> '0' <= c <= '9'
    ensures ShiftedNumberKey(c).Some? <==> c in "!@#$%^&*()"
  {
  }

  lemma SymbolsAreThere(c: char)
    ensures OtherKey(c).Some? <==> c in "\n\t -=[]\\;'`,./"
    ensures ShiftedSymbolKey(c).Some? <==> c in "_+{}|:\"~<>?"
  {
  }

  /** The default table has every printable ASCII character, the line feed and the tabulator, and no
      other character: all that the target can type. */
  lemma TableIsComplete(c: char)
    ensures CharKey(c).Some? <==> Printable(c)
  {
    hide LowercaseKey, UppercaseKey, NumberKey, ShiftedNumberKey, OtherKey, ShiftedSymbolKey;
    LettersAreThere(c);
    NumbersAreThere(c);
    SymbolsAreThere(c);
  }

  /** Whatever the target could type is typeable. */
  lemma TargetTypesNoMore(modifiers: byte, code: byte)
    ensures HostChar(modifiers, code).Some? ==> Printable(HostChar(modifiers, code).value)
  {
  }

  // ---------------------------------------------------------------- the round trip

  lemma LowercaseIsRead(c: char)
    ensures LowercaseKey(c).Some? ==>
              var k := LowercaseKey(c).value; k.code != 0 && HostChar(k.modifiers, k.code) == Some(c)
  {
  }

  lemma UppercaseIsRead(c: char)
    ensures UppercaseKey(c).Some? ==>
              var k := UppercaseKey(c).value; k.code != 0 && HostChar(k.modifiers, k.code) == Some(c)
  {
  }

  lemma NumbersAreRead(c: char)
    ensures NumberKey(c).Some? ==> var k := NumberKey(c).value; k.code != 0 && HostChar(k.modifiers, k.code) == Some(c)
    ensures ShiftedNumberKey(c).Some? ==>
              var k := ShiftedNumberKey(c).value; k.code != 0 && HostChar(k.modifiers, k.code) == Some(c)
  {
  }

  lemma SymbolsAreRead(c: char)
    ensures OtherKey(c).Some? ==> var k := OtherKey(c).value; k.code != 0 && HostChar(k.modifiers, k.code) == Some(c)
    ensures ShiftedSymbolKey(c).Some? ==>
              var k := ShiftedSymbolKey(c).value; k.code != 0 && HostChar(k.modifiers, k.code) == Some(c)
  {
  }

  /** The target reads every character of the default table as that character. */
  lemma TableIsRead(c: char)
    requires CharKey(c).Some?
    ensures var k := CharKey(c).value; k.code != 0 && HostChar(k.modifiers, k.code) == Some(c)
  {
    hide LowercaseKey, UppercaseKey, NumberKey, ShiftedNumberKey, OtherKey, ShiftedSymbolKey, HostChar;
    LowercaseIsRead(c);
    UppercaseIsRead(c);
    NumbersAreRead(c);
    SymbolsAreRead(c);
  }

  /** Hence no two characters share a key. */
  lemma TableIsInjective(c: char, e: char)
    requires CharKey(c).Some? && CharKey(c) == CharKey(e)
    ensures c == e
  {
    hide CharKey, HostChar;
    TableIsRead(c);
    TableIsRead(e);
  }

  lemma HostTypesMore(reports: seq<Report>, r: Report)
    ensures HostTypes(reports + [r]) == HostTypes(reports) + Newly(Last(reports), r, 2)
  {
    assert (reports + [r])[..|reports|] == reports;
  }

  /** A report with no key from slot k on types nothing from there. */
  lemma {:induction false} NothingNew(before: Report, now: Report, k: nat)
    requires forall j :: k <= j < |now| ==> now[j] == 0
    ensures Newly(before, now, k) == ""
    decreases 8 - k
  {
    if k < 8 && |now| == 8 {
      NothingNew(before, now, k + 1);
    }
  }

  lemma KeyDownTypes(c: char)
    requires CharKey(c).Some?
    ensures Newly(KEY_UP, KeyDown(CharKey(c).value), 2) == [c]
  {
    hide CharKey, HostChar;
    TableIsRead(c);
    NothingNew(KEY_UP, KeyDown(CharKey(c).value), 3);
  }

  lemma {:induction false} TypeReportsEndUp(text: string)
    ensures Last(TypeReports(text)) == KEY_UP
    ensures |TypeReports(text)| % 2 == 0
    ensures forall k :: 0 <= k < |TypeReports(text)| && k % 2 == 1 ==> TypeReports(text)[k] == KEY_UP
  {
    hide CharKey;
    if text != "" {
      TypeReportsEndUp(text[..|text| - 1]);
    }
  }

  /** Typing and reading back: the target gets exactly the printable characters, line feeds and
      tabulators of the text, in order. */
  lemma {:induction false} TypingRoundTrip(text: string)
    ensures HostTypes(TypeReports(text)) == Typeable(text)
  {
    hide CharKey, Newly;
    if text != "" {
      var init, c := text[..|text| - 1], text[|text| - 1];
      TypingRoundTrip(init);
      TableIsComplete(c);
      if CharKey(c).Some? {
        var before, down := TypeReports(init), KeyDown(CharKey(c).value);
        TypeReportsEndUp(init);
        KeyDownTypes(c);
        HostTypesMore(before, down);
        HostTypesMore(before + [down], KEY_UP);
        NothingNew(down, KEY_UP, 2);
        assert before + [down, KEY_UP] == before + [down] + [KEY_UP];
      } else {
        assert TypeReports(init) + [] == TypeReports(init);
      }
    }
  }

  lemma {:induction false} HostTypesPrefix(reports: seq<Report>, k: nat)
    requires k <= |reports|
    ensures HostTypes(reports[..k]) <= HostTypes(reports)
    decreases |reports|
  {
    if k < |reports| {
      var init := reports[..|reports| - 1];
      HostTypesPrefix(init, k);
      assert init[..k] == reports[..k];
    } else {
      assert reports[..k] == reports;
    }
  }

  /** Whichever failed writes arrive: typing that succeeds types exactly the typeable characters, and
      typing that fails types a beginning of them. */
  lemma TypingIsExact(text: string, w: Log, ok: bool, d: seq<bool>)
    requires Ran(Keyboard, TypeReports(text), KEY_UP, w, ok) && CouldDeliver(w, d)
    ensures var typed := HostTypes(Delivered(w, d, Keyboard));
            if ok then typed == Typeable(text) else typed <= Typeable(text)
  {
    hide Ran, Delivered, TypeReports, HostTypes;
    var plan := TypeReports(text);
    RanDelivers(Keyboard, plan, KEY_UP, w, ok, d);
    TypingRoundTrip(text);
    if !ok {
      var k: nat :| k <= |plan|
          && (Delivered(w, d, Keyboard) == plan[..k] || Delivered(w, d, Keyboard) == plan[..k] + [KEY_UP]);
      HostTypesPrefix(plan, k);
      HostTypesMore(plan[..k], KEY_UP);
      NothingNew(Last(plan[..k]), KEY_UP, 2);
    }
  }

  // ---------------------------------------------------------------- the calls

  method TypeText(remote: Remote, text: string) returns (skipped: string, error: Option<Failure>)
    modifies remote
    ensures old(remote.log) <= remote.log
    ensures skipped == Skipped(text)
    ensures Ran(Keyboard, TypeReports(text), KEY_UP, remote.log[|old(remote.log)|..], error.None?)
    ensures CallHeeds(old(remote.acts), remote.acts, KEY_UP, true, error)
  {
    hide TypeReports, Ran, AllSent, Skipped, Sent, ActOk, GoesOn, Heeds;
    var reports: seq<Report>;
    reports, skipped := BuildTypeReports(text);
    ghost var before, start := remote.log, remote.acts;
    ghost var acts := [];
    TypeReportsEndUp(text);
    AllSentOfNone(Keyboard, reports);
    GoesOnAtFirst(KEY_UP, true);
    var keyDown := false;
    for index := 0 to |reports|
      invariant remote.log == before + AllSent(Keyboard, reports[..index])
      invariant remote.acts == start + acts && GoesOn(acts, KEY_UP, true)
      invariant keyDown <==> index % 2 == 1
    {
      var ended := remote.ContextEnded();
      if ended {
        if keyDown {
          var last := remote.Write(Keyboard, KEY_UP);
          StopsWith(start, acts, Looked(true), [Tried(Keyboard, KEY_UP, last)], remote.acts, KEY_UP, true);
          StopsReleasing(Keyboard, reports, KEY_UP, index, before, remote.log, last);
        } else {
          StopsWith(start, acts, Looked(true), [], remote.acts, KEY_UP, true);
          StopsBetween(Keyboard, reports, KEY_UP, index, before, remote.log);
        }
        return skipped, Some(Cancelled);
      }
      GoesOnWith(acts, Looked(false), KEY_UP, true);
      acts := acts + [Looked(false)];
      var ok := remote.Write(Keyboard, reports[index]);
      if !ok {
        var last := remote.Write(Keyboard, KEY_UP);
        StopsWith(start, acts, Tried(Keyboard, reports[index], false), [Tried(Keyboard, KEY_UP, last)], remote.acts,
          KEY_UP, true);
        StopsFailing(Keyboard, reports, KEY_UP, index, before, remote.log, last);
        return skipped, Some(WriteFailed);
      }
      GoesOnWith(acts, Tried(Keyboard, reports[index], true), KEY_UP, true);
      acts := acts + [Tried(Keyboard, reports[index], true)];
      SentNext(Keyboard, reports, index);
      keyDown := index % 2 == 0;
      if !keyDown && index + 1 < |reports| {
        ended := remote.ContextEnded();
        if ended {
          StopsWith(start, acts, Looked(true), [], remote.acts, KEY_UP, true);
          StopsBetween(Keyboard, reports, KEY_UP, index + 1, before, remote.log);
          return skipped, Some(Cancelled);
        }
        GoesOnWith(acts, Looked(false), KEY_UP, true);
        acts := acts + [Looked(false)];
      }
    }
    GoesOnToEnd(start, acts, remote.acts, KEY_UP, true);
    StopsAtEnd(Keyboard, reports, KEY_UP, before, remote.log);
    return skipped, None;
  }

  // ---------------------------------------------------------------- nothing stays down

  /** On every way out the last report attempted, if there was one, is the key-up. */
  lemma TypingEndsWithKeyUp(text: string, w: Log, ok: bool)
    requires Ran(Keyboard, TypeReports(text), KEY_UP, w, ok) && w != []
    ensures w[|w| - 1] == Sent(Keyboard, KEY_UP, w[|w| - 1].ok)
  {
    hide Ran, TypeReports;
    TypeReportsEndUp(text);
    RanEndsWithRelease(Keyboard, TypeReports(text), KEY_UP, w, ok);
  }

  /** So after typing, in any way it can end, something is still held only if that report failed. */
  lemma TypingEndsReleased(text: string, before: Log, w: Log, ok: bool)
    requires Ran(Keyboard, TypeReports(text), KEY_UP, w, ok) && !MayHold(before, Keyboard)
    ensures MayHold(before + w, Keyboard) ==> w != [] && w[|w| - 1] == Sent(Keyboard, KEY_UP, false)
  {
    hide Ran, TypeReports, MayHold;
    TypeReportsEndUp(text);
    RanEndsReleased(Keyboard, TypeReports(text), KEY_UP, before, w, ok);
  }
}
