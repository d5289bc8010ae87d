/** The text-to-keyboard encoder, against a host that reads each report as an
    absolute state of the keyboard and types a character when a key newly goes
    down.  A `char` is one code point, as the source's `for of` takes them. */
module HidText {
  import opened Basics

  const REPORT_BYTES := 8
  const MOD_SHIFT: byte := 0x02

  /** Where ch stands in "abcdefghijklmnopqrstuvwxyz", or -1. */
  function LowerIndex(ch: char): int {
    if 'a' <= ch <= 'z' then ch as int - 'a' as int else -1
  }

  /** Where ch stands in "1234567890", or -1. */
  function DigitIndex(ch: char): int {
    if '1' <= ch <= '9' then ch as int - '1' as int else if ch == '0' then 9 else -1
  }

  /** The key a shifted character is printed on. */
  function Unshifted(ch: char): Option<char> {
    match ch
    case '!' => Some('1') case '@' => Some('2') case '#' => Some('3') case '$' => Some('4') case '%' => Some('5')
    case '^' => Some('6') case '&' => Some('7') case '*' => Some('8') case '(' => Some('9') case ')' => Some('0')
    case '_' => Some('-') case '+' => Some('=') case '{' => Some('[') case '}' => Some(']') case '|' => Some('\\')
    case ':' => Some(';') case '"' => Some('\'') case '~' => Some('`') case '<' => Some(',') case '>' => Some('.')
    case '?' => Some('/')
    case _ => None
  }

  function PunctUsage(ch: char): Option<byte> {
    match ch
    case '\n' => Some(0x28) case '\t' => Some(0x2b) case ' ' => Some(0x2c)
    case '-' => Some(0x2d) case '=' => Some(0x2e) case '[' => Some(0x2f) case ']' => Some(0x30) case '\\' => Some(0x31)
    case ';' => Some(0x33) case '\'' => Some(0x34) case '`' => Some(0x35) case ',' => Some(0x36) case '.' => Some(0x37)
    case '/' => Some(0x38)
    case _ => None
  }

  datatype Key = Key(usage: byte, shift: bool)

  function ToLower(ch: char): char
    requires 'A' <= ch <= 'Z'
  {
    ch + 32 as char
  }

  /** The measure says the recursion is at most one deep: no unshifted form is itself shifted. */
  function KeyFor(ch: char): Option<Key>
    decreases Unshifted(ch).Some?
  {
    if 'A' <= ch <= 'Z' then Some(Key(0x04 + LowerIndex(ToLower(ch)), true))
    else if LowerIndex(ch) != -1 then Some(Key(0x04 + LowerIndex(ch), false))
    else if DigitIndex(ch) != -1 then Some(Key(0x1e + DigitIndex(ch), false))
    else if Unshifted(ch).Some? then
      var base := KeyFor(Unshifted(ch).value);
      if base.Some? then Some(Key(base.value.usage, true)) else None
    else if PunctUsage(ch).Some? then Some(Key(PunctUsage(ch).value, false))
    else None
  }

  // ---------------------------------------------------------------- the host

  /** What each key types alone and with shift, US layout (appendix B.1 of USB HID 1.11). */
  function PlainCap(usage: byte): Option<char> {
    if 0x04 <= usage <= 0x1d then Some('a' + (usage - 0x04) as char)
    else if 0x1e <= usage <= 0x26 then Some('1' + (usage - 0x1e) as char)
    else match usage
      case 0x27 => Some('0') case 0x28 => Some('\n') case 0x2b => Some('\t') case 0x2c => Some(' ')
      case 0x2d => Some('-') case 0x2e => Some('=') case 0x2f => Some('[') case 0x30 => Some(']') case 0x31 => Some('\\')
      case 0x33 => Some(';') case 0x34 => Some('\'') case 0x35 => Some('`') case 0x36 => Some(',') case 0x37 => Some('.')
      case 0x38 => Some('/')
      case _ => None
  }

  function ShiftCap(usage: byte): Option<char> {
    if 0x04 <= usage <= 0x1d then Some('A' + (usage - 0x04) as char)
    else match usage
      case 0x1e => Some('!') case 0x1f => Some('@') case 0x20 => Some('#') case 0x21 => Some('$') case 0x22 => Some('%')
      case 0x23 => Some('^') case 0x24 => Some('&') case 0x25 => Some('*') case 0x26 => Some('(') case 0x27 => Some(')')
      case 0x28 => Some('\n') case 0x2b => Some('\t') case 0x2c => Some(' ')
      case 0x2d => Some('_') case 0x2e => Some('+') case 0x2f => Some('{') case 0x30 => Some('}') case 0x31 => Some('|')
      case 0x33 => Some(':') case 0x34 => Some('"') case 0x35 => Some('~') case 0x36 => Some('<') case 0x37 => Some('>')
      case 0x38 => Some('?')
      case _ => None
  }

  function CharOf(key: Key): Option<char> {
    if key.shift then ShiftCap(key.usage) else PlainCap(key.usage)
  }

  type Report = r: seq<byte> | |r| == 8 witness [0, 0, 0, 0, 0, 0, 0, 0]

  const RELEASE: Report := [0, 0, 0, 0, 0, 0, 0, 0]

  predicate ShiftHeld(r: Report) {
    (r[0] / 0x02) % 2 == 1 || (r[0] / 0x20) % 2 == 1
  }

  /** A Ctrl, Alt or GUI key is held: what is pressed is a shortcut, not a character. */
  predicate CommandHeld(r: Report) {
    var m := r[0];
    m % 2 == 1 || (m / 0x04) % 2 == 1 || (m / 0x08) % 2 == 1 || (m / 0x10) % 2 == 1 || (m / 0x40) % 2 == 1 || (m / 0x80) % 2 == 1
  }

  predicate Down(r: Report, usage: byte) {
    usage in r[2..]
  }

  /** What slots k.. of a report type, given the state before it: nothing while a command key is held. */
  function TypedSlots(before: Report, now: Report, k: nat): string
    requires 2 <= k <= 8
    decreases 8 - k
  {
    if k == 8 then ""
    else
      var u := now[k];
      var c := if u == 0 || Down(before, u) || CommandHeld(now) then None else CharOf(Key(u, ShiftHeld(now)));
      (if c.Some? then [c.value] else []) + TypedSlots(before, now, k + 1)
  }

  function HostTypes(before: Report, reports: seq<Report>): string
    decreases |reports|
  {
    if reports == [] then "" else TypedSlots(before, reports[0], 2) + HostTypes(reports[0], reports[1..])
  }

  // ---------------------------------------------------------------- the encoder

  function PressOf(key: Key): Report {
    [if key.shift then MOD_SHIFT else 0, 0, key.usage, 0, 0, 0, 0, 0]
  }

  function Reports(text: string): seq<Report> {
    if text == "" then []
    else
      var init, ch := text[..|text| - 1], text[|text| - 1];
      Reports(init) + if KeyFor(ch).Some? then [PressOf(KeyFor(ch).value), RELEASE] else []
  }

  /** The characters of text that have a key, or those that have none, in order. */
  function Sift(text: string, typable: bool): string {
    if text == "" then ""
    else
      var init, ch := text[..|text| - 1], text[|text| - 1];
      Sift(init, typable) + if KeyFor(ch).Some? == typable then [ch] else []
  }

  method ReportsFor(text: string) returns (reports: seq<array<byte>>, skipped: string)
    ensures |reports| == |Reports(text)|
    ensures forall i :: 0 <= i < |reports| ==> reports[i][..] == Reports(text)[i]
    ensures skipped == Sift(text, false)
  {
    reports, skipped := [], "";
    var release := new byte[REPORT_BYTES](_ => 0);
    for i := 0 to |text|
      invariant skipped == Sift(text[..i], false)
      invariant |reports| == |Reports(text[..i])|
      invariant release.Length == 8 && release[..] == RELEASE
      invariant forall k :: 0 <= k < |reports| ==> reports[k][..] == Reports(text[..i])[k]
    {
      assert text[..i + 1][..i] == text[..i];
      var ch := text[i];
      var key := KeyFor(ch);
      if key.None? {
        skipped := skipped + [ch];
        continue;
      }
      var press := new byte[REPORT_BYTES](_ => 0);
      press[0] := if key.value.shift then MOD_SHIFT else 0;
      press[2] := key.value.usage;
      assert press[..] == PressOf(key.value);
      reports := reports + [press, release];
    }
    assert text[..|text|] == text;
  }

  /** A report of one key at most, with shift or nothing held. */
  predicate PlainReport(r: Report) {
    (r[0] == 0 || r[0] == MOD_SHIFT) && r[1] == 0 && forall i :: 3 <= i < 8 ==> r[i] == 0
  }

  /** Every report sent holds nothing but shift, and one key at most; a press holds shift exactly when its key asks. */
  lemma {:induction false} ReportsArePlain(text: string)
    ensures |Reports(text)| % 2 == 0
    ensures forall i :: 0 <= i < |Reports(text)| ==>
              PlainReport(Reports(text)[i]) && (i % 2 == 1 ==> Reports(text)[i] == RELEASE)
  {
    if text != "" { ReportsArePlain(text[..|text| - 1]); }
  }

  // ---------------------------------------------------------------- the keys

  /** The host types back the character each key was looked up for. */
  lemma KeyRoundTrip(ch: char)
    requires KeyFor(ch).Some?
    ensures CharOf(KeyFor(ch).value) == Some(ch)
  {
    if Unshifted(ch).Some? {
      ShiftedRoundTrip(ch);
    } else if DigitIndex(ch) != -1 {
      DigitKey(ch);
    } else if PunctUsage(ch).Some? {
      PunctKey(ch);
      PunctCap(ch);
    } else {
      LetterRoundTrip(ch);
    }
  }

  lemma LetterRoundTrip(ch: char)
    requires KeyFor(ch).Some? && Unshifted(ch).None? && DigitIndex(ch) == -1 && PunctUsage(ch).None?
    ensures CharOf(KeyFor(ch).value) == Some(ch)
  {
  }

  lemma PunctCap(ch: char)
    requires PunctUsage(ch).Some?
    ensures PlainCap(PunctUsage(ch).value) == Some(ch)
  {
  }

  /** The key a shifted character is printed on, and that key's two characters. */
  lemma ShiftedRoundTrip(ch: char)
    requires Unshifted(ch).Some?
    ensures KeyFor(ch).Some? && CharOf(KeyFor(ch).value) == Some(ch)
  {
    var base := Unshifted(ch).value;
    UnshiftedIsPlain(ch);
    if DigitIndex(base) != -1 { DigitKey(base); } else { PunctKey(base); }
    assert KeyFor(ch) == Some(Key(KeyFor(base).value.usage, true));
    ShiftCapOfBase(ch, if DigitIndex(base) != -1 then 0x1e + DigitIndex(base) else PunctUsage(base).value);
  }

  lemma DigitKey(base: char)
    requires DigitIndex(base) != -1
    ensures KeyFor(base) == Some(Key(0x1e + DigitIndex(base), false))
  {
  }

  lemma PunctKey(base: char)
    requires PunctUsage(base).Some?
    ensures DigitIndex(base) == -1 && KeyFor(base) == Some(Key(PunctUsage(base).value, false))
  {
    assert Unshifted(base).None?;
  }

  lemma UnshiftedIsPlain(ch: char)
    requires Unshifted(ch).Some?
    ensures DigitIndex(Unshifted(ch).value) != -1 || PunctUsage(Unshifted(ch).value).Some?
    ensures Unshifted(Unshifted(ch).value).None?
  {
  }

  lemma ShiftCapOfBase(ch: char, usage: byte)
    requires Unshifted(ch).Some?
    requires var base := Unshifted(ch).value;
             if DigitIndex(base) != -1 then usage == 0x1e + DigitIndex(base) else PunctUsage(base) == Some(usage)
    ensures ShiftCap(usage) == Some(ch)
  {
  }

  /** No two characters share a key and a shift state. */
  lemma KeyForInjective(c: char, d: char)
    requires KeyFor(c).Some? && KeyFor(c) == KeyFor(d)
    ensures c == d
  {
    KeyRoundTrip(c);
    KeyRoundTrip(d);
  }

  /** The characters the tables name. */
  predicate InTables(ch: char) {
    'A' <= ch <= 'Z' || LowerIndex(ch) != -1 || DigitIndex(ch) != -1 || Unshifted(ch).Some? || PunctUsage(ch).Some?
  }

  lemma TypableInTables(ch: char)
    ensures KeyFor(ch).Some? <==> InTables(ch)
  {
    if Unshifted(ch).Some? { ShiftedRoundTrip(ch); }
  }

  lemma TablesArePrintable(ch: char)
    ensures InTables(ch) <==> ' ' <= ch <= '~' || ch == '\n' || ch == '\t'
  {
  }

  /** Exactly printable ASCII, Tab and Enter can be typed. */
  lemma TypableExactly(ch: char)
    ensures KeyFor(ch).Some? <==> ' ' <= ch <= '~' || ch == '\n' || ch == '\t'
  {
    hide KeyFor, InTables;
    TypableInTables(ch);
    TablesArePrintable(ch);
  }

  lemma TypableUsage(ch: char)
    requires KeyFor(ch).Some?
    ensures KeyFor(ch).value.usage != 0
  {
    KeyRoundTrip(ch);
  }

  // ---------------------------------------------------------------- the keystroke round trip

  lemma {:induction false} HostTypesAppend(before: Report, a: seq<Report>, b: seq<Report>)
    ensures HostTypes(before, a + b) == HostTypes(before, a) + HostTypes(if a == [] then before else a[|a| - 1], b)
    decreases a
  {
    hide TypedSlots;
    if a == [] {
      assert a + b == b;
    } else {
      HostTypesAppend(a[0], a[1..], b);
      assert (a + b)[1..] == a[1..] + b;
    }
  }

  /** A press types its character exactly when its key was up. */
  lemma PressTypes(before: Report, ch: char)
    requires KeyFor(ch).Some?
    ensures TypedSlots(before, PressOf(KeyFor(ch).value), 2) == if Down(before, KeyFor(ch).value.usage) then "" else [ch]
  {
    hide KeyFor, CharOf;
    KeyRoundTrip(ch);
    TypableUsage(ch);
    NothingTyped(before, PressOf(KeyFor(ch).value), 3);
  }

  lemma NothingTyped(before: Report, now: Report, k: nat)
    requires 2 <= k <= 8 && forall i :: k <= i < 8 ==> now[i] == 0
    ensures TypedSlots(before, now, k) == ""
    decreases 8 - k
  {
    if k < 8 { NothingTyped(before, now, k + 1); }
  }

  lemma EndsReleased(text: string)
    ensures var rs := Reports(text); rs == [] || rs[|rs| - 1] == RELEASE
  {
    if text != "" { EndsReleased(text[..|text| - 1]); }
  }

  /** The host types the text less what was skipped, repeated letters included. */
  lemma {:induction false} KeystrokeRoundTrip(text: string)
    ensures HostTypes(RELEASE, Reports(text)) == Sift(text, true)
  {
    hide KeyFor, HostTypes;
    TwoReports(RELEASE, RELEASE, RELEASE);
    if text != "" {
      var init, ch := text[..|text| - 1], text[|text| - 1];
      KeystrokeRoundTrip(init);
      EndsReleased(init);
      if KeyFor(ch).Some? {
        var press := PressOf(KeyFor(ch).value);
        HostTypesAppend(RELEASE, Reports(init), [press, RELEASE]);
        PressAndRelease(ch);
      } else {
        assert Reports(text) == Reports(init);
      }
    }
  }

  lemma PressAndRelease(ch: char)
    requires KeyFor(ch).Some?
    ensures HostTypes(RELEASE, [PressOf(KeyFor(ch).value), RELEASE]) == [ch]
  {
    hide KeyFor, HostTypes;
    var press := PressOf(KeyFor(ch).value);
    PressTypes(RELEASE, ch);
    UpAtFirst(ch);
    NothingTyped(press, RELEASE, 2);
    TwoReports(RELEASE, press, RELEASE);
  }

  lemma TwoReports(before: Report, r: Report, s: Report)
    ensures HostTypes(before, []) == ""
    ensures HostTypes(before, [r]) == TypedSlots(before, r, 2)
    ensures HostTypes(before, [r, s]) == TypedSlots(before, r, 2) + TypedSlots(r, s, 2)
  {
    assert [r, s][1..] == [s] && [s][1..] == [] && [r][1..] == [];
    assert HostTypes(r, [s]) == TypedSlots(r, s, 2) + HostTypes(s, []);
  }

  /** Presses with no release between them. */
  function PressesOnly(text: string): seq<Report> {
    if text == "" then []
    else
      var init, ch := text[..|text| - 1], text[|text| - 1];
      PressesOnly(init) + if KeyFor(ch).Some? then [PressOf(KeyFor(ch).value)] else []
  }

  /** Two characters in a row on one physical key. */
  predicate RepeatsAKey(t: string) {
    |t| >= 2 && (SameKey(t[|t| - 2], t[|t| - 1]) || RepeatsAKey(t[..|t| - 1]))
  }

  predicate SameKey(c: char, d: char) {
    KeyFor(c).Some? && KeyFor(d).Some? && KeyFor(c).value.usage == KeyFor(d).value.usage
  }

  lemma {:induction false} PressesLast(text: string)
    ensures var t, ps := Sift(text, true), PressesOnly(text);
            |ps| == |t| && (t != "" ==> KeyFor(t[|t| - 1]).Some? && ps[|ps| - 1] == PressOf(KeyFor(t[|t| - 1]).value))
  {
    if text != "" { PressesLast(text[..|text| - 1]); }
  }

  lemma {:induction false} HeldTypes(text: string)
    ensures |HostTypes(RELEASE, PressesOnly(text))| <= |Sift(text, true)|
    ensures HostTypes(RELEASE, PressesOnly(text)) == Sift(text, true) <==> !RepeatsAKey(Sift(text, true))
  {
    hide KeyFor, HostTypes, SameKey, TypedSlots, Down, PressOf;
    TwoReports(RELEASE, RELEASE, RELEASE);
    if text != "" {
      var init, ch := text[..|text| - 1], text[|text| - 1];
      HeldTypes(init);
      PressesLast(init);
      var t, ps := Sift(init, true), PressesOnly(init);
      if KeyFor(ch).Some? {
        var press := PressOf(KeyFor(ch).value);
        var before := if ps == [] then RELEASE else ps[|ps| - 1];
        HostTypesAppend(RELEASE, ps, [press]);
        PressTypes(before, ch);
        TypableUsage(ch);
        TwoReports(before, press, RELEASE);
        assert (t + [ch])[..|t|] == t;
        if t != "" { HeldKey(t[|t| - 1], ch); } else { UpAtFirst(ch); }
        var h := HostTypes(RELEASE, ps);
        if h + [ch] == t + [ch] { assert (h + [ch])[..|h|] == (t + [ch])[..|t|]; }
      } else {
        assert PressesOnly(text) == ps;
        assert Sift(text, true) == t;
      }
    }
  }

  lemma HeldKey(c: char, d: char)
    requires KeyFor(c).Some? && KeyFor(d).Some?
    ensures Down(PressOf(KeyFor(c).value), KeyFor(d).value.usage) <==> SameKey(c, d)
  {
    TypableUsage(d);
    var key := KeyFor(c).value;
    assert PressOf(key)[2..] == [key.usage, 0, 0, 0, 0, 0];
  }

  lemma UpAtFirst(ch: char)
    requires KeyFor(ch).Some?
    ensures !Down(RELEASE, KeyFor(ch).value.usage)
  {
    TypableUsage(ch);
  }
}
