/** The JSON text of a value, compact or indented, and reading it back (sections 2 to 7 of RFC 8259). */
module Json {

  import opened Wrappers
  import opened Text
  import opened PlanSchema

  // ---------------------------------------------------------------------------
  // Strings
  // ---------------------------------------------------------------------------

  function HexDigit(n: nat): char
    requires n < 16
  {
    if n < 10 then ('0' as int + n) as char else ('a' as int + n - 10) as char
  }

  function HexValue(c: char): Option<nat> {
    if '0' <= c <= '9' then Some(c as int - '0' as int)
    else if 'a' <= c <= 'f' then Some(c as int - 'a' as int + 10)
    else if 'A' <= c <= 'F' then Some(c as int - 'A' as int + 10)
    else None
  }

  /** The escape of one character; everything but quotes, backslashes and control characters stays as it is. */
  function EscapeChar(c: char): string {
    if c == '"' then "\\\""
    else if c == '\\' then "\\\\"
    else if c == '\n' then "\\n"
    else if c == '\r' then "\\r"
    else if c == '\t' then "\\t"
    else if c as int == 0x0c then "\\f"
    else if c as int == 0x08 then "\\b"
    else if c as int < 0x20 then "\\u00" + [HexDigit(c as int / 16), HexDigit(c as int % 16)]
    else [c]
  }

  function Escape(s: string): string {
    if s == "" then "" else EscapeChar(s[0]) + Escape(s[1..])
  }

  function Quote(s: string): string {
    "\"" + Escape(s) + "\""
  }

  /** Read one character of a string body, escaped or plain, and return what is left. */
  function ReadChar(s: string): (r: Option<(char, string)>)
    ensures r.Some? ==> |r.value.1| < |s|
  {
    if s == "" || s[0] == '"' || s[0] as int < 0x20 then None
    else if s[0] != '\\' then Some((s[0], s[1..]))
    else if |s| < 2 then None
    else if s[1] == 'u' then ReadHex(s[2..])
    else match Unescape(s[1])
      case None => None
      case Some(c) => Some((c, s[2..]))
  }

  function Unescape(c: char): Option<char> {
    match c
    case '"' => Some('"')
    case '\\' => Some('\\')
    case '/' => Some('/')
    case 'b' => Some(0x08 as char)
    case 'f' => Some(0x0c as char)
    case 'n' => Some('\n')
    case 'r' => Some('\r')
    case 't' => Some('\t')
    case _ => None
  }

  /** Four hex digits naming a character that is not a surrogate. */
  function ReadHex(s: string): (r: Option<(char, string)>)
    ensures r.Some? ==> |r.value.1| < |s|
  {
    if |s| < 4 then None
    else
      match (HexValue(s[0]), HexValue(s[1]), HexValue(s[2]), HexValue(s[3]))
      case (Some(a), Some(b), Some(c), Some(d)) =>
        var code := a * 4096 + b * 256 + c * 16 + d;
        if code >= 0x10000 || 0xD800 <= code < 0xE000 then None else Some((code as char, s[4..]))
      case _ => None
  }

  /** Read a string body up to its closing quote. */
  function ReadString(s: string): (r: Option<(string, string)>)
    ensures r.Some? ==> |r.value.1| < |s|
    decreases |s|
  {
    if s != "" && s[0] == '"' then Some(("", s[1..]))
    else match ReadChar(s)
      case None => None
      case Some((c, rest)) =>
        match ReadString(rest)
        case None => None
        case Some((text, after)) => Some(([c] + text, after))
  }

  lemma ReadEscapedChar(c: char, rest: string)
    ensures ReadChar(EscapeChar(c) + rest) == Some((c, rest))
    ensures (EscapeChar(c) + rest)[0] != '"'
  {
    var s := EscapeChar(c) + rest;
    if EscapeChar(c) == [c] {
      assert s[1..] == rest;
    } else if |EscapeChar(c)| == 2 {
      assert s[2..] == rest;
    } else {
      assert s[2..] == "00" + [HexDigit(c as int / 16), HexDigit(c as int % 16)] + rest;
      assert s[2..][4..] == rest;
    }
  }

  /** A quoted string reads back as itself, whatever follows it. */
  lemma {:induction false} ReadEscapedString(s: string, rest: string)
    ensures ReadString(Escape(s) + "\"" + rest) == Some((s, rest))
  {
    if s == "" {
      assert (Escape(s) + "\"" + rest)[1..] == rest;
    } else {
      var tail := Escape(s[1..]) + "\"" + rest;
      ReadEscapedString(s[1..], rest);
      ReadEscapedChar(s[0], tail);
      assert Escape(s) + "\"" + rest == EscapeChar(s[0]) + tail;
      assert [s[0]] + s[1..] == s;
    }
  }

  /** Quotes, backslashes and the five control characters with a short escape take two characters, other control
      characters six, and everything else stays one. */
  lemma EscapeLength(c: char)
    ensures |EscapeChar(c)| ==
            if c == '"' || c == '\\' || c as int in {0x08, 0x09, 0x0a, 0x0c, 0x0d} then 2
            else if c as int < 0x20 then 6 else 1
  {
  }

  lemma HexDigitsRead(n: int)
    requires 0 <= n < 16
    ensures HexValue(HexDigit(n)) == Some(n)
  {
  }

  function FourDigits(n: nat): string
    requires n < 0x10000
  {
    [HexDigit(n / 256 / 16), HexDigit(n / 256 % 16), HexDigit(n % 256 / 16), HexDigit(n % 256 % 16)]
  }

  lemma HexRead(n: nat, rest: string)
    requires n < 0xD800
    ensures ReadHex(FourDigits(n) + rest) == Some((n as char, rest))
  {
    HexDigitsRead(n / 256 / 16);
    HexDigitsRead(n / 256 % 16);
    HexDigitsRead(n % 256 / 16);
    HexDigitsRead(n % 256 % 16);
    var s := FourDigits(n) + rest;
    assert s[4..] == rest;
    assert n == 256 * (n / 256) + n % 256;
    assert n / 256 == 16 * (n / 256 / 16) + n / 256 % 16 && n % 256 == 16 * (n % 256 / 16) + n % 256 % 16;
  }

  /** Characters below the surrogates may be written as four hexadecimal digits. */
  lemma HexEscapeReads(c: char, rest: string)
    requires (c as int) < 0xD800
    ensures ReadChar("\\u" + FourDigits(c as int) + rest) == Some((c, rest))
  {
    var s := "\\u" + FourDigits(c as int) + rest;
    assert s[2..] == FourDigits(c as int) + rest;
    HexRead(c as int, rest);
  }

  /** The eight short escapes stand for the characters of section 7 of RFC 8259. */
  lemma ShortEscapesRead(rest: string)
    ensures ReadChar(['\\', '"'] + rest) == Some(('"', rest)) && ReadChar(['\\', '\\'] + rest) == Some(('\\', rest))
    ensures ReadChar(['\\', '/'] + rest) == Some(('/', rest)) && ReadChar(['\\', 'n'] + rest) == Some(('\n', rest))
    ensures ReadChar(['\\', 'r'] + rest) == Some(('\r', rest)) && ReadChar(['\\', 't'] + rest) == Some(('\t', rest))
    ensures ReadChar(['\\', 'b'] + rest) == Some((0x08 as char, rest))
    ensures ReadChar(['\\', 'f'] + rest) == Some((0x0c as char, rest))
  {
    ShortEscape('"', rest);
    ShortEscape('\\', rest);
    ShortEscape('/', rest);
    ShortEscape('n', rest);
    ShortEscape('r', rest);
    ShortEscape('t', rest);
    ShortEscape('b', rest);
    ShortEscape('f', rest);
  }

  lemma ShortEscape(d: char, rest: string)
    requires d != 'u' && Unescape(d).Some?
    ensures ReadChar(['\\', d] + rest) == Some((Unescape(d).value, rest))
  {
    assert (['\\', d] + rest)[2..] == rest;
  }

  // ---------------------------------------------------------------------------
  // Numbers
  // ---------------------------------------------------------------------------

  predicate IsNumberChar(c: char) {
    IsDigit(c) || c in {'+', '-', '.', 'e', 'E', 'N', 'a', 'I', 'n', 'f', 'i', 't', 'y'}
  }

  predicate AllNumberChars(s: string) {
    forall i :: 0 <= i < |s| ==> IsNumberChar(s[i])
  }

  function PrintInt(n: int): string {
    if n < 0 then "-" + Decimal(-n) else Decimal(n)
  }

  predicate IsIntLiteral(s: string) {
    s != "" && if s[0] == '-' then s != "-" && AllDigits(s[1..]) else AllDigits(s)
  }

  function IntValue(s: string): int
    requires IsIntLiteral(s)
  {
    if s[0] == '-' then 0 - DecimalValue(s[1..]) else DecimalValue(s) as int
  }

  /** The printed forms of floats: numbers that are not integer literals, and the three special names. */
  predicate IsFloatRepr(s: string) {
    s != "" && AllNumberChars(s) && !IsIntLiteral(s) && (IsDigit(s[0]) || s[0] in {'-', 'N', 'I'})
  }

  lemma PrintedInt(n: int)
    ensures IsIntLiteral(PrintInt(n)) && IntValue(PrintInt(n)) == n && AllNumberChars(PrintInt(n))
    ensures IsDigit(PrintInt(n)[0]) || PrintInt(n)[0] == '-'
  {
    if n < 0 {
      DecimalRoundTrip(-n);
      assert PrintInt(n)[1..] == Decimal(-n);
    } else {
      DecimalRoundTrip(n);
    }
  }

  function NumberLength(s: string): (n: nat)
    ensures n <= |s|
  {
    if s == "" || !IsNumberChar(s[0]) then 0 else 1 + NumberLength(s[1..])
  }

  /** The text after a number cannot continue it. */
  predicate Delimited(rest: string) {
    rest == "" || !IsNumberChar(rest[0])
  }

  lemma {:induction false} NumberEndsAtDelimiter(token: string, rest: string)
    requires AllNumberChars(token) && Delimited(rest)
    ensures NumberLength(token + rest) == |token|
  {
    if token == "" {
      assert token + rest == rest;
    } else {
      assert (token + rest)[1..] == token[1..] + rest;
      NumberEndsAtDelimiter(token[1..], rest);
    }
  }

  // ---------------------------------------------------------------------------
  // Layout
  // ---------------------------------------------------------------------------

  /** Compact text, or text indented by two spaces a level. */
  datatype Style = Compact | Indented(level: nat)

  function Inner(style: Style): Style {
    match style
    case Compact => Compact
    case Indented(level) => Indented(level + 1)
  }

  function Spaces(n: nat): string {
    if n == 0 then "" else " " + Spaces(n - 1)
  }

  /** What stands before an item, or before a closing bracket. */
  function Gap(style: Style): string {
    match style
    case Compact => ""
    case Indented(level) => "\n" + Spaces(2 * level)
  }

  function Colon(style: Style): string {
    if style.Compact? then ":" else ": "
  }

  predicate IsJsonSpace(c: char) {
    c == ' ' || c == '\t' || c == '\n' || c == '\r'
  }

  ghost predicate AllJsonSpace(s: string) {
    forall i :: 0 <= i < |s| ==> IsJsonSpace(s[i])
  }

  function Skip(s: string): (r: string)
    ensures |r| <= |s|
  {
    if s != "" && IsJsonSpace(s[0]) then Skip(s[1..]) else s
  }

  lemma {:induction false} GapIsSpace(style: Style)
    ensures AllJsonSpace(Gap(style))
  {
    if style.Indented? {
      SpacesAreSpace(2 * style.level);
    }
  }

  lemma {:induction false} SpacesAreSpace(n: nat)
    ensures AllJsonSpace(Spaces(n))
  {
    if n > 0 {
      SpacesAreSpace(n - 1);
    }
  }

  lemma {:induction false} SkipGap(gap: string, s: string)
    requires AllJsonSpace(gap)
    ensures Skip(gap + s) == Skip(s)
  {
    if gap == "" {
      assert gap + s == s;
    } else {
      assert (gap + s)[1..] == gap[1..] + s;
      SkipGap(gap[1..], s);
    }
  }

  // ---------------------------------------------------------------------------
  // Printing
  // ---------------------------------------------------------------------------

  function Print(v: Value, style: Style): string
    decreases v, 1
  {
    match v
    case Null => "null"
    case Bool(flag) => if flag then "true" else "false"
    case Int(n) => PrintInt(n)
    case Float(repr) => repr
    case Str(s) => Quote(s)
    case List(items) => PrintList(items, style)
    case Tuple(items) => PrintList(items, style)
    case Dict(entries) =>
      if entries == [] then "{}"
      else "{" + Gap(Inner(style)) + PrintEntries(entries, Inner(style)) + Gap(style) + "}"
  }

  function PrintList(items: seq<Value>, style: Style): string
    decreases items, 1
  {
    if items == [] then "[]"
    else "[" + Gap(Inner(style)) + PrintItems(items, Inner(style)) + Gap(style) + "]"
  }

  function PrintItems(items: seq<Value>, style: Style): string
    requires items != []
    decreases items, 0
  {
    Print(items[0], style) + if |items| == 1 then "" else "," + Gap(style) + PrintItems(items[1..], style)
  }

  function PrintEntry(entry: Entry, style: Style): string
    decreases entry, 0
  {
    Quote(entry.key) + Colon(style) + Print(entry.value, style)
  }

  function PrintEntries(entries: seq<Entry>, style: Style): string
    requires entries != []
    decreases entries, 0
  {
    PrintEntry(entries[0], style) +
    if |entries| == 1 then "" else "," + Gap(style) + PrintEntries(entries[1..], style)
  }

  // ---------------------------------------------------------------------------
  // The compact layout
  // ---------------------------------------------------------------------------

  function ItemTexts(items: seq<Value>): (texts: seq<string>)
    ensures |texts| == |items| && forall i :: 0 <= i < |items| ==> texts[i] == Print(items[i], Compact)
  {
    seq(|items|, i requires 0 <= i < |items| => Print(items[i], Compact))
  }

  function EntryTexts(entries: seq<Entry>): (texts: seq<string>)
    ensures |texts| == |entries|
    ensures forall i :: 0 <= i < |entries| ==>
              texts[i] == Quote(entries[i].key) + ":" + Print(entries[i].value, Compact)
  {
    seq(|entries|, i requires 0 <= i < |entries| => Quote(entries[i].key) + ":" + Print(entries[i].value, Compact))
  }

  lemma {:induction false} CompactItems(items: seq<Value>)
    requires items != []
    ensures PrintItems(items, Compact) == Join(ItemTexts(items), ',')
  {
    if |items| > 1 {
      CompactItems(items[1..]);
      assert ItemTexts(items)[1..] == ItemTexts(items[1..]);
      assert Print(items[0], Compact) + ("," + Gap(Compact) + PrintItems(items[1..], Compact))
          == Print(items[0], Compact) + [','] + PrintItems(items[1..], Compact);
    }
  }

  lemma {:induction false} CompactEntries(entries: seq<Entry>)
    requires entries != []
    ensures PrintEntries(entries, Compact) == Join(EntryTexts(entries), ',')
  {
    if |entries| > 1 {
      CompactEntries(entries[1..]);
      assert EntryTexts(entries)[1..] == EntryTexts(entries[1..]);
      assert PrintEntry(entries[0], Compact) + ("," + Gap(Compact) + PrintEntries(entries[1..], Compact))
          == PrintEntry(entries[0], Compact) + [','] + PrintEntries(entries[1..], Compact);
    }
  }

  /** Lists and dictionaries print as their parts joined by bare commas, keys and values by bare colons. */
  lemma CompactLayout(items: seq<Value>, entries: seq<Entry>)
    ensures Print(List(items), Compact) == "[" + Join(ItemTexts(items), ',') + "]"
    ensures Print(Dict(entries), Compact) == "{" + Join(EntryTexts(entries), ',') + "}"
  {
    if items != [] {
      CompactItems(items);
    }
    if entries != [] {
      CompactEntries(entries);
    }
  }

  /** A text without quotes, backslashes and control characters stands for itself between quotes. */
  lemma {:induction false} PlainTextIsKept(s: string)
    requires forall i :: 0 <= i < |s| ==> s[i] != '"' && s[i] != '\\' && s[i] as int >= 0x20
    ensures Escape(s) == s
  {
    if s != "" {
      PlainTextIsKept(s[1..]);
      assert [s[0]] + s[1..] == s;
    }
  }

  // ---------------------------------------------------------------------------
  // Reading
  // ---------------------------------------------------------------------------

  type Parsed<T> = Option<(T, string)>

  function ReadNumber(s: string): (r: Parsed<Value>)
    ensures r.Some? ==> |r.value.1| < |s|
  {
    var n := NumberLength(s);
    if IsIntLiteral(s[..n]) then Some((Int(IntValue(s[..n])), s[n..]))
    else if IsFloatRepr(s[..n]) then Some((Float(s[..n]), s[n..]))
    else None
  }

  /** Read a value after optional white space, and return what is left. */
  function ReadValue(s: string): (r: Parsed<Value>)
    ensures r.Some? ==> |r.value.1| < |s|
    decreases |s|, 1
  {
    var t := Skip(s);
    if t == "" then None
    else if t[0] == '"' then
      match ReadString(t[1..])
      case None => None
      case Some((text, rest)) => Some((Str(text), rest))
    else if t[0] == '[' then
      var inside := Skip(t[1..]);
      if inside != "" && inside[0] == ']' then Some((List([]), inside[1..]))
      else
        match ReadItems(t[1..])
        case None => None
        case Some((items, rest)) => Some((List(items), rest))
    else if t[0] == '{' then
      var inside := Skip(t[1..]);
      if inside != "" && inside[0] == '}' then Some((Dict([]), inside[1..]))
      else
        match ReadEntries(t[1..])
        case None => None
        case Some((entries, rest)) => Some((Dict(entries), rest))
    else if "null" <= t then Some((Null, t[4..]))
    else if "true" <= t then Some((Bool(true), t[4..]))
    else if "false" <= t then Some((Bool(false), t[5..]))
    else ReadNumber(t)
  }

  function ReadItems(s: string): (r: Parsed<seq<Value>>)
    ensures r.Some? ==> |r.value.1| < |s|
    decreases |s|, 2
  {
    match ReadValue(s)
    case None => None
    case Some((first, rest)) =>
      var t := Skip(rest);
      if t != "" && t[0] == ']' then Some(([first], t[1..]))
      else if t != "" && t[0] == ',' then
        match ReadItems(t[1..])
        case None => None
        case Some((others, after)) => Some(([first] + others, after))
      else None
  }

  function ReadEntry(s: string): (r: Parsed<Entry>)
    ensures r.Some? ==> |r.value.1| < |s|
    decreases |s|, 2
  {
    var t := Skip(s);
    if t == "" || t[0] != '"' then None
    else
      match ReadString(t[1..])
      case None => None
      case Some((key, rest)) =>
        var u := Skip(rest);
        if u == "" || u[0] != ':' then None
        else
          match ReadValue(u[1..])
          case None => None
          case Some((value, after)) => Some((Entry(key, value), after))
  }

  function ReadEntries(s: string): (r: Parsed<seq<Entry>>)
    ensures r.Some? ==> |r.value.1| < |s|
    decreases |s|, 3
  {
    match ReadEntry(s)
    case None => None
    case Some((first, rest)) =>
      var t := Skip(rest);
      if t != "" && t[0] == '}' then Some(([first], t[1..]))
      else if t != "" && t[0] == ',' then
        match ReadEntries(t[1..])
        case None => None
        case Some((others, after)) => Some(([first] + others, after))
      else None
  }

  /** The whole text is one value. */
  function Loads(s: string): Option<Value> {
    match ReadValue(s)
    case None => None
    case Some((v, rest)) => if Skip(rest) == "" then Some(v) else None
  }

  // ---------------------------------------------------------------------------
  // Reading undoes printing
  // ---------------------------------------------------------------------------

  /** Values as JSON has them: no tuples, and floats in printed form. */
  ghost predicate JsonValue(v: Value) {
    match v
    case Null => true
    case Bool(_) => true
    case Int(_) => true
    case Float(repr) => IsFloatRepr(repr)
    case Str(_) => true
    case List(items) => forall i :: 0 <= i < |items| ==> JsonValue(items[i])
    case Tuple(_) => false
    case Dict(entries) => forall i :: 0 <= i < |entries| ==> JsonValue(entries[i].value)
  }

  /** Printed values start with a character of their own kind, never with white space. */
  lemma PrintStarts(v: Value, style: Style)
    requires JsonValue(v)
    ensures var s := Print(v, style);
            s != "" && !IsJsonSpace(s[0]) && s[0] != ']' && s[0] != '}'
  {
    if v.Int? {
      PrintedInt(v.number);
    }
  }

  lemma SkipStops(s: string, rest: string)
    requires s != "" && !IsJsonSpace(s[0])
    ensures Skip(s + rest) == s + rest
  {
  }

  /** White space before a value, item or entry makes no difference to reading it. */
  lemma GapBeforeValue(gap: string, s: string)
    requires AllJsonSpace(gap)
    ensures ReadValue(gap + s) == ReadValue(s)
    ensures ReadItems(gap + s) == ReadItems(s)
    ensures ReadEntries(gap + s) == ReadEntries(s)
  {
    SkipGap(gap, s);
    assert ReadEntry(gap + s) == ReadEntry(s);
  }

  lemma ReadPrintedNumber(token: string, rest: string)
    requires AllNumberChars(token) && Delimited(rest) && (IsIntLiteral(token) || IsFloatRepr(token))
    ensures ReadNumber(token + rest) == Some((if IsIntLiteral(token) then Int(IntValue(token)) else Float(token), rest))
  {
    NumberEndsAtDelimiter(token, rest);
    assert (token + rest)[..|token|] == token && (token + rest)[|token|..] == rest;
  }

  lemma ReadPrintedWord(v: Value, style: Style, rest: string)
    requires v.Null? || v.Bool? || v == List([]) || v == Dict([])
    ensures ReadValue(Print(v, style) + rest) == Some((v, rest))
  {
    var s := Print(v, style) + rest;
    SkipStops(Print(v, style), rest);
    match v
    case Null => assert s[4..] == rest;
    case Bool(flag) => assert s[if flag then 4 else 5..] == rest;
    case List(_) => assert s[1..] == "]" + rest && s[1..][1..] == rest;
    case Dict(_) => assert s[1..] == "}" + rest && s[1..][1..] == rest;
  }

  lemma ReadPrintedNumeral(v: Value, style: Style, rest: string)
    requires v.Int? || v.Float?
    requires JsonValue(v) && Delimited(rest)
    ensures ReadValue(Print(v, style) + rest) == Some((v, rest))
  {
    var token := Print(v, style);
    if v.Int? {
      PrintedInt(v.number);
    }
    SkipStops(token, rest);
    ReadPrintedNumber(token, rest);
    assert (token + rest)[0] == token[0];
  }

  lemma ReadPrintedText(text: string, style: Style, rest: string)
    ensures ReadValue(Print(Str(text), style) + rest) == Some((Str(text), rest))
  {
    var body := Escape(text) + "\"" + rest;
    ReadEscapedString(text, rest);
    assert Print(Str(text), style) + rest == "\"" + body;
    assert ("\"" + body)[1..] == body;
  }

  /** A printed value reads back as itself, whatever delimiter follows it. */
  lemma {:induction false} ReadPrinted(v: Value, style: Style, rest: string)
    requires JsonValue(v) && Delimited(rest)
    ensures ReadValue(Print(v, style) + rest) == Some((v, rest))
    decreases v, 2
  {
    match v
    case Int(_) => ReadPrintedNumeral(v, style, rest);
    case Float(_) => ReadPrintedNumeral(v, style, rest);
    case Str(text) => ReadPrintedText(text, style, rest);
    case List(items) =>
      if items == [] {
        ReadPrintedWord(v, style, rest);
      } else {
        ReadPrintedList(items, style, rest);
      }
    case Dict(entries) =>
      if entries == [] {
        ReadPrintedWord(v, style, rest);
      } else {
        ReadPrintedDict(entries, style, rest);
      }
    case _ => ReadPrintedWord(v, style, rest);
  }

  // The reading steps, one lemma each, over arbitrary texts.

  lemma ReadItemsLast(s: string, v: Value, after: string, rest: string)
    requires ReadValue(s) == Some((v, after)) && Skip(after) == "]" + rest
    ensures ReadItems(s) == Some(([v], rest))
  {
    assert ("]" + rest)[1..] == rest;
  }

  lemma ReadItemsMore(s: string, v: Value, next: string, others: seq<Value>, rest: string)
    requires ReadValue(s) == Some((v, "," + next)) && ReadItems(next) == Some((others, rest))
    ensures ReadItems(s) == Some(([v] + others, rest))
  {
    assert ("," + next)[1..] == next;
  }

  lemma ReadEntriesLast(s: string, e: Entry, after: string, rest: string)
    requires ReadEntry(s) == Some((e, after)) && Skip(after) == "}" + rest
    ensures ReadEntries(s) == Some(([e], rest))
  {
    assert ("}" + rest)[1..] == rest;
  }

  lemma ReadEntriesMore(s: string, e: Entry, next: string, others: seq<Entry>, rest: string)
    requires ReadEntry(s) == Some((e, "," + next)) && ReadEntries(next) == Some((others, rest))
    ensures ReadEntries(s) == Some(([e] + others, rest))
  {
    assert ("," + next)[1..] == next;
  }

  lemma ReadEntryStep(body: string, key: string, after: string, v: Value, rest: string)
    requires ReadString(body) == Some((key, ":" + after)) && ReadValue(after) == Some((v, rest))
    ensures ReadEntry("\"" + body) == Some((Entry(key, v), rest))
  {
    assert ("\"" + body)[1..] == body;
    assert (":" + after)[1..] == after;
  }

  lemma ReadListStep(inside: string, items: seq<Value>, rest: string)
    requires ReadItems(inside) == Some((items, rest))
    requires Skip(inside) != "" && Skip(inside)[0] != ']'
    ensures ReadValue("[" + inside) == Some((List(items), rest))
  {
    assert ("[" + inside)[1..] == inside;
  }

  lemma ReadDictStep(inside: string, entries: seq<Entry>, rest: string)
    requires ReadEntries(inside) == Some((entries, rest))
    requires Skip(inside) != "" && Skip(inside)[0] != '}'
    ensures ReadValue("{" + inside) == Some((Dict(entries), rest))
  {
    assert ("{" + inside)[1..] == inside;
  }

  // The printed texts, cut where the reader cuts them.

  lemma CutItems(items: seq<Value>, style: Style, tail: string)
    requires |items| > 1
    ensures PrintItems(items, style) + tail
         == Print(items[0], style) + ("," + (Gap(style) + (PrintItems(items[1..], style) + tail)))
  {
  }

  lemma CutEntries(entries: seq<Entry>, style: Style, tail: string)
    requires |entries| > 1
    ensures PrintEntries(entries, style) + tail
         == PrintEntry(entries[0], style) + ("," + (Gap(style) + (PrintEntries(entries[1..], style) + tail)))
  {
  }

  lemma CutEntry(entry: Entry, style: Style, rest: string)
    ensures PrintEntry(entry, style) + rest
         == "\"" + (Escape(entry.key) + "\"" + (":" + (Colon(style)[1..] + (Print(entry.value, style) + rest))))
  {
    Regroup(Escape(entry.key), Colon(style), Print(entry.value, style), rest);
  }

  lemma Regroup(key: string, colon: string, value: string, rest: string)
    requires colon != "" && colon[0] == ':'
    ensures "\"" + key + "\"" + colon + value + rest == "\"" + (key + "\"" + (":" + (colon[1..] + (value + rest))))
  {
    var end := colon + (value + rest);
    assert end == ":" + (colon[1..] + (value + rest));
    assert "\"" + key + "\"" + colon + value + rest == "\"" + (key + "\"" + end);
  }

  lemma RegroupBracketed(opening: string, gap: string, inside: string, end: string, bracket: string, rest: string)
    ensures opening + gap + inside + end + bracket + rest == opening + (gap + (inside + (end + bracket + rest)))
  {
    assert opening + gap + inside + end + bracket + rest == opening + (gap + inside + end + bracket + rest);
    assert gap + inside + end + bracket + rest == gap + (inside + end + bracket + rest);
  }

  lemma CutList(items: seq<Value>, style: Style, rest: string)
    requires items != []
    ensures PrintList(items, style) + rest
         == "[" + (Gap(Inner(style)) + (PrintItems(items, Inner(style)) + (Gap(style) + "]" + rest)))
  {
    RegroupBracketed("[", Gap(Inner(style)), PrintItems(items, Inner(style)), Gap(style), "]", rest);
  }

  lemma CutDict(entries: seq<Entry>, style: Style, rest: string)
    requires entries != []
    ensures Print(Dict(entries), style) + rest
         == "{" + (Gap(Inner(style)) + (PrintEntries(entries, Inner(style)) + (Gap(style) + "}" + rest)))
  {
    RegroupBracketed("{", Gap(Inner(style)), PrintEntries(entries, Inner(style)), Gap(style), "}", rest);
  }

  /** Closing white space and a bracket end the value before them. */
  lemma ClosingDelimits(closing: string, bracket: char, rest: string)
    requires AllJsonSpace(closing) && (bracket == ']' || bracket == '}')
    ensures Delimited(closing + [bracket] + rest)
    ensures Skip(closing + [bracket] + rest) == [bracket] + rest
  {
    assert closing + [bracket] + rest == closing + ([bracket] + rest);
    SkipGap(closing, [bracket] + rest);
  }

  lemma ReadItemsGlued(s: string, shown: string, gap: string, next: string, v: Value, others: seq<Value>, rest: string)
    requires s == shown + ("," + (gap + next)) && AllJsonSpace(gap)
    requires ReadValue(shown + ("," + (gap + next))) == Some((v, "," + (gap + next)))
    requires ReadItems(next) == Some((others, rest))
    ensures ReadItems(s) == Some(([v] + others, rest))
  {
    GapBeforeValue(gap, next);
    ReadItemsMore(s, v, gap + next, others, rest);
  }

  lemma ReadEntriesGlued(s: string, shown: string, gap: string, next: string, e: Entry, others: seq<Entry>,
                         rest: string)
    requires s == shown + ("," + (gap + next)) && AllJsonSpace(gap)
    requires ReadEntry(shown + ("," + (gap + next))) == Some((e, "," + (gap + next)))
    requires ReadEntries(next) == Some((others, rest))
    ensures ReadEntries(s) == Some(([e] + others, rest))
  {
    GapBeforeValue(gap, next);
    ReadEntriesMore(s, e, gap + next, others, rest);
  }

  lemma ReadItemsCons(items: seq<Value>, style: Style, tail: string, rest: string)
    requires |items| > 1
    requires var next := PrintItems(items[1..], style) + tail;
             && ReadItems(next) == Some((items[1..], rest))
             && var after := "," + (Gap(style) + next);
                ReadValue(Print(items[0], style) + after) == Some((items[0], after))
    ensures ReadItems(PrintItems(items, style) + tail) == Some((items, rest))
  {
    var next := PrintItems(items[1..], style) + tail;
    GapIsSpace(style);
    CutItems(items, style, tail);
    ReadItemsGlued(PrintItems(items, style) + tail, Print(items[0], style), Gap(style), next, items[0], items[1..],
                   rest);
    assert [items[0]] + items[1..] == items;
  }

  lemma ReadEntriesCons(entries: seq<Entry>, style: Style, tail: string, rest: string)
    requires |entries| > 1
    requires var next := PrintEntries(entries[1..], style) + tail;
             && ReadEntries(next) == Some((entries[1..], rest))
             && var after := "," + (Gap(style) + next);
                ReadEntry(PrintEntry(entries[0], style) + after) == Some((entries[0], after))
    ensures ReadEntries(PrintEntries(entries, style) + tail) == Some((entries, rest))
  {
    var next := PrintEntries(entries[1..], style) + tail;
    GapIsSpace(style);
    CutEntries(entries, style, tail);
    ReadEntriesGlued(PrintEntries(entries, style) + tail, PrintEntry(entries[0], style), Gap(style), next, entries[0],
                     entries[1..], rest);
    assert [entries[0]] + entries[1..] == entries;
  }

  lemma PrintLone(items: seq<Value>, entries: seq<Entry>, style: Style)
    ensures |items| == 1 ==> PrintItems(items, style) == Print(items[0], style) && items == [items[0]]
    ensures |entries| == 1 ==> PrintEntries(entries, style) == PrintEntry(entries[0], style) && entries == [entries[0]]
  {
  }

  lemma {:induction false} ReadPrintedItems(items: seq<Value>, style: Style, closing: string, rest: string)
    requires items != [] && AllJsonSpace(closing)
    requires forall i :: 0 <= i < |items| ==> JsonValue(items[i])
    ensures ReadItems(PrintItems(items, style) + (closing + "]" + rest)) == Some((items, rest))
    decreases items, 0
  {
    var tail := closing + "]" + rest;
    if |items| == 1 {
      ClosingDelimits(closing, ']', rest);
      ReadPrinted(items[0], style, tail);
      PrintLone(items, [], style);
      ReadItemsLast(PrintItems(items, style) + tail, items[0], tail, rest);
    } else {
      ReadPrintedItems(items[1..], style, closing, rest);
      var next := PrintItems(items[1..], style) + tail;
      ReadPrinted(items[0], style, "," + (Gap(style) + next));
      ReadItemsCons(items, style, tail, rest);
    }
  }

  lemma {:induction false} ReadPrintedEntry(entry: Entry, style: Style, rest: string)
    requires JsonValue(entry.value) && Delimited(rest)
    ensures ReadEntry(PrintEntry(entry, style) + rest) == Some((entry, rest))
    decreases entry, 0
  {
    var gap := Colon(style)[1..];
    var value := Print(entry.value, style) + rest;
    ReadPrinted(entry.value, style, rest);
    GapBeforeValue(gap, value);
    var body := Escape(entry.key) + "\"" + (":" + (gap + value));
    ReadEscapedString(entry.key, ":" + (gap + value));
    ReadEntryStep(body, entry.key, gap + value, entry.value, rest);
    CutEntry(entry, style, rest);
  }

  lemma {:induction false} ReadPrintedEntries(entries: seq<Entry>, style: Style, closing: string, rest: string)
    requires entries != [] && AllJsonSpace(closing)
    requires forall i :: 0 <= i < |entries| ==> JsonValue(entries[i].value)
    ensures ReadEntries(PrintEntries(entries, style) + (closing + "}" + rest)) == Some((entries, rest))
    decreases entries, 0
  {
    var tail := closing + "}" + rest;
    if |entries| == 1 {
      ClosingDelimits(closing, '}', rest);
      ReadPrintedEntry(entries[0], style, tail);
      PrintLone([], entries, style);
      ReadEntriesLast(PrintEntries(entries, style) + tail, entries[0], tail, rest);
    } else {
      ReadPrintedEntries(entries[1..], style, closing, rest);
      var next := PrintEntries(entries[1..], style) + tail;
      ReadPrintedEntry(entries[0], style, "," + (Gap(style) + next));
      ReadEntriesCons(entries, style, tail, rest);
    }
  }

  lemma {:induction false} ReadPrintedList(items: seq<Value>, style: Style, rest: string)
    requires items != [] && forall i :: 0 <= i < |items| ==> JsonValue(items[i])
    ensures ReadValue(PrintList(items, style) + rest) == Some((List(items), rest))
    decreases items, 1
  {
    var gap := Gap(Inner(style));
    var body := PrintItems(items, Inner(style)) + (Gap(style) + "]" + rest);
    GapIsSpace(style);
    GapIsSpace(Inner(style));
    ReadPrintedItems(items, Inner(style), Gap(style), rest);
    GapBeforeValue(gap, body);
    SkipGap(gap, body);
    PrintStarts(items[0], Inner(style));
    assert body[0] == Print(items[0], Inner(style))[0];
    ReadListStep(gap + body, items, rest);
    CutList(items, style, rest);
  }

  lemma {:induction false} ReadPrintedDict(entries: seq<Entry>, style: Style, rest: string)
    requires entries != [] && forall i :: 0 <= i < |entries| ==> JsonValue(entries[i].value)
    ensures ReadValue(Print(Dict(entries), style) + rest) == Some((Dict(entries), rest))
    decreases entries, 1
  {
    var gap := Gap(Inner(style));
    var body := PrintEntries(entries, Inner(style)) + (Gap(style) + "}" + rest);
    GapIsSpace(style);
    GapIsSpace(Inner(style));
    ReadPrintedEntries(entries, Inner(style), Gap(style), rest);
    GapBeforeValue(gap, body);
    SkipGap(gap, body);
    assert body[0] == '"';
    ReadDictStep(gap + body, entries, rest);
    CutDict(entries, style, rest);
  }

  /** Loading a printed value gives the value back, in either layout. */
  lemma LoadsPrinted(v: Value, style: Style)
    requires JsonValue(v)
    ensures Loads(Print(v, style)) == Some(v)
  {
    ReadPrinted(v, style, "");
    assert Print(v, style) + "" == Print(v, style);
  }

  /** The compact text determines the value. */
  lemma PrintIsInjective(v: Value, w: Value, style: Style)
    requires JsonValue(v) && JsonValue(w) && Print(v, style) == Print(w, style)
    ensures v == w
  {
    LoadsPrinted(v, style);
    LoadsPrinted(w, style);
  }
}
