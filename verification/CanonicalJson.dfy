/**
 The canonical text whose hash seals every adoption-watch record.  A parser undoes it, so two values
 print the same text exactly when they are the same tree with unordered keys.
 */
module CanonicalJson {
  import opened Basics

  /** A JSON value with its object keys in insertion order; a number carries its shortest decimal text. */
  datatype Json =
    | Null
    | Boolean(b: bool)
    | Number(text: string)
    | Text(s: string)
    | Array(items: Items)
    | Object(fields: Fields)

  datatype Items = NoItem | Item(head: Json, tail: Items)

  datatype Fields = NoField | Field(key: string, value: Json, rest: Fields)

  // ---------------------------------------------------------------- string literals

  function HexDigit(n: nat): char
    requires n < 16
  {
    "0123456789abcdef"[n]
  }

  function HexValue(c: char): Option<nat> {
    if '0' <= c <= '9' then Some(c as int - '0' as int)
    else if 'a' <= c <= 'f' then Some(c as int - 'a' as int + 10)
    else None
  }

  function EscapeChar(c: char): string {
    if c == '"' then "\\\"" else if c == '\\' then "\\\\"
    else if c == '\U{0008}' then "\\b" else if c == '\t' then "\\t" else if c == '\n' then "\\n"
    else if c == '\U{000C}' then "\\f" else if c == '\r' then "\\r"
    else if c < ' ' then ['\\', 'u', '0', '0', HexDigit(c as int / 16), HexDigit(c as int % 16)]
    else [c]
  }

  function Escape(s: string): string {
    if s == "" then "" else EscapeChar(s[0]) + Escape(s[1..])
  }

  function Quote(s: string): string {
    "\"" + Escape(s) + "\""
  }

  // ---------------------------------------------------------------- the canonical text

  datatype Entry = Entry(key: string, text: string)

  /** Strings in lexicographic order. */
  predicate Less(a: string, b: string) {
    b != "" && (a == "" || a[0] < b[0] || (a[0] == b[0] && Less(a[1..], b[1..])))
  }

  function InsertEntry(e: Entry, s: seq<Entry>): seq<Entry> {
    if s == [] || Less(e.key, s[0].key) then [e] + s else [s[0]] + InsertEntry(e, s[1..])
  }

  function SortEntries(s: seq<Entry>): seq<Entry> {
    if s == [] then [] else InsertEntry(s[0], SortEntries(s[1..]))
  }

  function JoinItems(texts: seq<string>): string {
    if texts == [] then "]"
    else if |texts| == 1 then texts[0] + "]"
    else texts[0] + "," + JoinItems(texts[1..])
  }

  function JoinEntries(s: seq<Entry>): string {
    if s == [] then "}"
    else Quote(s[0].key) + ":" + s[0].text + if |s| == 1 then "}" else "," + JoinEntries(s[1..])
  }

  /** Scalars as they are, arrays in order, objects by ascending key. */
  function Canonicalize(j: Json): string {
    match j
    case Null => "null"
    case Boolean(b) => if b then "true" else "false"
    case Number(text) => text
    case Text(s) => Quote(s)
    case Array(items) => "[" + JoinItems(ItemTexts(items))
    case Object(fields) => "{" + JoinEntries(SortEntries(FieldEntries(fields)))
  }

  function ItemTexts(items: Items): seq<string> {
    match items
    case NoItem => []
    case Item(head, tail) => [Canonicalize(head)] + ItemTexts(tail)
  }

  function FieldEntries(fields: Fields): seq<Entry> {
    match fields
    case NoField => []
    case Field(key, value, rest) => [Entry(key, Canonicalize(value))] + FieldEntries(rest)
  }

  // ---------------------------------------------------------------- unordered trees

  /** A JSON value without any order of keys. */
  datatype Tree =
    | NullTree
    | BooleanTree(b: bool)
    | NumberTree(text: string)
    | TextTree(s: string)
    | ArrayTree(items: seq<Tree>)
    | ObjectTree(fields: map<string, Tree>)

  function TreeOf(j: Json): Tree {
    match j
    case Null => NullTree
    case Boolean(b) => BooleanTree(b)
    case Number(text) => NumberTree(text)
    case Text(s) => TextTree(s)
    case Array(items) => ArrayTree(TreesOf(items))
    case Object(fields) => ObjectTree(MapOf(fields))
  }

  function TreesOf(items: Items): seq<Tree> {
    match items
    case NoItem => []
    case Item(head, tail) => [TreeOf(head)] + TreesOf(tail)
  }

  function MapOf(fields: Fields): map<string, Tree> {
    match fields
    case NoField => map[]
    case Field(key, value, rest) => MapOf(rest)[key := TreeOf(value)]
  }

  predicate IsNumberChar(c: char) {
    '0' <= c <= '9' || c == '-' || c == '+' || c == '.' || c == 'e' || c == 'E'
  }

  predicate IsNumberText(s: string) {
    s != "" && (IsDigit(s[0]) || s[0] == '-') && forall c :: c in s ==> IsNumberChar(c)
  }

  /** Only decimal digits, and at least one. */
  predicate Digits(s: string) {
    s != "" && forall c :: c in s ==> c in "0123456789"
  }

  /** Every text of the number grammar reads as a number, and scalars need no more than that. */
  lemma NumbersReadable(negative: bool, whole: string, fraction: string, exponent: string, e: char, sign: string)
    requires Digits(whole) && (fraction == "" || Digits(fraction)) && (exponent == "" || Digits(exponent))
    requires (e == 'e' || e == 'E') && sign in {"", "+", "-"}
    ensures WellFormed(Number((if negative then "-" else "") + whole + (if fraction == "" then "" else "." + fraction)
                              + (if exponent == "" then "" else [e] + sign + exponent)))
    ensures WellFormed(Null) && WellFormed(Boolean(negative)) && WellFormed(Text(whole))
  {
    forall c | c in whole || c in fraction || c in exponent ensures IsDigit(c) {
      assert c in "0123456789";
    }
    assert IsDigit(whole[0]) by { assert whole[0] in whole; }
    assert "-"[0] == '-';
  }

  predicate IsDigit(c: char) {
    '0' <= c <= '9'
  }

  /** Numbers read as numbers, and no object has a key twice. */
  predicate WellFormed(j: Json) {
    match j
    case Number(text) => IsNumberText(text)
    case Array(items) => AllWellFormed(items)
    case Object(fields) => FieldsWellFormed(fields)
    case _ => true
  }

  predicate AllWellFormed(items: Items) {
    items.Item? ==> WellFormed(items.head) && AllWellFormed(items.tail)
  }

  predicate FieldsWellFormed(fields: Fields) {
    fields.Field? ==> WellFormed(fields.value) && !HasKey(fields.rest, fields.key) && FieldsWellFormed(fields.rest)
  }

  predicate HasKey(fields: Fields, key: string) {
    fields.Field? && (fields.key == key || HasKey(fields.rest, key))
  }

  // ---------------------------------------------------------------- sorting, then printing in order

  function InsertField(key: string, value: Json, f: Fields): Fields {
    if f.NoField? || Less(key, f.key) then Field(key, value, f)
    else Field(f.key, f.value, InsertField(key, value, f.rest))
  }

  /** The same value with the keys of every object in ascending order. */
  function Sorted(j: Json): Json {
    match j
    case Array(items) => Array(SortedItems(items))
    case Object(fields) => Object(SortedFields(fields))
    case _ => j
  }

  function SortedItems(items: Items): Items {
    match items
    case NoItem => NoItem
    case Item(head, tail) => Item(Sorted(head), SortedItems(tail))
  }

  function SortedFields(fields: Fields): Fields {
    match fields
    case NoField => NoField
    case Field(key, value, rest) => InsertField(key, Sorted(value), SortedFields(rest))
  }

  /** The text of a value with its keys in the order they have. */
  function Print(j: Json): string {
    match j
    case Null => "null"
    case Boolean(b) => if b then "true" else "false"
    case Number(text) => text
    case Text(s) => Quote(s)
    case Array(items) => "[" + (if items.NoItem? then "]" else PrintItems(items))
    case Object(fields) => "{" + (if fields.NoField? then "}" else PrintFields(fields))
  }

  function PrintItems(items: Items): string
    requires items.Item?
  {
    Print(items.head) + if items.tail.NoItem? then "]" else "," + PrintItems(items.tail)
  }

  function PrintFields(f: Fields): string
    requires f.Field?
  {
    Quote(f.key) + ":" + Print(f.value) + (if f.rest.NoField? then "}" else "," + PrintFields(f.rest))
  }

  function Printed(f: Fields): seq<Entry> {
    if f.NoField? then [] else [Entry(f.key, Print(f.value))] + Printed(f.rest)
  }

  lemma {:induction false} InsertPrinted(key: string, value: Json, f: Fields)
    ensures Printed(InsertField(key, value, f)) == InsertEntry(Entry(key, Print(value)), Printed(f))
  {
    if f.Field? && !Less(key, f.key) {
      InsertPrinted(key, value, f.rest);
      assert Printed(f)[1..] == Printed(f.rest);
    }
  }

  lemma {:induction false} JoinPrinted(f: Fields)
    ensures JoinEntries(Printed(f)) == if f.NoField? then "}" else PrintFields(f)
  {
    if f.Field? {
      JoinPrinted(f.rest);
      assert Printed(f)[1..] == Printed(f.rest);
    }
  }

  /** The canonical text is the text of the sorted value. */
  lemma {:induction false} CanonicalizeSorts(j: Json)
    ensures Canonicalize(j) == Print(Sorted(j))
  {
    match j
    case Array(items) => ItemTextsSort(items);
    case Object(fields) =>
      FieldEntriesSort(fields);
      JoinPrinted(SortedFields(fields));
    case _ =>
  }

  lemma {:induction false} ItemTextsSort(items: Items)
    ensures JoinItems(ItemTexts(items)) == if items.NoItem? then "]" else PrintItems(SortedItems(items))
  {
    if items.Item? {
      CanonicalizeSorts(items.head);
      ItemTextsSort(items.tail);
      assert ItemTexts(items)[1..] == ItemTexts(items.tail);
    }
  }

  lemma {:induction false} FieldEntriesSort(fields: Fields)
    ensures SortEntries(FieldEntries(fields)) == Printed(SortedFields(fields))
  {
    if fields.Field? {
      CanonicalizeSorts(fields.value);
      FieldEntriesSort(fields.rest);
      assert FieldEntries(fields)[1..] == FieldEntries(fields.rest);
      InsertPrinted(fields.key, Sorted(fields.value), SortedFields(fields.rest));
    }
  }

  // ---------------------------------------------------------------- the parser

  datatype Read<+T> = Read(value: T, rest: string)

  /** One character of a string literal. */
  function ReadChar(s: string): (r: Option<Read<char>>)
    ensures r.Some? ==> |r.value.rest| < |s|
  {
    if s == "" then None
    else if s[0] != '\\' then Some(Read(s[0], s[1..]))
    else if |s| < 2 then None
    else if s[1] == '"' || s[1] == '\\' then Some(Read(s[1], s[2..]))
    else if s[1] == 'b' then Some(Read('\U{0008}', s[2..]))
    else if s[1] == 't' then Some(Read('\t', s[2..]))
    else if s[1] == 'n' then Some(Read('\n', s[2..]))
    else if s[1] == 'f' then Some(Read('\U{000C}', s[2..]))
    else if s[1] == 'r' then Some(Read('\r', s[2..]))
    else if |s| >= 6 && s[1] == 'u' && s[2] == '0' && s[3] == '0' && HexValue(s[4]).Some? && HexValue(s[5]).Some? then
      Some(Read((16 * HexValue(s[4]).value + HexValue(s[5]).value) as char, s[6..]))
    else None
  }

  /** The rest of a string literal, up to its closing quote. */
  function ReadString(s: string): (r: Option<Read<string>>)
    ensures r.Some? ==> |r.value.rest| < |s|
    decreases |s|
  {
    if s == "" then None
    else if s[0] == '"' then Some(Read("", s[1..]))
    else
      var c := ReadChar(s);
      if c.None? then None
      else
        var t := ReadString(c.value.rest);
        if t.None? then None else Some(Read([c.value.value] + t.value.value, t.value.rest))
  }

  function ReadNumber(s: string): (r: Read<string>)
    ensures |r.rest| <= |s|
  {
    if s == "" || !IsNumberChar(s[0]) then Read("", s)
    else
      var t := ReadNumber(s[1..]);
      Read([s[0]] + t.value, t.rest)
  }

  /** A fixed word at the front. */
  function Word(s: string, word: string, j: Json): (r: Option<Read<Json>>)
    requires word != ""
    ensures r.Some? ==> |r.value.rest| < |s|
  {
    if word <= s then Some(Read(j, s[|word|..])) else None
  }

  function Parse(s: string): (r: Option<Read<Json>>)
    ensures r.Some? ==> |r.value.rest| < |s|
    decreases |s|, 1
  {
    if s == "" then None
    else if s[0] == 'n' then Word(s, "null", Null)
    else if s[0] == 't' then Word(s, "true", Boolean(true))
    else if s[0] == 'f' then Word(s, "false", Boolean(false))
    else if s[0] == '"' then
      var t := ReadString(s[1..]);
      if t.None? then None else Some(Read(Text(t.value.value), t.value.rest))
    else if s[0] == '[' then
      if |s| > 1 && s[1] == ']' then Some(Read(Array(NoItem), s[2..]))
      else
        var t := ParseItems(s[1..]);
        if t.None? then None else Some(Read(Array(t.value.value), t.value.rest))
    else if s[0] == '{' then
      if |s| > 1 && s[1] == '}' then Some(Read(Object(NoField), s[2..]))
      else
        var t := ParseFields(s[1..]);
        if t.None? then None else Some(Read(Object(t.value.value), t.value.rest))
    else
      var t := ReadNumber(s);
      if t.value == "" then None else
      assert |t.rest| < |s|;
      Some(Read(Number(t.value), t.rest))
  }

  function ParseItems(s: string): (r: Option<Read<Items>>)
    ensures r.Some? ==> |r.value.rest| < |s|
    decreases |s|, 2
  {
    var v := Parse(s);
    if v.None? || v.value.rest == "" then None
    else if v.value.rest[0] == ']' then Some(Read(Item(v.value.value, NoItem), v.value.rest[1..]))
    else if v.value.rest[0] != ',' then None
    else
      var t := ParseItems(v.value.rest[1..]);
      if t.None? then None else Some(Read(Item(v.value.value, t.value.value), t.value.rest))
  }

  function ParseFields(s: string): (r: Option<Read<Fields>>)
    ensures r.Some? ==> |r.value.rest| < |s|
    decreases |s|, 2
  {
    if s == "" || s[0] != '"' then None
    else
      var k := ReadString(s[1..]);
      if k.None? || k.value.rest == "" || k.value.rest[0] != ':' then None
      else
        var v := Parse(k.value.rest[1..]);
        if v.None? || v.value.rest == "" then None
        else if v.value.rest[0] == '}' then Some(Read(Field(k.value.value, v.value.value, NoField), v.value.rest[1..]))
        else if v.value.rest[0] != ',' then None
        else
          var t := ParseFields(v.value.rest[1..]);
          if t.None? then None else Some(Read(Field(k.value.value, v.value.value, t.value.value), t.value.rest))
  }

  // ---------------------------------------------------------------- the parser undoes printing

  lemma HexRoundTrip(n: nat)
    requires n < 16
    ensures HexValue(HexDigit(n)) == Some(n)
  {
  }

  lemma ReadEscaped(c: char, rest: string)
    ensures ReadChar(EscapeChar(c) + rest) == Some(Read(c, rest))
    ensures EscapeChar(c) != "" && EscapeChar(c)[0] != '"'
  {
    var s := EscapeChar(c) + rest;
    if |EscapeChar(c)| == 6 {
      HexRoundTrip(c as int / 16);
      HexRoundTrip(c as int % 16);
      assert s[6..] == rest;
    } else if |EscapeChar(c)| == 2 {
      assert s[2..] == rest;
    } else {
      assert s[1..] == rest;
    }
  }

  lemma {:induction false} ReadEscapedString(str: string, rest: string)
    ensures ReadString(Escape(str) + "\"" + rest) == Some(Read(str, rest))
    decreases str
  {
    if str == "" {
      assert Escape(str) + "\"" + rest == ['"'] + rest;
    } else {
      var c, tail := str[0], Escape(str[1..]) + "\"" + rest;
      assert Escape(str) + "\"" + rest == EscapeChar(c) + tail;
      ReadEscaped(c, tail);
      assert (EscapeChar(c) + tail)[0] == EscapeChar(c)[0];
      ReadEscapedString(str[1..], rest);
      assert [c] + str[1..] == str;
    }
  }

  /** What may follow a value: nothing, or a character that belongs to no number. */
  predicate Delimited(rest: string) {
    rest != "" ==> !IsNumberChar(rest[0])
  }

  lemma {:induction false} ReadNumberText(text: string, rest: string)
    requires (forall c :: c in text ==> IsNumberChar(c)) && Delimited(rest)
    ensures ReadNumber(text + rest) == Read(text, rest)
    decreases text
  {
    if text == "" {
      assert text + rest == rest;
    } else {
      assert (text + rest)[1..] == text[1..] + rest;
      ReadNumberText(text[1..], rest);
      assert [text[0]] + text[1..] == text;
    }
  }

  lemma ReadWord(word: string, j: Json, rest: string)
    requires word != ""
    ensures Word(word + rest, word, j) == Some(Read(j, rest))
  {
    assert (word + rest)[|word|..] == rest;
  }

  lemma ParseNumber(text: string, rest: string)
    requires IsNumberText(text) && Delimited(rest)
    ensures Parse(text + rest) == Some(Read(Number(text), rest))
  {
    ReadNumberText(text, rest);
    var s := text + rest;
    assert s[0] == text[0] && IsNumberChar(s[0]);
  }

  lemma ParseText(str: string, rest: string)
    ensures Parse(Quote(str) + rest) == Some(Read(Text(str), rest))
  {
    var s := Quote(str) + rest;
    assert s[0] == '"';
    assert s[1..] == Escape(str) + "\"" + rest;
    ReadEscapedString(str, rest);
  }

  lemma ParseWord(j: Json, rest: string)
    requires j.Null? || j.Boolean?
    ensures Parse(Print(j) + rest) == Some(Read(j, rest))
  {
    ReadWord(Print(j), j, rest);
  }

  /** What follows the first item, or the first field, in the printed text. */
  function AfterItem(items: Items, rest: string): string
    requires items.Item?
  {
    if items.tail.NoItem? then "]" + rest else "," + (PrintItems(items.tail) + rest)
  }

  function AfterField(f: Fields, rest: string): string
    requires f.Field?
  {
    if f.rest.NoField? then "}" + rest else "," + (PrintFields(f.rest) + rest)
  }

  lemma ItemText(items: Items, rest: string)
    requires items.Item?
    ensures PrintItems(items) + rest == Print(items.head) + AfterItem(items, rest)
    ensures AfterItem(items, rest)[1..] == if items.tail.NoItem? then rest else PrintItems(items.tail) + rest
  {
  }

  lemma Regroup(e: string, p: string, t: string, rest: string)
    ensures "\"" + e + "\"" + ":" + p + t + rest == "\"" + (e + "\"" + (":" + (p + (t + rest))))
  {
  }

  /** How the printed text of a field ends. */
  function FieldTail(f: Fields): string
    requires f.Field?
  {
    if f.rest.NoField? then "}" else "," + PrintFields(f.rest)
  }

  lemma AfterFieldText(f: Fields, rest: string)
    requires f.Field?
    ensures FieldTail(f) + rest == AfterField(f, rest)
    ensures AfterField(f, rest)[1..] == if f.rest.NoField? then rest else PrintFields(f.rest) + rest
  {
  }

  lemma FieldText(f: Fields, rest: string)
    requires f.Field?
    ensures PrintFields(f) + rest == "\"" + (Escape(f.key) + "\"" + (":" + (Print(f.value) + AfterField(f, rest))))
  {
    AfterFieldText(f, rest);
    Regroup(Escape(f.key), Print(f.value), FieldTail(f), rest);
    assert PrintFields(f) == "\"" + Escape(f.key) + "\"" + ":" + Print(f.value) + FieldTail(f);
  }

  /** How a list reads on after its first item. */
  lemma ReadItem(s: string, v: Json, after: string, tail: Items, rest: string)
    requires Parse(s) == Some(Read(v, after)) && after != ""
    requires if tail.NoItem? then after[0] == ']' && after[1..] == rest
             else after[0] == ',' && ParseItems(after[1..]) == Some(Read(tail, rest))
    ensures ParseItems(s) == Some(Read(Item(v, tail), rest))
  {
  }

  lemma ReadField(s: string, key: string, text: string, v: Json, after: string, tail: Fields, rest: string)
    requires s != "" && s[0] == '"' && ReadString(s[1..]) == Some(Read(key, text)) && text != "" && text[0] == ':'
    requires Parse(text[1..]) == Some(Read(v, after)) && after != ""
    requires if tail.NoField? then after[0] == '}' && after[1..] == rest
             else after[0] == ',' && ParseFields(after[1..]) == Some(Read(tail, rest))
    ensures ParseFields(s) == Some(Read(Field(key, v, tail), rest))
  {
  }

  lemma FieldsStart(f: Fields)
    requires f.Field?
    ensures PrintFields(f) != "" && PrintFields(f)[0] == '"'
  {
  }

  lemma ItemsStart(items: Items)
    requires items.Item? && WellFormed(items.head)
    ensures PrintItems(items) != "" && PrintItems(items)[0] != ']'
  {
    PrintStart(items.head);
  }

  lemma Opened(c: char, text: string, rest: string)
    requires text != ""
    ensures var s := [c] + text + rest; s[0] == c && s[1] == text[0] && s[1..] == text + rest
  {
  }

  /** An array or an object reads on as its list does. */
  lemma ParseArray(items: Items, text: string, rest: string)
    requires text != "" && text[0] != ']' && ParseItems(text + rest) == Some(Read(items, rest))
    ensures Parse("[" + text + rest) == Some(Read(Array(items), rest))
  {
    Opened('[', text, rest);
  }

  lemma ParseObject(f: Fields, text: string, rest: string)
    requires text != "" && text[0] != '}' && ParseFields(text + rest) == Some(Read(f, rest))
    ensures Parse("{" + text + rest) == Some(Read(Object(f), rest))
  {
    Opened('{', text, rest);
  }

  lemma ParseEmpty(rest: string)
    ensures Parse("[]" + rest) == Some(Read(Array(NoItem), rest))
    ensures Parse("{}" + rest) == Some(Read(Object(NoField), rest))
  {
    assert ("[]" + rest)[2..] == rest;
    assert ("{}" + rest)[2..] == rest;
  }

  /** Printing and then parsing gives the value back, and leaves what follows. */
  lemma {:induction false} ParsePrinted(j: Json, rest: string)
    requires WellFormed(j) && Delimited(rest)
    ensures Parse(Print(j) + rest) == Some(Read(j, rest))
    decreases j
  {
    match j
    case Array(items) =>
      if items.Item? {
        ParsePrintedItems(items, rest);
        ItemsStart(items);
        ParseArray(items, PrintItems(items), rest);
      } else {
        ParseEmpty(rest);
      }
    case Object(fields) =>
      if fields.Field? {
        ParsePrintedFields(fields, rest);
        FieldsStart(fields);
        ParseObject(fields, PrintFields(fields), rest);
      } else {
        ParseEmpty(rest);
      }
    case Number(text) => ParseNumber(text, rest);
    case Text(str) => ParseText(str, rest);
    case _ => ParseWord(j, rest);
  }

  lemma PrintStart(j: Json)
    requires WellFormed(j)
    ensures Print(j) != "" && Print(j)[0] != ']'
  {
  }

  lemma {:induction false} ParsePrintedItems(items: Items, rest: string)
    requires items.Item? && AllWellFormed(items)
    ensures ParseItems(PrintItems(items) + rest) == Some(Read(items, rest))
    decreases items
  {
    ItemText(items, rest);
    ParsePrinted(items.head, AfterItem(items, rest));
    if items.tail.Item? {
      ParsePrintedItems(items.tail, rest);
    }
    ReadItem(PrintItems(items) + rest, items.head, AfterItem(items, rest), items.tail, rest);
  }

  lemma {:induction false} ParsePrintedFields(f: Fields, rest: string)
    requires f.Field? && FieldsWellFormed(f)
    ensures ParseFields(PrintFields(f) + rest) == Some(Read(f, rest))
    decreases f
  {
    var s, value := PrintFields(f) + rest, ":" + (Print(f.value) + AfterField(f, rest));
    FieldText(f, rest);
    AfterFieldText(f, rest);
    assert s[1..] == Escape(f.key) + "\"" + value;
    ReadEscapedString(f.key, value);
    ParsePrinted(f.value, AfterField(f, rest));
    if f.rest.Field? {
      ParsePrintedFields(f.rest, rest);
    }
    ReadField(s, f.key, value, f.value, AfterField(f, rest), f.rest, rest);
  }

  // ---------------------------------------------------------------- order of keys

  lemma {:induction false} LessTotal(a: string, b: string)
    ensures a == b || Less(a, b) || Less(b, a)
    ensures !(Less(a, b) && Less(b, a)) && !Less(a, a)
  {
    if a != "" && b != "" {
      LessTotal(a[1..], b[1..]);
      LessTotal(a[1..], a[1..]);
      assert a[0] == b[0] && a[1..] == b[1..] ==> a == b by {
        assert a == [a[0]] + a[1..] && b == [b[0]] + b[1..];
      }
    } else if a != "" {
      LessTotal(a[1..], a[1..]);
    }
  }

  /** The first place where the strings differ. */
  predicate DifferAt(a: string, b: string, k: nat) {
    k < |a| && k < |b| && a[..k] == b[..k] && a[k] != b[k]
  }

  /** A string comes before another exactly when it is a proper prefix of it, or has the smaller code point
      at the first place where they differ. */
  lemma {:induction false} LessIff(a: string, b: string)
    ensures Less(a, b) <==> a < b || exists k: nat :: DifferAt(a, b, k) && a[k] as int < b[k] as int
  {
    if a != "" && b != "" {
      var s, t := a[1..], b[1..];
      assert a == [a[0]] + s && b == [b[0]] + t;
      if a[0] != b[0] {
        assert DifferAt(a, b, 0);
        assert forall k: nat :: DifferAt(a, b, k) && k > 0 ==> a[..k][0] == b[..k][0];
      } else {
        LessIff(s, t);
        assert a < b <==> s < t by {
          if s < t { assert b == a + t[|s|..]; }
        }
        forall k: nat ensures DifferAt(s, t, k) <==> DifferAt(a, b, k + 1) {
          DifferLater(a, b, k);
        }
        if k: nat :| DifferAt(a, b, k) && a[k] < b[k] {
          assert k > 0 && DifferAt(s, t, k - 1);
        }
        if k: nat :| DifferAt(s, t, k) && s[k] < t[k] {
          assert DifferAt(a, b, k + 1);
        }
      }
    }
  }

  lemma DifferLater(a: string, b: string, k: nat)
    requires a != "" && b != "" && a[0] == b[0]
    ensures DifferAt(a[1..], b[1..], k) <==> DifferAt(a, b, k + 1)
  {
    if k < |a| - 1 && k < |b| - 1 {
      assert a[..k + 1] == [a[0]] + a[1..][..k] && b[..k + 1] == [b[0]] + b[1..][..k];
    }
  }

  lemma {:induction false} LessTransitive(a: string, b: string, c: string)
    requires Less(a, b) && Less(b, c)
    ensures Less(a, c)
  {
    if a != "" && a[0] == b[0] == c[0] {
      LessTransitive(a[1..], b[1..], c[1..]);
    }
  }

  /** Every key of `f` comes after `key`. */
  predicate AllAfter(key: string, f: Fields) {
    f.Field? ==> Less(key, f.key) && AllAfter(key, f.rest)
  }

  predicate Ascending(f: Fields) {
    f.Field? ==> AllAfter(f.key, f.rest) && Ascending(f.rest)
  }

  /** Keys ascend in every object. */
  predicate InOrder(j: Json) {
    match j
    case Array(items) => ItemsInOrder(items)
    case Object(fields) => Ascending(fields) && ValuesInOrder(fields)
    case _ => true
  }

  predicate ItemsInOrder(items: Items) {
    items.Item? ==> InOrder(items.head) && ItemsInOrder(items.tail)
  }

  predicate ValuesInOrder(f: Fields) {
    f.Field? ==> InOrder(f.value) && ValuesInOrder(f.rest)
  }

  lemma {:induction false} AllAfterLess(low: string, key: string, f: Fields)
    requires Less(low, key) && AllAfter(key, f)
    ensures AllAfter(low, f)
  {
    if f.Field? {
      LessTransitive(low, key, f.key);
      AllAfterLess(low, key, f.rest);
    }
  }

  lemma {:induction false} MapKeys(f: Fields, key: string)
    ensures HasKey(f, key) <==> key in MapOf(f)
  {
    if f.Field? {
      MapKeys(f.rest, key);
    }
  }

  lemma {:induction false} AfterAbsent(key: string, f: Fields)
    requires AllAfter(key, f)
    ensures !HasKey(f, key)
  {
    if f.Field? {
      LessTotal(key, f.key);
      AfterAbsent(key, f.rest);
    }
  }

  /** Inserting a new key keeps the order and the well-formedness, and adds just that key. */
  lemma {:induction false} InsertFacts(key: string, value: Json, f: Fields)
    requires Ascending(f) && ValuesInOrder(f) && FieldsWellFormed(f)
    requires !HasKey(f, key) && WellFormed(value) && InOrder(value)
    ensures var g := InsertField(key, value, f);
            && Ascending(g) && ValuesInOrder(g) && FieldsWellFormed(g)
            && MapOf(g) == MapOf(f)[key := TreeOf(value)]
            && (forall low :: AllAfter(low, f) && Less(low, key) ==> AllAfter(low, g))
            && (forall k :: HasKey(g, k) <==> HasKey(f, k) || k == key)
  {
    if f.Field? {
      LessTotal(key, f.key);
      if Less(key, f.key) {
        AllAfterLess(key, f.key, f.rest);
      } else {
        InsertFacts(key, value, f.rest);
      }
    }
  }

  lemma {:induction false} SortedFacts(j: Json)
    requires WellFormed(j)
    ensures WellFormed(Sorted(j)) && InOrder(Sorted(j)) && TreeOf(Sorted(j)) == TreeOf(j)
    decreases j
  {
    match j
    case Array(items) => SortedItemsFacts(items);
    case Object(fields) => SortedFieldsFacts(fields);
    case _ =>
  }

  lemma {:induction false} SortedItemsFacts(items: Items)
    requires AllWellFormed(items)
    ensures AllWellFormed(SortedItems(items)) && ItemsInOrder(SortedItems(items)) && TreesOf(SortedItems(items)) == TreesOf(items)
    decreases items
  {
    if items.Item? {
      SortedFacts(items.head);
      SortedItemsFacts(items.tail);
    }
  }

  lemma {:induction false} SortedFieldsFacts(f: Fields)
    requires FieldsWellFormed(f)
    ensures var g := SortedFields(f);
            && FieldsWellFormed(g) && Ascending(g) && ValuesInOrder(g)
            && MapOf(g) == MapOf(f) && forall k :: HasKey(g, k) <==> HasKey(f, k)
    decreases f
  {
    if f.Field? {
      SortedFacts(f.value);
      SortedFieldsFacts(f.rest);
      InsertFacts(f.key, Sorted(f.value), SortedFields(f.rest));
    }
  }

  /** Two ordered values of the same tree are the same value. */
  lemma {:induction false} OrderedUnique(a: Json, b: Json)
    requires InOrder(a) && InOrder(b) && TreeOf(a) == TreeOf(b)
    ensures a == b
    decreases a
  {
    match a
    case Array(items) => OrderedItemsUnique(items, b.items);
    case Object(fields) => OrderedFieldsUnique(fields, b.fields);
    case _ =>
  }

  lemma {:induction false} OrderedItemsUnique(a: Items, b: Items)
    requires ItemsInOrder(a) && ItemsInOrder(b) && TreesOf(a) == TreesOf(b)
    ensures a == b
    decreases a
  {
    assert |TreesOf(a)| == |TreesOf(b)|;
    if a.Item? {
      assert TreesOf(a)[0] == TreesOf(b)[0] && TreesOf(a)[1..] == TreesOf(b)[1..];
      assert TreesOf(a)[1..] == TreesOf(a.tail) && TreesOf(b)[1..] == TreesOf(b.tail);
      OrderedUnique(a.head, b.head);
      OrderedItemsUnique(a.tail, b.tail);
    }
  }

  lemma HeadIsLeast(f: Fields, k: string)
    requires f.Field? && Ascending(f) && HasKey(f, k)
    ensures k == f.key || Less(f.key, k)
  {
    if k != f.key {
      KeyAfter(f.key, f.rest, k);
    }
  }

  lemma {:induction false} KeyAfter(low: string, f: Fields, k: string)
    requires AllAfter(low, f) && HasKey(f, k)
    ensures Less(low, k)
  {
    if f.key != k {
      KeyAfter(low, f.rest, k);
    }
  }

  lemma EmptyMap(f: Fields)
    ensures MapOf(f) == map[] <==> f.NoField?
  {
    assert f.Field? ==> f.key in MapOf(f);
  }

  lemma {:induction false} OrderedFieldsUnique(f: Fields, g: Fields)
    requires Ascending(f) && Ascending(g) && ValuesInOrder(f) && ValuesInOrder(g) && MapOf(f) == MapOf(g)
    ensures f == g
    decreases f
  {
    EmptyMap(f);
    EmptyMap(g);
    if f.Field? {
      assert f.key in MapOf(g);
      MapKeys(g, f.key);
      MapKeys(f, g.key);
      HeadIsLeast(f, g.key);
      HeadIsLeast(g, f.key);
      LessTotal(f.key, g.key);
      assert MapOf(f)[f.key] == MapOf(g)[g.key];
      OrderedUnique(f.value, g.value);
      AfterAbsent(f.key, f.rest);
      AfterAbsent(g.key, g.rest);
      MapKeys(f.rest, f.key);
      MapKeys(g.rest, g.key);
      assert MapOf(f.rest) == MapOf(f) - {f.key};
      assert MapOf(g.rest) == MapOf(g) - {g.key};
      OrderedFieldsUnique(f.rest, g.rest);
    }
  }

  // ---------------------------------------------------------------- the main results

  /** The canonical text parses back to the value with its keys sorted. */
  lemma CanonicalRoundTrip(j: Json)
    requires WellFormed(j)
    ensures Parse(Canonicalize(j)) == Some(Read(Sorted(j), ""))
  {
    CanonicalizeSorts(j);
    SortedFacts(j);
    ParsePrinted(Sorted(j), "");
    assert Print(Sorted(j)) + "" == Print(Sorted(j));
  }

  /** Two values print the same text exactly when they are equal as trees with unordered keys. */
  lemma CanonicalInjective(a: Json, b: Json)
    requires WellFormed(a) && WellFormed(b)
    ensures Canonicalize(a) == Canonicalize(b) <==> TreeOf(a) == TreeOf(b)
  {
    SortedFacts(a);
    SortedFacts(b);
    if Canonicalize(a) == Canonicalize(b) {
      CanonicalRoundTrip(a);
      CanonicalRoundTrip(b);
    }
    if TreeOf(a) == TreeOf(b) {
      OrderedUnique(Sorted(a), Sorted(b));
      CanonicalizeSorts(a);
      CanonicalizeSorts(b);
    }
  }
}
