/**
 The serialised text that the sizes of this model count: what `json.dumps` writes, with
 non-ASCII text kept as it is (`scripts/benchmark_pilot/tools.py`, line 271) or escaped
 (line 287), and the compact form of the native service.
 */
module JsonText {
  import opened Json
  import Compact
  import Truncation

  // ------------------------------------------------------------------- strings

  function Hex(d: int): char {
    ['0', '1', '2', '3', '4', '5', '6', '7', '8', '9', 'a', 'b', 'c', 'd', 'e', 'f'][d % 16]
  }

  /** One UTF-16 code unit, escaped (section 7 of RFC 8259). */
  function Unit(n: int): string { ['\\', 'u', Hex(n / 4096), Hex(n / 256), Hex(n / 16), Hex(n)] }

  function ByteAt(s: string, i: nat): int { if i < |s| then s[i] as int else 0x80 }

  /** The payload of the `n` continuation bytes after the first byte. */
  function Payload(s: string, n: nat): int {
    if n == 0 then 0 else Payload(s, n - 1) * 64 + ByteAt(s, n) - 0x80
  }

  /** The code point of the UTF-8 sequence a text starts with (section 3 of RFC 3629). */
  function CodePoint(s: string): int
    requires s != ""
  {
    var lead := s[0] as int;
    if lead < 0xe0 then (lead - 0xc0) * 64 + Payload(s, 1)
    else if lead < 0xf0 then (lead - 0xe0) * 4096 + Payload(s, 2)
    else (lead - 0xf0) * 262144 + Payload(s, 3)
  }

  /** Sequences of four bytes are the code points beyond the basic plane, written as surrogate pairs. */
  function Units(s: string): string
    requires s != ""
  {
    var n := CodePoint(s);
    if s[0] as int < 0xf0 then Unit(n) else Unit(0xd800 + (n - 0x10000) / 1024) + Unit(0xdc00 + (n - 0x10000) % 1024)
  }

  /** What the first byte of a text contributes; continuation bytes are written with their lead byte. */
  function Escaped(s: string, encoding: Encoding): string
    requires s != ""
  {
    var code := s[0] as int;
    if s[0] == '"' || s[0] == '\\' then ['\\', s[0]]
    else if s[0] == '\n' then ['\\', 'n']
    else if s[0] == '\r' then ['\\', 'r']
    else if s[0] == '\t' then ['\\', 't']
    else if code == 8 then ['\\', 'b']
    else if code == 12 then ['\\', 'f']
    else if code < 0x20 then Unit(code)
    else if encoding == Utf8 || code < 0x7f then [s[0]]
    else if code == 0x7f then Unit(code)
    else if code < 0xc0 then []
    else Units(s)
  }

  function StringText(s: string, encoding: Encoding): string {
    if s == "" then "" else Escaped(s, encoding) + StringText(s[1..], encoding)
  }

  // -------------------------------------------------------------------- values

  function Quoted(s: string, encoding: Encoding): string { ['"'] + StringText(s, encoding) + ['"'] }

  /** The text of a value, with the spaces of Python's default separators or without any. */
  function Text(v: Json, encoding: Encoding, spaced: bool): string {
    match v
    case Null => "null"
    case Bool(b) => if b then "true" else "false"
    case Num(digits) => digits
    case Str(s) => Quoted(s, encoding)
    case Arr(items) => ['['] + ItemsText(items, encoding, spaced) + [']']
    case Obj(fields) => ['{'] + FieldsText(fields, encoding, spaced) + ['}']
  }

  function After(mark: char, spaced: bool): string { if spaced then [mark, ' '] else [mark] }

  function ItemsText(items: seq<Json>, encoding: Encoding, spaced: bool): string {
    if items == [] then ""
    else
      Text(items[0], encoding, spaced) + (if |items| == 1 then "" else After(',', spaced))
      + ItemsText(items[1..], encoding, spaced)
  }

  function FieldsText(fields: seq<Field>, encoding: Encoding, spaced: bool): string {
    if fields == [] then ""
    else
      Quoted(fields[0].key, encoding) + After(':', spaced) + Text(fields[0].value, encoding, spaced)
      + (if |fields| == 1 then "" else After(',', spaced)) + FieldsText(fields[1..], encoding, spaced)
  }

  // --------------------------------------------------------------- their lengths

  lemma {:induction false} StringLength(s: string, encoding: Encoding)
    ensures |StringText(s, encoding)| == TextSize(s, encoding)
  {
    if s != "" { StringLength(s[1..], encoding); }
  }

  /** A size counts exactly the characters of the text. */
  lemma {:induction false} SizeIsLength(v: Json, encoding: Encoding)
    ensures |Text(v, encoding, true)| == Size(v, encoding)
    decreases v, 1
  {
    match v
    case Str(s) => StringLength(s, encoding);
    case Arr(items) => ItemsLength(items, encoding);
    case Obj(fields) => FieldsLength(fields, encoding);
    case _ =>
  }

  lemma {:induction false} ItemsLength(items: seq<Json>, encoding: Encoding)
    ensures |ItemsText(items, encoding, true)| == ItemsSize(items, encoding)
    decreases items, 0
  {
    if items != [] {
      SizeIsLength(items[0], encoding);
      ItemsLength(items[1..], encoding);
    }
  }

  lemma {:induction false} FieldsLength(fields: seq<Field>, encoding: Encoding)
    ensures |FieldsText(fields, encoding, true)| == FieldsSize(fields, encoding)
    decreases fields, 0
  {
    if fields != [] {
      StringLength(fields[0].key, encoding);
      SizeIsLength(fields[0].value, encoding);
      FieldsLength(fields[1..], encoding);
    }
  }

  /** The native service counts the characters of the text without spaces. */
  lemma {:induction false} CompactIsLength(v: Json)
    ensures |Text(v, Utf8, false)| == Compact.CompactSize(v)
    decreases v, 1
  {
    match v
    case Str(s) => StringLength(s, Utf8);
    case Arr(items) => CompactItemsLength(items);
    case Obj(fields) => CompactFieldsLength(fields);
    case _ =>
  }

  lemma {:induction false} CompactItemsLength(items: seq<Json>)
    ensures |ItemsText(items, Utf8, false)| == Compact.CompactItems(items)
    decreases items, 0
  {
    if items != [] {
      CompactIsLength(items[0]);
      CompactItemsLength(items[1..]);
    }
  }

  lemma {:induction false} CompactFieldsLength(fields: seq<Field>)
    ensures |FieldsText(fields, Utf8, false)| == Compact.CompactFields(fields)
    decreases fields, 0
  {
    if fields != [] {
      StringLength(fields[0].key, Utf8);
      CompactIsLength(fields[0].value);
      CompactFieldsLength(fields[1..]);
    }
  }

  /**
   What the host measures: a result fits when its text, non-ASCII characters kept, is within
   the cap; the heaviest list is the one whose text, non-ASCII characters escaped, is longest.
   */
  lemma MeasuredAsText(fields: seq<Field>, items: seq<Json>, cap: int)
    ensures Truncation.Fits(fields, cap) <==> |Text(Obj(fields), Utf8, true)| <= cap
    ensures Truncation.Weight(items) == |Text(Arr(items), Ascii, true)|
  {
    SizeIsLength(Obj(fields), Utf8);
    SizeIsLength(Arr(items), Ascii);
  }
}
