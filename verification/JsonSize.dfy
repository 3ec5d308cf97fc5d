/** The size estimate for client event payloads against the text it estimates. */
module JsonSize {

  type Byte = x: int | 0 <= x < 256 witness 0

  /** Strings are their UTF-8 bytes, numbers their text, object entries in the order
      they are written. */
  datatype Json =
    | Null
    | Bool(b: bool)
    | Number(text: seq<Byte>)
    | String(s: seq<Byte>)
    | Array(items: seq<Json>)
    | Object(entries: seq<Entry>)

  datatype Entry = Entry(key: seq<Byte>, value: Json)

  // -- compact serialisation (section 7 of RFC 8259 for strings) ---------------------------------

  const QUOTE: Byte := 0x22
  const BACKSLASH: Byte := 0x5C

  function Hex(n: int): Byte
    requires 0 <= n < 16
  {
    if n < 10 then 0x30 + n else 0x61 + n - 10
  }

  /** Quotation mark, reverse solidus and the control characters must be escaped, five
      of them by a letter. */
  function Escape(b: Byte): seq<Byte> {
    if b == QUOTE || b == BACKSLASH then [BACKSLASH, b]
    else if b == 0x08 then [BACKSLASH, 0x62]
    else if b == 0x09 then [BACKSLASH, 0x74]
    else if b == 0x0A then [BACKSLASH, 0x6E]
    else if b == 0x0C then [BACKSLASH, 0x66]
    else if b == 0x0D then [BACKSLASH, 0x72]
    else if b < 0x20 then [BACKSLASH, 0x75, 0x30, 0x30, Hex(b / 16), Hex(b % 16)]
    else [b]
  }

  function Escaped(s: seq<Byte>): seq<Byte>
    decreases |s|
  {
    if s == [] then [] else Escape(s[0]) + Escaped(s[1..])
  }

  function Quoted(s: seq<Byte>): seq<Byte> { [QUOTE] + Escaped(s) + [QUOTE] }

  function Text(v: Json): seq<Byte>
    decreases v, 0
  {
    match v
    case Null => [0x6E, 0x75, 0x6C, 0x6C]
    case Bool(b) => if b then [0x74, 0x72, 0x75, 0x65] else [0x66, 0x61, 0x6C, 0x73, 0x65]
    case Number(text) => text
    case String(s) => Quoted(s)
    case Array(items) => [0x5B] + ItemsText(items) + [0x5D]
    case Object(entries) => [0x7B] + EntriesText(entries) + [0x7D]
  }

  function ItemsText(items: seq<Json>): seq<Byte>
    decreases items, 1
  {
    if items == [] then []
    else Text(items[0]) + (if |items| > 1 then [0x2C] else []) + ItemsText(items[1..])
  }

  function EntriesText(entries: seq<Entry>): seq<Byte>
    decreases entries, 1
  {
    if entries == [] then []
    else
      Quoted(entries[0].key) + [0x3A] + Text(entries[0].value)
        + (if |entries| > 1 then [0x2C] else []) + EntriesText(entries[1..])
  }

  // -- the estimate --------------------------------------------------------------------------------

  function Estimate(v: Json): nat
    decreases v, 0
  {
    match v
    case Null => 4
    case Bool(b) => if b then 4 else 5
    case Number(text) => |text|
    case String(s) => |s| + 2
    case Array(items) => 2 + ItemsEstimate(items) + if |items| > 1 then |items| - 1 else 0
    case Object(entries) => 2 + EntriesEstimate(entries) + if |entries| > 1 then |entries| - 1 else 0
  }

  function ItemsEstimate(items: seq<Json>): nat
    decreases items, 1
  {
    if items == [] then 0 else Estimate(items[0]) + ItemsEstimate(items[1..])
  }

  function EntriesEstimate(entries: seq<Entry>): nat
    decreases entries, 1
  {
    if entries == [] then 0 else |entries[0].key| + 2 + 1 + Estimate(entries[0].value) + EntriesEstimate(entries[1..])
  }

  // -- how they compare -------------------------------------------------------------------------------

  predicate MustEscape(b: Byte) { b == QUOTE || b == BACKSLASH || b < 0x20 }

  ghost predicate Plain(s: seq<Byte>) { forall i :: 0 <= i < |s| ==> !MustEscape(s[i]) }

  /** No string or key anywhere in the value needs an escape. */
  ghost predicate NeedsNoEscape(v: Json)
    decreases v
  {
    match v
    case String(s) => Plain(s)
    case Array(items) => forall i :: 0 <= i < |items| ==> NeedsNoEscape(items[i])
    case Object(entries) => forall i :: 0 <= i < |entries| ==> Plain(entries[i].key) && NeedsNoEscape(entries[i].value)
    case _ => true
  }

  lemma {:induction false} EscapedLength(s: seq<Byte>)
    ensures |s| <= |Escaped(s)| <= 6 * |s|
    ensures |Escaped(s)| == |s| <==> Plain(s)
    decreases |s|
  {
    if s != [] {
      EscapedLength(s[1..]);
      assert Plain(s) <==> !MustEscape(s[0]) && Plain(s[1..]) by {
        assert forall i :: 0 <= i < |s| - 1 ==> s[1..][i] == s[i + 1];
        assert forall i :: 0 < i < |s| ==> s[i] == s[1..][i - 1];
      }
    }
  }

  /** For every value, the estimate is at most the length of its text and the text at
      most six times the estimate; the estimate is the exact length if and only if no
      string or key in it needs an escape. */
  lemma {:induction false} EstimateBounds(v: Json)
    ensures Estimate(v) <= |Text(v)| <= 6 * Estimate(v)
    ensures Estimate(v) == |Text(v)| <==> NeedsNoEscape(v)
    decreases v, 0
  {
    match v
    case String(s) => EscapedLength(s);
    case Array(items) => ItemsBounds(items);
    case Object(entries) => EntriesBounds(entries);
    case _ =>
  }

  lemma {:induction false} ItemsBounds(items: seq<Json>)
    ensures var commas := if |items| > 1 then |items| - 1 else 0;
            && ItemsEstimate(items) + commas <= |ItemsText(items)| <= 6 * ItemsEstimate(items) + commas
            && (ItemsEstimate(items) + commas == |ItemsText(items)| <==>
                  forall i :: 0 <= i < |items| ==> NeedsNoEscape(items[i]))
    decreases items, 1
  {
    if items != [] {
      EstimateBounds(items[0]);
      ItemsBounds(items[1..]);
      assert (forall i :: 0 <= i < |items| ==> NeedsNoEscape(items[i])) <==>
             NeedsNoEscape(items[0]) && forall i :: 0 <= i < |items[1..]| ==> NeedsNoEscape(items[1..][i]) by {
        assert forall i :: 0 < i < |items| ==> items[i] == items[1..][i - 1];
      }
    }
  }

  lemma {:induction false} EntriesBounds(entries: seq<Entry>)
    ensures var commas := if |entries| > 1 then |entries| - 1 else 0;
            && EntriesEstimate(entries) + commas <= |EntriesText(entries)| <= 6 * EntriesEstimate(entries) + commas
            && (EntriesEstimate(entries) + commas == |EntriesText(entries)| <==>
                  forall i :: 0 <= i < |entries| ==> Plain(entries[i].key) && NeedsNoEscape(entries[i].value))
    decreases entries, 1
  {
    if entries != [] {
      EscapedLength(entries[0].key);
      EstimateBounds(entries[0].value);
      EntriesBounds(entries[1..]);
      assert forall i :: 0 < i < |entries| ==> entries[i] == entries[1..][i - 1];
    }
  }

  /** Six is the least factor: strings of control characters come as close as one likes. */
  lemma {:induction false} FactorIsTight(s: seq<Byte>)
    requires forall i :: 0 <= i < |s| ==> s[i] == 1
    ensures |Text(String(s))| == 6 * Estimate(String(s)) - 10
  {
    ControlsEscapeSixfold(s);
  }

  lemma {:induction false} ControlsEscapeSixfold(s: seq<Byte>)
    requires forall i :: 0 <= i < |s| ==> s[i] == 1
    ensures |Escaped(s)| == 6 * |s|
    decreases |s|
  {
    if s != [] {
      ControlsEscapeSixfold(s[1..]);
    }
  }

  // -- the escapes are those of a string that can be read back ---------------------------------------

  /** Reads the contents of a quoted string up to its closing quotation mark. */
  function Unescaped(t: seq<Byte>): (r: seq<Byte>)
    decreases |t|
  {
    if t == [] || t[0] == QUOTE then []
    else if t[0] != BACKSLASH || |t| < 2 then [t[0]] + Unescaped(t[1..])
    else if t[1] == 0x75 && |t| >= 6 then [UnHex(t[4], t[5])] + Unescaped(t[6..])
    else [UnLetter(t[1])] + Unescaped(t[2..])
  }

  function UnLetter(b: Byte): Byte {
    if b == 0x62 then 0x08 else if b == 0x74 then 0x09 else if b == 0x6E then 0x0A
    else if b == 0x66 then 0x0C else if b == 0x72 then 0x0D else b
  }

  function UnHex(high: Byte, low: Byte): Byte { (16 * UnDigit(high) + UnDigit(low)) % 256 }

  function UnDigit(b: Byte): int { if b < 0x61 then b - 0x30 else b - 0x61 + 10 }

  /** A quoted string reads back as itself, so no two strings are written alike. */
  lemma {:induction false} QuotedReadsBack(s: seq<Byte>, rest: seq<Byte>)
    ensures Unescaped(Escaped(s) + [QUOTE] + rest) == s
    decreases |s|
  {
    if s == [] {
      assert Escaped(s) + [QUOTE] + rest == [QUOTE] + rest;
    } else {
      var tail := Escaped(s[1..]) + [QUOTE] + rest;
      QuotedReadsBack(s[1..], rest);
      assert Escaped(s) + [QUOTE] + rest == Escape(s[0]) + tail;
      ReadsOneBack(s[0], tail);
      assert s == [s[0]] + s[1..];
    }
  }

  lemma ReadsOneBack(b: Byte, tail: seq<Byte>)
    ensures Unescaped(Escape(b) + tail) == [b] + Unescaped(tail)
  {
    var t := Escape(b) + tail;
    assert t[|Escape(b)|..] == tail;
    if |Escape(b)| == 6 {
      assert UnDigit(Hex(b / 16)) == b / 16 && UnDigit(Hex(b % 16)) == b % 16;
    }
  }
}
