/** The canonical JSON text that request digests and entity tags are taken over. */
module CanonicalJson {
  import opened Prelude
  import opened Sorting

  /** One UTF-16 code unit. */
  type Unit = u: int | 0 <= u < 0x1_0000

  type Text = seq<Unit>

  /**
   * A value handed to the printer. A number is its own shortest text; an object's members are in
   * insertion order; `NonJson` is everything the printer refuses besides `undefined`.
   */
  datatype Value =
    | Null
    | Bool(b: bool)
    | Num(text: Text)
    | Str(s: Text)
    | Arr(items: seq<Value>)
    | Obj(members: seq<Member>)
    | Undefined
    | NonJson

  datatype Member = Member(key: Text, value: Value)

  datatype Entry = Entry(key: Text, text: Text)

  const QUOTE: Unit := 34
  const COMMA: Unit := 44
  const COLON: Unit := 58
  const OPEN_BRACKET: Unit := 91
  const BACKSLASH: Unit := 92
  const CLOSE_BRACKET: Unit := 93
  const LETTER_U: Unit := 117
  const OPEN_BRACE: Unit := 123
  const CLOSE_BRACE: Unit := 125

  const NULL_TEXT: Text := [110, 117, 108, 108]
  const TRUE_TEXT: Text := [116, 114, 117, 101]
  const FALSE_TEXT: Text := [102, 97, 108, 115, 101]

  // ----- strings

  predicate HighSurrogate(u: Unit) { 0xD800 <= u < 0xDC00 }

  predicate LowSurrogate(u: Unit) { 0xDC00 <= u < 0xE000 }

  /** A surrogate that is not half of a pair. */
  predicate Lone(s: Text, i: nat)
    requires i < |s|
  {
    || (HighSurrogate(s[i]) && !(i + 1 < |s| && LowSurrogate(s[i + 1])))
    || (LowSurrogate(s[i]) && !(i > 0 && HighSurrogate(s[i - 1])))
  }

  function HexDigit(d: int): Unit
    requires 0 <= d < 16
  {
    if d < 10 then 48 + d else 87 + d
  }

  function UnicodeEscape(u: Unit): Text {
    [BACKSLASH, LETTER_U,
     HexDigit(u / 16 / 16 / 16), HexDigit(u / 16 / 16 % 16), HexDigit(u / 16 % 16), HexDigit(u % 16)]
  }

  /** The letter of the two-unit escape, or zero when there is none. */
  function ShortEscape(u: Unit): Unit {
    if u == QUOTE then QUOTE
    else if u == BACKSLASH then BACKSLASH
    else if u == 8 then 98
    else if u == 9 then 116
    else if u == 10 then 110
    else if u == 12 then 102
    else if u == 13 then 114
    else 0
  }

  /** How the unit at `i` is written between the quotes. */
  function Token(s: Text, i: nat): Text
    requires i < |s|
  {
    if ShortEscape(s[i]) != 0 then [BACKSLASH, ShortEscape(s[i])]
    else if s[i] < 32 || Lone(s, i) then UnicodeEscape(s[i])
    else [s[i]]
  }

  function QuotedFrom(s: Text, i: nat): Text
    requires i <= |s|
    decreases |s| - i
  {
    if i == |s| then [QUOTE] else Token(s, i) + QuotedFrom(s, i + 1)
  }

  /** `JSON.stringify` of a string. */
  function Quoted(s: Text): Text { [QUOTE] + QuotedFrom(s, 0) }

  // ----- the printer

  function Join(texts: seq<Text>): Text {
    if texts == [] then []
    else if |texts| == 1 then texts[0]
    else texts[0] + [COMMA] + Join(texts[1..])
  }

  function UnitRank(u: Unit): int { u }

  predicate KeyLeq(a: Entry, b: Entry) { LexLeq(a.key, b.key, UnitRank) }

  function EntryText(e: Entry): Text { Quoted(e.key) + [COLON] + e.text }

  function EntryTexts(entries: seq<Entry>): (r: seq<Text>)
    ensures |r| == |entries| && forall i :: 0 <= i < |entries| ==> r[i] == EntryText(entries[i])
  {
    if entries == [] then [] else [EntryText(entries[0])] + EntryTexts(entries[1..])
  }

  /** The canonical text, or nothing where the printer throws. */
  function Canonical(v: Value): Option<Text>
    decreases v, 0
  {
    match v
    case Null => Some(NULL_TEXT)
    case Bool(b) => Some(if b then TRUE_TEXT else FALSE_TEXT)
    case Num(text) => Some(text)
    case Str(s) => Some(Quoted(s))
    case Arr(items) =>
      var texts := ItemTexts(items);
      if texts.None? then None else Some([OPEN_BRACKET] + Join(texts.value) + [CLOSE_BRACKET])
    case Obj(members) =>
      var entries := Entries(members);
      if entries.None? then None
      else Some([OPEN_BRACE] + Join(EntryTexts(Sort(entries.value, KeyLeq))) + [CLOSE_BRACE])
    case Undefined => None
    case NonJson => None
  }

  function ItemTexts(items: seq<Value>): Option<seq<Text>>
    decreases items, 1
  {
    if items == [] then Some([])
    else
      var first, rest := Canonical(items[0]), ItemTexts(items[1..]);
      if first.None? || rest.None? then None else Some([first.value] + rest.value)
  }

  /** Keys with their texts, members without a value left out. */
  function Entries(members: seq<Member>): Option<seq<Entry>>
    decreases members, 1
  {
    if members == [] then Some([])
    else
      var rest := Entries(members[1..]);
      if members[0].value.Undefined? then rest
      else
        var first := Canonical(members[0].value);
        if first.None? || rest.None? then None else Some([Entry(members[0].key, first.value)] + rest.value)
  }

  // ----- what the values are

  predicate NumeralUnit(u: Unit) { 48 <= u <= 57 || u == 43 || u == 45 || u == 46 || u == 69 || u == 101 }

  predicate Numeral(text: Text) { text != [] && forall i :: 0 <= i < |text| ==> NumeralUnit(text[i]) }

  function KeyOf(m: Member): Text { m.key }

  /** Number texts are numerals, and no object holds a key twice. */
  ghost predicate WellFormed(v: Value) {
    match v
    case Num(text) => Numeral(text)
    case Arr(items) => forall i :: 0 <= i < |items| ==> WellFormed(items[i])
    case Obj(members) =>
      DistinctBy(members, KeyOf) && forall i :: 0 <= i < |members| ==> WellFormed(members[i].value)
    case _ => true
  }

  /** Nothing the printer refuses can be reached; a member without a value is no obstacle. */
  ghost predicate Printable(v: Value) {
    match v
    case Arr(items) => forall i :: 0 <= i < |items| ==> Printable(items[i])
    case Obj(members) =>
      forall i :: 0 <= i < |members| ==> members[i].value.Undefined? || Printable(members[i].value)
    case Undefined => false
    case NonJson => false
    case _ => true
  }

  /** The value under a key, `undefined` when there is none. */
  function Lookup(members: seq<Member>, key: Text): Value {
    if members == [] then Undefined
    else if members[0].key == key then members[0].value
    else Lookup(members[1..], key)
  }

  /** Equal up to the order of object keys and members without a value. */
  ghost predicate Same(v: Value, w: Value)
    decreases v
  {
    match v
    case Arr(items) =>
      w.Arr? && |items| == |w.items| && forall i :: 0 <= i < |items| ==> Same(items[i], w.items[i])
    case Obj(members) =>
      && w.Obj?
      && (forall i :: 0 <= i < |members| ==> Same(members[i].value, Lookup(w.members, members[i].key)))
      && (forall j :: 0 <= j < |w.members| ==>
            w.members[j].value.Undefined? || !Lookup(members, w.members[j].key).Undefined?)
    case _ => v == w
  }

  lemma {:induction false} ItemsPrint(items: seq<Value>)
    ensures ItemTexts(items).Some? <==> forall i :: 0 <= i < |items| ==> Canonical(items[i]).Some?
    ensures ItemTexts(items).Some? ==>
              && |ItemTexts(items).value| == |items|
              && forall i :: 0 <= i < |items| ==> Canonical(items[i]) == Some(ItemTexts(items).value[i])
  {
    if items != [] {
      ItemsPrint(items[1..]);
      assert forall i :: 0 < i < |items| ==> items[i] == items[1..][i - 1];
      assert forall i :: 0 <= i < |items[1..]| ==> items[1..][i] == items[i + 1];
    }
  }

  lemma {:induction false} EntriesPrint(members: seq<Member>)
    ensures Entries(members).Some? <==>
            forall i :: 0 <= i < |members| ==> members[i].value.Undefined? || Canonical(members[i].value).Some?
  {
    if members != [] {
      EntriesPrint(members[1..]);
      assert forall i :: 0 < i < |members| ==> members[i] == members[1..][i - 1];
      assert forall i :: 0 <= i < |members[1..]| ==> members[1..][i] == members[i + 1];
    }
  }

  /** The printer throws exactly when a value it refuses can be reached. */
  lemma {:induction false} PrintsWhenPrintable(v: Value)
    ensures Canonical(v).Some? <==> Printable(v)
  {
    match v {
      case Arr(items) =>
        forall i | 0 <= i < |items|
          ensures Canonical(items[i]).Some? <==> Printable(items[i])
        {
          PrintsWhenPrintable(items[i]);
        }
        ItemsPrint(items);
      case Obj(members) =>
        forall i | 0 <= i < |members|
          ensures Canonical(members[i].value).Some? <==> Printable(members[i].value)
        {
          PrintsWhenPrintable(members[i].value);
        }
        EntriesPrint(members);
      case _ =>
    }
  }
}
