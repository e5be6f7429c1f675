/** What a canonical text says when it is read as JSON: the literals, the strings, and lists in key order. */
module JsonText {
  import opened Prelude
  import opened Sorting
  import opened CanonicalJson
  import opened JsonTheorems

  // ----- reading a string

  function HexValue(u: Unit): Option<int> {
    if 48 <= u <= 57 then Some(u - 48) else if 97 <= u <= 102 then Some(u - 87) else None
  }

  /** The unit four hexadecimal digits name. */
  function HexUnit(a: Unit, b: Unit, c: Unit, d: Unit): Option<Unit> {
    if HexValue(a).None? || HexValue(b).None? || HexValue(c).None? || HexValue(d).None? then None
    else Some(4_096 * HexValue(a).value + 256 * HexValue(b).value + 16 * HexValue(c).value + HexValue(d).value)
  }

  /** The unit a letter after a backslash names. */
  function EscapedUnit(letter: Unit): Option<Unit> {
    if letter == '\"' as int then Some('\"' as int)
    else if letter == '\\' as int then Some('\\' as int)
    else if letter == '/' as int then Some('/' as int)
    else if letter == 'b' as int then Some(8)
    else if letter == 'f' as int then Some(12)
    else if letter == 'n' as int then Some(10)
    else if letter == 'r' as int then Some(13)
    else if letter == 't' as int then Some(9)
    else None
  }

  function Prefixed(first: Option<Unit>, rest: Option<Text>): Option<Text> {
    if first.None? || rest.None? then None else Some([first.value] + rest.value)
  }

  /** What follows the opening quote of a JSON string, read to its closing quote at the end of the text. */
  function Unescaped(t: Text): Option<Text> {
    if t == [] then None
    else if t[0] == '\"' as int then if |t| == 1 then Some([]) else None
    else if t[0] < 32 then None
    else if t[0] != '\\' as int then Prefixed(Some(t[0]), Unescaped(t[1..]))
    else if |t| < 2 then None
    else if t[1] != 'u' as int then Prefixed(EscapedUnit(t[1]), Unescaped(t[2..]))
    else if |t| < 6 then None
    else Prefixed(HexUnit(t[2], t[3], t[4], t[5]), Unescaped(t[6..]))
  }

  function Unquoted(t: Text): Option<Text> {
    if t == [] || t[0] != '\"' as int then None else Unescaped(t[1..])
  }

  lemma {:induction false} HexDigitValue(d: int)
    requires 0 <= d < 16
    ensures HexValue(HexDigit(d)) == Some(d)
  {
  }

  lemma {:induction false} FourDigits(u: Unit)
    ensures var e := UnicodeEscape(u);
            HexUnit(e[2], e[3], e[4], e[5]) == Some(u)
  {
    HexDigitValue(u / 16 / 16 / 16);
    HexDigitValue(u / 16 / 16 % 16);
    HexDigitValue(u / 16 % 16);
    HexDigitValue(u % 16);
  }

  lemma {:induction false} TokenUnescapes(s: Text, i: nat, more: Text)
    requires i < |s|
    ensures Unescaped(Token(s, i) + more) == Prefixed(Some(s[i]), Unescaped(more))
  {
    var t := Token(s, i) + more;
    if ShortEscape(s[i]) != 0 {
      assert t[2..] == more;
    } else if s[i] < 32 || Lone(s, i) {
      FourDigits(s[i]);
      assert t[6..] == more;
    } else {
      assert t[1..] == more;
    }
  }

  lemma {:induction false} QuotedFromUnescapes(s: Text, i: nat)
    requires i <= |s|
    ensures Unescaped(QuotedFrom(s, i)) == Some(s[i..])
    decreases |s| - i
  {
    if i < |s| {
      TokenUnescapes(s, i, QuotedFrom(s, i + 1));
      QuotedFromUnescapes(s, i + 1);
      assert s[i..] == [s[i]] + s[i + 1..];
    } else {
      assert s[i..] == [];
    }
  }

  /** Every string is read back from its quoted text, controls and lone surrogates included. */
  lemma {:induction false} UnquoteUndoesQuote(s: Text)
    ensures Unquoted(Quoted(s)) == Some(s)
  {
    QuotedFromUnescapes(s, 0);
    assert Quoted(s)[1..] == QuotedFrom(s, 0);
    assert s[0..] == s;
  }

  /** Units that are neither controls, quotes, backslashes nor surrogates. */
  predicate Plain(s: Text) {
    forall i :: 0 <= i < |s| ==> 32 <= s[i] < 0xD800 && s[i] != '\"' as int && s[i] != '\\' as int
  }

  lemma {:induction false} PlainFromIsItself(s: Text, i: nat)
    requires Plain(s) && i <= |s|
    ensures QuotedFrom(s, i) == s[i..] + ['\"' as int]
    decreases |s| - i
  {
    if i < |s| {
      PlainFromIsItself(s, i + 1);
      assert s[i..] == [s[i]] + s[i + 1..];
    }
  }

  /** Plain text stands between the quotes as it is. */
  lemma {:induction false} PlainIsItself(s: Text)
    requires Plain(s)
    ensures Quoted(s) == ['\"' as int] + s + ['\"' as int]
  {
    PlainFromIsItself(s, 0);
    assert s[0..] == s;
  }

  // ----- reading a value

  /** `a` stands before `b` in the order of code units. */
  ghost predicate Precedes(a: Text, b: Text) {
    exists k: nat ::
      && k <= |a| && k < |b| && a[..k] == b[..k]
      && (k == |a| || a[k] < b[k])
  }

  ghost predicate KeysAscend(entries: seq<Entry>) {
    forall i, j :: 0 <= i < j < |entries| ==> Precedes(entries[i].key, entries[j].key)
  }

  /** The texts with a comma between each two. */
  function Commas(texts: seq<Text>): Text {
    if texts == [] then []
    else if |texts| == 1 then texts[0]
    else Commas(texts[..|texts| - 1]) + [',' as int] + texts[|texts| - 1]
  }

  function MemberText(e: Entry): Text { Quoted(e.key) + [':' as int] + e.text }

  function MemberTexts(entries: seq<Entry>): (r: seq<Text>)
    ensures |r| == |entries| && forall i :: 0 <= i < |entries| ==> r[i] == MemberText(entries[i])
  {
    if entries == [] then []
    else MemberTexts(entries[..|entries| - 1]) + [MemberText(entries[|entries| - 1])]
  }

  function Ascii(s: string): Text
    requires forall i :: 0 <= i < |s| ==> s[i] < 128 as char
  {
    seq(|s|, i requires 0 <= i < |s| => s[i] as int)
  }

  /** Some entry is this member's, written as its own canonical text. */
  ghost predicate HasEntry(entries: seq<Entry>, m: Member) {
    Canonical(m.value).Some? && Entry(m.key, Canonical(m.value).value) in entries
  }

  /** Each entry is a member's and each member that has a value is an entry. */
  ghost predicate EntriesAreMembers(entries: seq<Entry>, members: seq<Member>) {
    && (forall m :: m in members && !m.value.Undefined? ==> HasEntry(entries, m))
    && (forall e :: e in entries ==> IsMember(e, members))
  }

  ghost predicate IsMember(e: Entry, members: seq<Member>) {
    exists m :: m in members && m.key == e.key && !m.value.Undefined? && Canonical(m.value) == Some(e.text)
  }

  lemma {:induction false} StrictlyPrecedes(a: Text, b: Text)
    requires LexLeq(a, b, UnitRank) && a != b
    ensures Precedes(a, b)
  {
    var k := LexDiffers(a, b, UnitRank);
  }

  lemma {:induction false} JoinSnoc(texts: seq<Text>, last: Text)
    requires texts != []
    ensures Join(texts + [last]) == Join(texts) + [COMMA] + last
  {
    var all := texts + [last];
    if |texts| == 1 {
      assert all[1..] == [last];
    } else {
      JoinSnoc(texts[1..], last);
      assert all[1..] == texts[1..] + [last];
      assert Join(all) == texts[0] + [COMMA] + (Join(texts[1..]) + [COMMA] + last);
    }
  }

  lemma {:induction false} JoinIsCommas(texts: seq<Text>)
    ensures Join(texts) == Commas(texts)
  {
    if |texts| > 1 {
      var front, last := texts[..|texts| - 1], texts[|texts| - 1];
      JoinIsCommas(front);
      JoinSnoc(front, last);
      assert texts == front + [last];
    }
  }

  lemma {:induction false} MemberTextsAre(entries: seq<Entry>)
    ensures EntryTexts(entries) == MemberTexts(entries)
  {
    forall i | 0 <= i < |entries|
      ensures EntryTexts(entries)[i] == MemberTexts(entries)[i]
    {
      assert EntryText(entries[i]) == MemberText(entries[i]);
    }
  }

  lemma {:induction false} SortedKeysAscend(entries: seq<Entry>)
    requires Sorted(entries, KeyLeq) && DistinctBy(entries, EntryKey)
    ensures KeysAscend(entries)
  {
    forall i, j | 0 <= i < j < |entries|
      ensures Precedes(entries[i].key, entries[j].key)
    {
      assert KeyLeq(entries[i], entries[j]) && EntryKey(entries[i]) != EntryKey(entries[j]);
      StrictlyPrecedes(entries[i].key, entries[j].key);
    }
  }

  lemma {:induction false} EntriesAre(members: seq<Member>, entries: seq<Entry>)
    requires Entries(members).Some? && forall e :: e in entries <==> e in Entries(members).value
    ensures EntriesAreMembers(entries, members)
  {
    forall m | m in members && !m.value.Undefined?
      ensures HasEntry(entries, m)
    {
      var i :| 0 <= i < |members| && members[i] == m;
      EntryOf(members, i);
    }
    forall e | e in entries
      ensures IsMember(e, members)
    {
      var i := EntryFrom(members, e);
      assert members[i] in members;
    }
  }

  lemma {:induction false} SortedEntriesAscend(found: seq<Entry>)
    requires DistinctBy(found, EntryKey)
    ensures KeysAscend(Sort(found, KeyLeq))
  {
    KeyOrder();
    SortDistinct(found, KeyLeq, EntryKey);
    SortSorts(found, KeyLeq);
    SortedKeysAscend(Sort(found, KeyLeq));
  }

  /**
   * An object's text is the members that have a value, each key once and in the order of code units,
   * between braces and commas.
   */
  lemma {:induction false} ObjectText(members: seq<Member>) returns (entries: seq<Entry>)
    requires DistinctBy(members, KeyOf) && Canonical(Obj(members)).Some?
    ensures Canonical(Obj(members)) == Some(['{' as int] + Commas(MemberTexts(entries)) + ['}' as int])
    ensures KeysAscend(entries) && EntriesAreMembers(entries, members)
  {
    var found := Entries(members).value;
    entries := Sort(found, KeyLeq);
    EntriesDistinct(members);
    SortedEntriesAscend(found);
    SortMembers(found, KeyLeq);
    EntriesAre(members, entries);
    MemberTextsAre(entries);
    JoinIsCommas(EntryTexts(entries));
  }

  /** An array's text is its items' own texts, in order, between brackets and commas. */
  lemma {:induction false} ArrayText(items: seq<Value>) returns (texts: seq<Text>)
    requires Canonical(Arr(items)).Some?
    ensures Canonical(Arr(items)) == Some(['[' as int] + Commas(texts) + [']' as int])
    ensures |texts| == |items| && forall i :: 0 <= i < |items| ==> Canonical(items[i]) == Some(texts[i])
  {
    texts := ItemTexts(items).value;
    ItemsPrint(items);
    JoinIsCommas(texts);
  }

  /** The literals are spelled as JSON spells them, and a string reads back as itself. */
  lemma {:induction false} ScalarText(v: Value)
    ensures v.Null? ==> Canonical(v) == Some(Ascii("null"))
    ensures v.Bool? ==> Canonical(v) == Some(if v.b then Ascii("true") else Ascii("false"))
    ensures v.Num? ==> Canonical(v) == Some(v.text)
    ensures v.Str? ==> Canonical(v).Some? && Unquoted(Canonical(v).value) == Some(v.s)
  {
    assert Ascii("null") == [110, 117, 108, 108];
    assert Ascii("true") == [116, 114, 117, 101];
    assert Ascii("false") == [102, 97, 108, 115, 101];
    if v.Str? {
      UnquoteUndoesQuote(v.s);
    }
  }
}
