/** Unique readability: two values have one canonical text exactly when they are the same value. */
module JsonReading {
  import opened Prelude
  import opened Sorting
  import opened CanonicalJson

  // ----- strings

  lemma {:induction false} HexReads(a: Unit, b: Unit)
    requires UnicodeEscape(a) == UnicodeEscape(b)
    ensures a == b
  {
    var x, y := UnicodeEscape(a), UnicodeEscape(b);
    assert x[2] == y[2] && x[3] == y[3] && x[4] == y[4] && x[5] == y[5];
    DigitReads(a / 16 / 16 / 16, b / 16 / 16 / 16);
    DigitReads(a / 16 / 16 % 16, b / 16 / 16 % 16);
    DigitReads(a / 16 % 16, b / 16 % 16);
    DigitReads(a % 16, b % 16);
    Sixteenths(a / 16 / 16, b / 16 / 16);
    Sixteenths(a / 16, b / 16);
    Sixteenths(a, b);
  }

  lemma {:induction false} Sixteenths(a: int, b: int)
    requires a / 16 == b / 16 && a % 16 == b % 16
    ensures a == b
  {
  }

  lemma {:induction false} DigitReads(a: int, b: int)
    requires 0 <= a < 16 && 0 <= b < 16
    ensures HexDigit(a) == HexDigit(b) ==> a == b
  {
  }

  lemma {:induction false} ShortReads(a: Unit, b: Unit)
    requires ShortEscape(a) == ShortEscape(b) != 0
    ensures a == b
  {
  }

  lemma {:induction false} TokenShape(s: Text, i: nat)
    requires i < |s|
    ensures var t := Token(s, i);
            || (|t| == 1 && t[0] == s[i] && t[0] != BACKSLASH && t[0] != QUOTE)
            || (|t| == 2 && t[0] == BACKSLASH && t[1] == ShortEscape(s[i]) && t[1] != LETTER_U && t[1] != 0)
            || (|t| == 6 && t == UnicodeEscape(s[i]))
  {
  }

  /** One token says which unit it stands for and where it ends. */
  lemma {:induction false} TokenReads(s: Text, i: nat, t: Text, j: nat, r1: Text, r2: Text)
    requires i < |s| && j < |t| && Token(s, i) + r1 == Token(t, j) + r2
    ensures s[i] == t[j] && r1 == r2
  {
    TokenShape(s, i);
    TokenShape(t, j);
    var a, b := Token(s, i), Token(t, j);
    assert (a + r1)[0] == a[0] && (b + r2)[0] == b[0];
    if |a| > 1 && |b| > 1 {
      assert (a + r1)[1] == a[1] && (b + r2)[1] == b[1];
    }
    assert |a| == |b|;
    SameLength(a, r1, b, r2);
    if |a| == 2 {
      ShortReads(s[i], t[j]);
    } else if |a| == 6 {
      HexReads(s[i], t[j]);
    }
  }

  lemma {:induction false} SameLength<T>(a: seq<T>, r1: seq<T>, b: seq<T>, r2: seq<T>)
    requires |a| == |b| && a + r1 == b + r2
    ensures a == b && r1 == r2
  {
    assert (a + r1)[..|a|] == a && (b + r2)[..|b|] == b;
    assert (a + r1)[|a|..] == r1 && (b + r2)[|b|..] == r2;
  }

  lemma {:induction false} Associates<T>(a: seq<T>, b: seq<T>, c: seq<T>)
    ensures (a + b) + c == a + (b + c)
  {
  }

  lemma {:induction false} QuotedStep(s: Text, i: nat, r: Text)
    requires i <= |s|
    ensures i == |s| ==> QuotedFrom(s, i) + r == [QUOTE] + r
    ensures i < |s| ==> QuotedFrom(s, i) + r == Token(s, i) + (QuotedFrom(s, i + 1) + r)
    ensures QuotedFrom(s, i) != []
    ensures (QuotedFrom(s, i) + r)[0] == QUOTE <==> i == |s|
  {
    if i < |s| {
      TokenShape(s, i);
      Associates(Token(s, i), QuotedFrom(s, i + 1), r);
      assert (QuotedFrom(s, i) + r)[0] == Token(s, i)[0];
    }
  }

  lemma {:induction false} TailsEqual<T>(s: seq<T>, i: nat, t: seq<T>, j: nat)
    requires i < |s| && j < |t| && s[i] == t[j] && s[i + 1..] == t[j + 1..]
    ensures s[i..] == t[j..]
  {
    assert s[i..] == [s[i]] + s[i + 1..] && t[j..] == [t[j]] + t[j + 1..];
  }

  lemma {:induction false} QuotedFromReads(s: Text, i: nat, t: Text, j: nat, r1: Text, r2: Text)
    requires i <= |s| && j <= |t| && QuotedFrom(s, i) + r1 == QuotedFrom(t, j) + r2
    ensures s[i..] == t[j..] && r1 == r2
    decreases |s| - i
  {
    QuotedStep(s, i, r1);
    QuotedStep(t, j, r2);
    if i < |s| {
      TokenReads(s, i, t, j, QuotedFrom(s, i + 1) + r1, QuotedFrom(t, j + 1) + r2);
      QuotedFromReads(s, i + 1, t, j + 1, r1, r2);
      TailsEqual(s, i, t, j);
    } else {
      SameLength([QUOTE], r1, [QUOTE], r2);
    }
  }

  /** A quoted string can be read off the front of any text in one way only. */
  lemma {:induction false} QuotedReads(s: Text, t: Text, r1: Text, r2: Text)
    requires Quoted(s) + r1 == Quoted(t) + r2
    ensures s == t && r1 == r2
  {
    Associates([QUOTE], QuotedFrom(s, 0), r1);
    Associates([QUOTE], QuotedFrom(t, 0), r2);
    SameLength([QUOTE], QuotedFrom(s, 0) + r1, [QUOTE], QuotedFrom(t, 0) + r2);
    QuotedFromReads(s, 0, t, 0, r1, r2);
    assert s[0..] == s && t[0..] == t;
  }

  // ----- texts of values

  ghost predicate IsText(t: Text) {
    exists v :: WellFormed(v) && Canonical(v) == Some(t)
  }

  ghost predicate IsEntry(e: Entry) { IsText(e.text) }

  /** The text that follows cannot continue a number. */
  predicate Delimited(r: Text) { r == [] || !NumeralUnit(r[0]) }

  lemma {:induction false} NumeralReads(a: Text, b: Text, r1: Text, r2: Text)
    requires Numeral(a) && Numeral(b) && Delimited(r1) && Delimited(r2) && a + r1 == b + r2
    ensures a == b && r1 == r2
  {
    if |a| < |b| {
      UnitAfter(a, b, r1, r2);
      assert false;
    } else if |b| < |a| {
      UnitAfter(b, a, r2, r1);
      assert false;
    }
    SameLength(a, r1, b, r2);
  }

  lemma {:induction false} UnitAfter(a: Text, b: Text, r1: Text, r2: Text)
    requires |a| < |b| && a + r1 == b + r2
    ensures r1 != [] && r1[0] == b[|a|]
  {
    assert (a + r1)[|a|] == (b + r2)[|a|];
  }

  /** What a text starts with tells what kind of value it is. */
  lemma {:induction false} FirstUnit(v: Value)
    requires WellFormed(v) && Canonical(v).Some?
    ensures Canonical(v).value != []
    ensures var u := Canonical(v).value[0];
            match v
            case Null => u == 110
            case Bool(b) => u == if b then 116 else 102
            case Num(_) => NumeralUnit(u)
            case Str(_) => u == QUOTE
            case Arr(_) => u == OPEN_BRACKET
            case Obj(_) => u == OPEN_BRACE
            case _ => false
  {
  }

  ghost predicate Element(t: Text, keyed: bool) {
    if keyed then exists e :: IsEntry(e) && t == EntryText(e) else IsText(t)
  }

  ghost predicate Elements(texts: seq<Text>, keyed: bool) {
    forall i :: 0 <= i < |texts| ==> Element(texts[i], keyed)
  }

  lemma {:induction false} TextStart(t: Text)
    requires IsText(t)
    ensures t != [] && t[0] != COMMA && t[0] != CLOSE_BRACKET && t[0] != CLOSE_BRACE
  {
    var v :| WellFormed(v) && Canonical(v) == Some(t);
    FirstUnit(v);
  }

  lemma {:induction false} ElementStart(t: Text, keyed: bool)
    requires Element(t, keyed)
    ensures t != [] && t[0] != COMMA && t[0] != CLOSE_BRACKET && t[0] != CLOSE_BRACE
  {
    if keyed {
      var e :| IsEntry(e) && t == EntryText(e);
      assert t[0] == QUOTE;
    } else {
      TextStart(t);
    }
  }

  lemma {:induction false} ItemsAreElements(items: seq<Value>)
    requires ItemTexts(items).Some? && forall i :: 0 <= i < |items| ==> WellFormed(items[i])
    ensures Elements(ItemTexts(items).value, false)
  {
    ItemsPrint(items);
    var texts := ItemTexts(items).value;
    forall i | 0 <= i < |texts|
      ensures Element(texts[i], false)
    {
      assert WellFormed(items[i]) && Canonical(items[i]) == Some(texts[i]);
    }
  }

  lemma {:induction false} EntriesAreTexts(members: seq<Member>)
    requires Entries(members).Some? && forall i :: 0 <= i < |members| ==> WellFormed(members[i].value)
    ensures forall e :: e in Entries(members).value ==> IsEntry(e)
  {
    if members != [] {
      assert forall i :: 0 <= i < |members[1..]| ==> members[1..][i] == members[i + 1];
      EntriesAreTexts(members[1..]);
      if !members[0].value.Undefined? {
        assert WellFormed(members[0].value);
        assert IsText(Canonical(members[0].value).value);
      }
    }
  }

  lemma {:induction false} EntriesAreElements(members: seq<Member>)
    requires Entries(members).Some? && forall i :: 0 <= i < |members| ==> WellFormed(members[i].value)
    ensures Elements(EntryTexts(Sort(Entries(members).value, KeyLeq)), true)
  {
    var entries := Entries(members).value;
    EntriesAreTexts(members);
    SortMembers(entries, KeyLeq);
    var sorted := Sort(entries, KeyLeq);
    forall i | 0 <= i < |EntryTexts(sorted)|
      ensures Element(EntryTexts(sorted)[i], true)
    {
      assert sorted[i] in sorted;
      assert IsEntry(sorted[i]) && EntryTexts(sorted)[i] == EntryText(sorted[i]);
    }
  }

  /** The list inside an array's or an object's text. */
  ghost predicate Bracketed(t: Text, texts: seq<Text>, keyed: bool) {
    && Elements(texts, keyed)
    && t == [if keyed then OPEN_BRACE else OPEN_BRACKET] + Join(texts) + [if keyed then CLOSE_BRACE else CLOSE_BRACKET]
  }

  lemma {:induction false} Opened(t: Text, texts: seq<Text>, keyed: bool, r: Text)
    requires Bracketed(t, texts, keyed)
    ensures |Join(texts)| < |t|
    ensures t + r == [if keyed then OPEN_BRACE else OPEN_BRACKET]
                     + (Join(texts) + [if keyed then CLOSE_BRACE else CLOSE_BRACKET] + r)
  {
  }

  /** A canonical text can be read off the front of any delimited text in one way only. */
  lemma {:induction false} TextReads(a: Text, b: Text, r1: Text, r2: Text)
    requires IsText(a) && IsText(b) && Delimited(r1) && Delimited(r2) && a + r1 == b + r2
    ensures a == b && r1 == r2
    decreases |a|, 0
  {
    var v :| WellFormed(v) && Canonical(v) == Some(a);
    var w :| WellFormed(w) && Canonical(w) == Some(b);
    FirstUnit(v);
    FirstUnit(w);
    assert (a + r1)[0] == a[0] && (b + r2)[0] == b[0];
    match v {
      case Num(_) => NumeralReads(a, b, r1, r2);
      case Str(s) => QuotedReads(s, w.s, r1, r2);
      case Arr(items) =>
        ItemsAreElements(items);
        ItemsAreElements(w.items);
        BracketedReads(a, b, ItemTexts(items).value, ItemTexts(w.items).value, false, r1, r2);
      case Obj(members) =>
        EntriesAreElements(members);
        EntriesAreElements(w.members);
        BracketedReads(a, b, EntryTexts(Sort(Entries(members).value, KeyLeq)),
                       EntryTexts(Sort(Entries(w.members).value, KeyLeq)), true, r1, r2);
      case _ => SameLength(a, r1, b, r2);
    }
  }

  lemma {:induction false} BracketedReads(
    a: Text, b: Text, firsts: seq<Text>, seconds: seq<Text>, keyed: bool, r1: Text, r2: Text)
    requires Bracketed(a, firsts, keyed) && Bracketed(b, seconds, keyed) && a + r1 == b + r2
    ensures a == b && firsts == seconds && r1 == r2
    decreases |Join(firsts)|, 3
  {
    var close := if keyed then CLOSE_BRACE else CLOSE_BRACKET;
    var open := [if keyed then OPEN_BRACE else OPEN_BRACKET];
    Opened(a, firsts, keyed, r1);
    Opened(b, seconds, keyed, r2);
    SameLength(open, Join(firsts) + [close] + r1, open, Join(seconds) + [close] + r2);
    ListReads(firsts, seconds, keyed, r1, r2);
  }

  /** What follows the first text of a list. */
  function AfterFirst(texts: seq<Text>, close: Unit, r: Text): Text
    requires texts != []
  {
    if |texts| == 1 then [close] + r else [COMMA] + (Join(texts[1..]) + [close] + r)
  }

  lemma {:induction false} JoinRest(texts: seq<Text>, close: Unit, r: Text)
    requires texts != []
    ensures Join(texts) + [close] + r ==
            texts[0] + AfterFirst(texts, close, r)
    ensures |texts[0]| <= |Join(texts)| && (|texts| > 1 ==> |Join(texts[1..])| < |Join(texts)|)
  {
    if |texts| > 1 {
      var rest := Join(texts[1..]);
      assert Join(texts) == texts[0] + [COMMA] + rest;
      assert texts[0] + [COMMA] + rest + [close] + r == texts[0] + ([COMMA] + (rest + [close] + r));
    }
  }

  lemma {:induction false} ListReads(firsts: seq<Text>, seconds: seq<Text>, keyed: bool, r1: Text, r2: Text)
    requires Elements(firsts, keyed) && Elements(seconds, keyed)
    requires var close := if keyed then CLOSE_BRACE else CLOSE_BRACKET;
             Join(firsts) + [close] + r1 == Join(seconds) + [close] + r2
    ensures firsts == seconds && r1 == r2
    decreases |Join(firsts)|, 2
  {
    var close := if keyed then CLOSE_BRACE else CLOSE_BRACKET;
    if firsts == [] || seconds == [] {
      EmptyList(firsts, seconds, keyed, r1, r2);
    } else {
      JoinRest(firsts, close, r1);
      JoinRest(seconds, close, r2);
      var more1, more2 := AfterFirst(firsts, close, r1), AfterFirst(seconds, close, r2);
      ElementReads(firsts[0], seconds[0], keyed, more1, more2);
      assert more1[0] == more2[0];
      if |firsts| == 1 {
        SameLength([close], r1, [close], r2);
      } else {
        SameLength([COMMA], Join(firsts[1..]) + [close] + r1, [COMMA], Join(seconds[1..]) + [close] + r2);
        ListReads(firsts[1..], seconds[1..], keyed, r1, r2);
        TailsEqual(firsts, 0, seconds, 0);
        assert firsts[0..] == firsts && seconds[0..] == seconds;
      }
    }
  }

  lemma {:induction false} EmptyList(firsts: seq<Text>, seconds: seq<Text>, keyed: bool, r1: Text, r2: Text)
    requires Elements(firsts, keyed) && Elements(seconds, keyed) && (firsts == [] || seconds == [])
    requires var close := if keyed then CLOSE_BRACE else CLOSE_BRACKET;
             Join(firsts) + [close] + r1 == Join(seconds) + [close] + r2
    ensures firsts == seconds && r1 == r2
  {
    var close := if keyed then CLOSE_BRACE else CLOSE_BRACKET;
    ListStart(firsts, keyed, r1);
    ListStart(seconds, keyed, r2);
    assert firsts == [] && seconds == [];
    SameLength([close], r1, [close], r2);
  }

  lemma {:induction false} ListStart(texts: seq<Text>, keyed: bool, r: Text)
    requires Elements(texts, keyed)
    ensures var close := if keyed then CLOSE_BRACE else CLOSE_BRACKET;
            && (texts == [] ==> Join(texts) + [close] + r == [close] + r)
            && ((Join(texts) + [close] + r)[0] == close <==> texts == [])
  {
    var close := if keyed then CLOSE_BRACE else CLOSE_BRACKET;
    if texts != [] {
      ElementStart(texts[0], keyed);
      JoinRest(texts, close, r);
      assert (Join(texts) + [close] + r)[0] == texts[0][0];
    }
  }

  lemma {:induction false} ElementReads(a: Text, b: Text, keyed: bool, r1: Text, r2: Text)
    requires Element(a, keyed) && Element(b, keyed) && Delimited(r1) && Delimited(r2) && a + r1 == b + r2
    ensures a == b && r1 == r2
    decreases |a|, 1
  {
    if keyed {
      var d :| IsEntry(d) && a == EntryText(d);
      var e :| IsEntry(e) && b == EntryText(e);
      EntryReads(d, e, r1, r2);
    } else {
      TextReads(a, b, r1, r2);
    }
  }

  lemma {:induction false} EntryApart(e: Entry, r: Text)
    ensures EntryText(e) + r == Quoted(e.key) + ([COLON] + (e.text + r))
    ensures |e.text| < |EntryText(e)|
  {
  }

  lemma {:induction false} EntryReads(d: Entry, e: Entry, r1: Text, r2: Text)
    requires IsEntry(d) && IsEntry(e) && Delimited(r1) && Delimited(r2) && EntryText(d) + r1 == EntryText(e) + r2
    ensures d == e && r1 == r2
    decreases |EntryText(d)|, 0
  {
    EntryApart(d, r1);
    EntryApart(e, r2);
    QuotedReads(d.key, e.key, [COLON] + (d.text + r1), [COLON] + (e.text + r2));
    SameLength([COLON], d.text + r1, [COLON], e.text + r2);
    TextReads(d.text, e.text, r1, r2);
  }
}
