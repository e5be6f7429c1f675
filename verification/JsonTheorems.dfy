/** One canonical text means one value, up to key order and members without a value. */
module JsonTheorems {
  import opened Prelude
  import opened Sorting
  import opened CanonicalJson
  import opened JsonReading

  function EntryKey(e: Entry): Text { e.key }

  lemma {:induction false} KeyOrder()
    ensures Ordering(KeyLeq)
    ensures forall a, b :: KeyLeq(a, b) && KeyLeq(b, a) ==> a.key == b.key
  {
    forall a: Entry, b: Entry
      ensures KeyLeq(a, b) || KeyLeq(b, a)
      ensures KeyLeq(a, b) && KeyLeq(b, a) ==> a.key == b.key
    {
      LexTotal(a.key, b.key, UnitRank);
    }
    forall a: Entry, b: Entry, c: Entry | KeyLeq(a, b) && KeyLeq(b, c)
      ensures KeyLeq(a, c)
    {
      LexTransitive(a.key, b.key, c.key, UnitRank);
    }
  }

  // ----- members and entries

  lemma {:induction false} EntryOf(members: seq<Member>, i: nat)
    requires i < |members| && Entries(members).Some? && !members[i].value.Undefined?
    ensures Canonical(members[i].value).Some?
    ensures Entry(members[i].key, Canonical(members[i].value).value) in Entries(members).value
  {
    if i > 0 {
      assert members[1..][i - 1] == members[i];
      EntryOf(members[1..], i - 1);
    }
  }

  lemma {:induction false} EntryFrom(members: seq<Member>, e: Entry) returns (i: nat)
    requires Entries(members).Some? && e in Entries(members).value
    ensures i < |members| && members[i].key == e.key && !members[i].value.Undefined?
    ensures Canonical(members[i].value) == Some(e.text)
  {
    if !members[0].value.Undefined? && e == Entries(members).value[0] {
      i := 0;
    } else {
      i := EntryFrom(members[1..], e);
      i := i + 1;
    }
  }

  lemma {:induction false} EntriesDistinct(members: seq<Member>)
    requires Entries(members).Some? && DistinctBy(members, KeyOf)
    ensures DistinctBy(Entries(members).value, EntryKey)
  {
    if members != [] {
      var rest := members[1..];
      assert forall i :: 0 <= i < |rest| ==> rest[i] == members[i + 1];
      EntriesDistinct(rest);
      forall e | e in Entries(rest).value
        ensures e.key != members[0].key
      {
        var i := EntryFrom(rest, e);
        assert KeyOf(members[0]) != KeyOf(members[i + 1]);
      }
    }
  }

  lemma {:induction false} LookupAt(members: seq<Member>, i: nat)
    requires i < |members| && DistinctBy(members, KeyOf)
    ensures Lookup(members, members[i].key) == members[i].value
  {
    if i > 0 {
      var rest := members[1..];
      assert forall k :: 0 <= k < |rest| ==> rest[k] == members[k + 1];
      assert KeyOf(members[0]) != KeyOf(members[i]);
      LookupAt(rest, i - 1);
    }
  }

  lemma {:induction false} LookupFrom(members: seq<Member>, key: Text) returns (i: nat)
    requires !Lookup(members, key).Undefined?
    ensures i < |members| && members[i].key == key && members[i].value == Lookup(members, key)
  {
    if members[0].key == key {
      i := 0;
    } else {
      i := LookupFrom(members[1..], key);
      i := i + 1;
    }
  }

  lemma {:induction false} LookupWellFormed(members: seq<Member>, key: Text)
    requires forall i :: 0 <= i < |members| ==> WellFormed(members[i].value)
    ensures WellFormed(Lookup(members, key))
  {
    if !Lookup(members, key).Undefined? {
      var i := LookupFrom(members, key);
    }
  }

  lemma {:induction false} FirstMember<T>(s: seq<T>)
    requires s != []
    ensures s[0] in s
  {
  }

  /** Two sorted lists without a repeated key that hold the same entries are one list. */
  lemma {:induction false} SortedOnce(a: seq<Entry>, b: seq<Entry>)
    requires Sorted(a, KeyLeq) && Sorted(b, KeyLeq) && DistinctBy(a, EntryKey) && DistinctBy(b, EntryKey)
    requires (forall e :: e in a ==> e in b) && (forall e :: e in b ==> e in a)
    ensures a == b
  {
    if a == [] {
      if b != [] {
        FirstMember(b);
        assert false;
      }
    } else {
      assert a[0] in a;
      var j :| 0 <= j < |b| && b[j] == a[0];
      assert b[0] in b;
      var i :| 0 <= i < |a| && a[i] == b[0];
      FirstsEqual(a, b, i, j);
      RestsHold(a, b);
      RestsHold(b, a);
      SortedOnce(a[1..], b[1..]);
      assert a == [a[0]] + a[1..] && b == [b[0]] + b[1..];
    }
  }

  lemma {:induction false} FirstsEqual(a: seq<Entry>, b: seq<Entry>, i: nat, j: nat)
    requires Sorted(a, KeyLeq) && Sorted(b, KeyLeq) && DistinctBy(a, EntryKey) && DistinctBy(b, EntryKey)
    requires i < |a| && j < |b| && a[i] == b[0] && b[j] == a[0]
    ensures a[0] == b[0]
  {
    KeyOrder();
    FirstIsLeast(a, i);
    FirstIsLeast(b, j);
    assert EntryKey(a[0]) == EntryKey(a[i]);
    assert i == 0;
  }

  lemma {:induction false} FirstIsLeast(a: seq<Entry>, i: nat)
    requires Sorted(a, KeyLeq) && i < |a|
    ensures KeyLeq(a[0], a[i])
  {
    if i == 0 {
      LexTotal(a[0].key, a[0].key, UnitRank);
    }
  }

  lemma {:induction false} RestsHold(a: seq<Entry>, b: seq<Entry>)
    requires a != [] && b != [] && a[0] == b[0] && DistinctBy(a, EntryKey)
    requires forall e :: e in a ==> e in b
    ensures forall e :: e in a[1..] ==> e in b[1..]
  {
    forall e | e in a[1..]
      ensures e in b[1..]
    {
      var i :| 0 <= i < |a[1..]| && a[1..][i] == e;
      assert a[i + 1] == e && EntryKey(a[0]) != EntryKey(a[i + 1]);
      assert e in a && e in b && e != b[0];
      assert b == [b[0]] + b[1..];
    }
  }

  // ----- the same value, the same text

  /** Key by key the members print alike. */
  ghost predicate Agree(members: seq<Member>, others: seq<Member>) {
    && (forall i :: 0 <= i < |members| ==> AgreeAt(members[i], others))
    && (forall j :: 0 <= j < |others| ==> others[j].value.Undefined? || !Lookup(members, others[j].key).Undefined?)
  }

  ghost predicate AgreeAt(m: Member, others: seq<Member>) {
    var other := Lookup(others, m.key);
    Canonical(m.value) == Canonical(other) && (m.value.Undefined? <==> other.Undefined?)
  }

  lemma {:induction false} AgreeTurns(members: seq<Member>, others: seq<Member>)
    requires Agree(members, others) && DistinctBy(members, KeyOf) && DistinctBy(others, KeyOf)
    ensures Agree(others, members)
  {
    forall j | 0 <= j < |others|
      ensures AgreeAt(others[j], members)
    {
      LookupAt(others, j);
      if !Lookup(members, others[j].key).Undefined? {
        var i := LookupFrom(members, others[j].key);
        assert AgreeAt(members[i], others);
      }
    }
    forall i | 0 <= i < |members|
      ensures members[i].value.Undefined? || !Lookup(others, members[i].key).Undefined?
    {
      assert AgreeAt(members[i], others);
    }
  }

  lemma {:induction false} AgreePrints(members: seq<Member>, others: seq<Member>)
    requires Agree(members, others) && Entries(others).Some?
    ensures Entries(members).Some?
    ensures forall e :: e in Entries(members).value ==> e in Entries(others).value
  {
    EntriesPrint(members);
    forall i | 0 <= i < |members|
      ensures members[i].value.Undefined? || Canonical(members[i].value).Some?
    {
      AgreeEntry(members, others, i);
    }
    forall e | e in Entries(members).value
      ensures e in Entries(others).value
    {
      var i := EntryFrom(members, e);
      AgreeEntry(members, others, i);
    }
  }

  lemma {:induction false} AgreeEntry(members: seq<Member>, others: seq<Member>, i: nat)
    requires Agree(members, others) && Entries(others).Some? && i < |members|
    ensures members[i].value.Undefined? ||
            (Canonical(members[i].value).Some?
             && Entry(members[i].key, Canonical(members[i].value).value) in Entries(others).value)
  {
    assert AgreeAt(members[i], others);
    if !members[i].value.Undefined? {
      var j := LookupFrom(others, members[i].key);
      EntryOf(others, j);
    }
  }

  lemma {:induction false} AgreeSorted(members: seq<Member>, others: seq<Member>)
    requires Agree(members, others) && Agree(others, members)
    requires DistinctBy(members, KeyOf) && DistinctBy(others, KeyOf)
    requires Entries(members).Some? && Entries(others).Some?
    ensures Sort(Entries(members).value, KeyLeq) == Sort(Entries(others).value, KeyLeq)
  {
    var d, e := Entries(members).value, Entries(others).value;
    AgreePrints(members, others);
    AgreePrints(others, members);
    KeyOrder();
    EntriesDistinct(members);
    EntriesDistinct(others);
    SortDistinct(d, KeyLeq, EntryKey);
    SortDistinct(e, KeyLeq, EntryKey);
    SortSorts(d, KeyLeq);
    SortSorts(e, KeyLeq);
    SortMembers(d, KeyLeq);
    SortMembers(e, KeyLeq);
    SortedOnce(Sort(d, KeyLeq), Sort(e, KeyLeq));
  }

  lemma {:induction false} AgreeText(members: seq<Member>, others: seq<Member>)
    requires Agree(members, others) && DistinctBy(members, KeyOf) && DistinctBy(others, KeyOf)
    ensures Canonical(Obj(members)) == Canonical(Obj(others))
  {
    AgreeTurns(members, others);
    if Entries(others).Some? {
      AgreePrints(members, others);
    }
    if Entries(members).Some? {
      AgreePrints(others, members);
      AgreeSorted(members, others);
    }
  }

  lemma {:induction false} ItemsAgree(items: seq<Value>, others: seq<Value>)
    requires |items| == |others| && forall i :: 0 <= i < |items| ==> Canonical(items[i]) == Canonical(others[i])
    ensures ItemTexts(items) == ItemTexts(others)
  {
    if items != [] {
      ItemsAgree(items[1..], others[1..]);
    }
  }

  /** Values that differ only in key order and members without a value print alike, or throw alike. */
  lemma {:induction false} SamePrintsAlike(v: Value, w: Value)
    requires WellFormed(v) && WellFormed(w) && Same(v, w)
    ensures Canonical(v) == Canonical(w)
    decreases v
  {
    match v {
      case Arr(items) =>
        forall i | 0 <= i < |items|
          ensures Canonical(items[i]) == Canonical(w.items[i])
        {
          SamePrintsAlike(items[i], w.items[i]);
        }
        ItemsAgree(items, w.items);
      case Obj(members) =>
        forall i | 0 <= i < |members|
          ensures AgreeAt(members[i], w.members)
        {
          LookupWellFormed(w.members, members[i].key);
          SamePrintsAlike(members[i].value, Lookup(w.members, members[i].key));
        }
        AgreeText(members, w.members);
      case _ =>
    }
  }

  // ----- the same text, the same value

  lemma {:induction false} EntryTextsRead(d: seq<Entry>, e: seq<Entry>)
    requires EntryTexts(d) == EntryTexts(e)
    requires (forall x :: x in d ==> IsEntry(x)) && (forall x :: x in e ==> IsEntry(x))
    ensures d == e
  {
    assert |d| == |EntryTexts(d)| == |EntryTexts(e)| == |e|;
    forall i | 0 <= i < |d|
      ensures d[i] == e[i]
    {
      assert d[i] in d && e[i] in e;
      assert EntryText(d[i]) == EntryTexts(d)[i] == EntryTexts(e)[i] == EntryText(e[i]);
      EntryReads(d[i], e[i], [], []);
    }
  }

  /** Objects with one text hold the same entries. */
  lemma {:induction false} ObjectReads(members: seq<Member>, others: seq<Member>)
    requires WellFormed(Obj(members)) && WellFormed(Obj(others))
    requires Canonical(Obj(members)).Some? && Canonical(Obj(members)) == Canonical(Obj(others))
    ensures forall e :: e in Entries(members).value <==> e in Entries(others).value
  {
    var d, e := Entries(members).value, Entries(others).value;
    var x, y := Sort(d, KeyLeq), Sort(e, KeyLeq);
    var text := Canonical(Obj(members)).value;
    EntriesAreElements(members);
    EntriesAreElements(others);
    BracketedReads(text, text, EntryTexts(x), EntryTexts(y), true, [], []);
    EntriesAreTexts(members);
    EntriesAreTexts(others);
    SortMembers(d, KeyLeq);
    SortMembers(e, KeyLeq);
    EntryTextsRead(x, y);
  }

  lemma {:induction false} ArrayReads(items: seq<Value>, others: seq<Value>)
    requires WellFormed(Arr(items)) && WellFormed(Arr(others))
    requires Canonical(Arr(items)).Some? && Canonical(Arr(items)) == Canonical(Arr(others))
    ensures |items| == |others|
    ensures forall i :: 0 <= i < |items| ==> Canonical(items[i]).Some? && Canonical(items[i]) == Canonical(others[i])
  {
    var text := Canonical(Arr(items)).value;
    ItemsAreElements(items);
    ItemsAreElements(others);
    BracketedReads(text, text, ItemTexts(items).value, ItemTexts(others).value, false, [], []);
    ItemsPrint(items);
    ItemsPrint(others);
  }

  /** The member of one object under the key of a member of the other. */
  lemma {:induction false} MemberReads(members: seq<Member>, others: seq<Member>, i: nat)
    requires i < |members| && DistinctBy(members, KeyOf) && DistinctBy(others, KeyOf)
    requires Entries(members).Some? && Entries(others).Some?
    requires forall e :: e in Entries(members).value <==> e in Entries(others).value
    ensures var other := Lookup(others, members[i].key);
            if members[i].value.Undefined? then other.Undefined?
            else Canonical(members[i].value).Some? && Canonical(members[i].value) == Canonical(other)
  {
    var key := members[i].key;
    if members[i].value.Undefined? {
      if !Lookup(others, key).Undefined? {
        var j := LookupFrom(others, key);
        EntryOf(others, j);
        var k := EntryFrom(members, Entry(key, Canonical(others[j].value).value));
        LookupAt(members, i);
        LookupAt(members, k);
      }
    } else {
      EntryOf(members, i);
      var j := EntryFrom(others, Entry(key, Canonical(members[i].value).value));
      LookupAt(others, j);
    }
  }

  lemma {:induction false} TextTellsValue(v: Value, w: Value)
    requires WellFormed(v) && WellFormed(w) && Canonical(v).Some? && Canonical(v) == Canonical(w)
    ensures Same(v, w)
    decreases v
  {
    FirstUnit(v);
    FirstUnit(w);
    match v {
      case Str(s) => QuotedReads(s, w.s, [], []);
      case Arr(items) =>
        ArrayReads(items, w.items);
        forall i | 0 <= i < |items|
          ensures Same(items[i], w.items[i])
        {
          TextTellsValue(items[i], w.items[i]);
        }
      case Obj(members) => ObjectTellsValue(members, w.members, v);
      case _ =>
    }
  }

  lemma {:induction false} ObjectTellsValue(members: seq<Member>, others: seq<Member>, v: Value)
    requires v == Obj(members) && WellFormed(v) && WellFormed(Obj(others))
    requires Canonical(v).Some? && Canonical(v) == Canonical(Obj(others))
    ensures Same(v, Obj(others))
    decreases v, 0
  {
    ObjectReads(members, others);
    forall i | 0 <= i < |members|
      ensures Same(members[i].value, Lookup(others, members[i].key))
    {
      MemberReads(members, others, i);
      LookupWellFormed(others, members[i].key);
      if !members[i].value.Undefined? {
        TextTellsValue(members[i].value, Lookup(others, members[i].key));
      }
    }
    forall j | 0 <= j < |others|
      ensures others[j].value.Undefined? || !Lookup(members, others[j].key).Undefined?
    {
      MemberReads(others, members, j);
    }
  }

  /**
   * Two values get one canonical text exactly when they are equal up to the order of object keys and
   * members without a value.
   */
  lemma {:induction false} CanonicalMeansSame(v: Value, w: Value)
    requires WellFormed(v) && WellFormed(w) && Printable(v)
    ensures Canonical(v) == Canonical(w) <==> Same(v, w)
  {
    PrintsWhenPrintable(v);
    if Canonical(v) == Canonical(w) {
      TextTellsValue(v, w);
    }
    if Same(v, w) {
      SamePrintsAlike(v, w);
    }
  }

  /** No canonical text is the beginning of another, unless both are numbers. */
  lemma {:induction false} TextsDoNotExtend(v: Value, w: Value, more: Text)
    requires WellFormed(v) && WellFormed(w) && Canonical(v).Some? && Canonical(w).Some? && Delimited(more)
    requires Canonical(w).value == Canonical(v).value + more
    ensures more == [] && Same(v, w)
  {
    var a, b := Canonical(v).value, Canonical(w).value;
    assert IsText(a) && IsText(b);
    assert a + more == b + [];
    TextReads(a, b, more, []);
    TextTellsValue(v, w);
  }
}
