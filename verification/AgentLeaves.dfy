/** Usage totals and the leaves of one period's agent tree, before any bound on their number. */
module AgentLeaves {
  import opened Prelude

  datatype LimitError = UsageSummaryLimit

  datatype Fact = Fact(
    agent: string, channel: string, model: string,
    input: nat, output: nat, cacheRead: nat,
    cacheWrite5m: nat, cacheWrite1h: nat, cacheWriteInferred: nat,
    reasoning: nat, requests: nat)

  datatype Totals = Totals(
    total: nat, input: nat, output: nat, cacheRead: nat, cacheWrite: nat, reasoning: nat, messages: nat)
  {
    function Plus(t: Totals): Totals {
      Totals(total + t.total, input + t.input, output + t.output, cacheRead + t.cacheRead,
             cacheWrite + t.cacheWrite, reasoning + t.reasoning, messages + t.messages)
    }

    predicate CountersFit() {
      && input <= MAXIMUM_SAFE_INTEGER && output <= MAXIMUM_SAFE_INTEGER
      && cacheRead <= MAXIMUM_SAFE_INTEGER && cacheWrite <= MAXIMUM_SAFE_INTEGER
      && reasoning <= MAXIMUM_SAFE_INTEGER && messages <= MAXIMUM_SAFE_INTEGER
    }

    /** Every number of the answer is a safe integer. */
    predicate Fits() { CountersFit() && total <= MAXIMUM_SAFE_INTEGER }

    predicate Within(t: Totals) {
      && total <= t.total && input <= t.input && output <= t.output && cacheRead <= t.cacheRead
      && cacheWrite <= t.cacheWrite && reasoning <= t.reasoning && messages <= t.messages
    }
  }

  const ZERO := Totals(0, 0, 0, 0, 0, 0, 0)

  function Weight(f: Fact): Totals {
    Totals(f.input + f.output, f.input, f.output, f.cacheRead,
           f.cacheWrite5m + f.cacheWrite1h + f.cacheWriteInferred, f.reasoning, f.requests)
  }

  function WeightAt(facts: seq<Fact>, index: nat): Totals {
    if index < |facts| then Weight(facts[index]) else ZERO
  }

  function SumOf<T>(s: seq<T>, weigh: T -> Totals): Totals {
    if s == [] then ZERO else SumOf(s[..|s| - 1], weigh).Plus(weigh(s[|s| - 1]))
  }

  function WeightIn(facts: seq<Fact>): nat -> Totals { (index: nat) => WeightAt(facts, index) }

  /** The exact totals of the rows `indexes` names, a row counted as often as it is named. */
  function TotalsOf(facts: seq<Fact>, indexes: seq<nat>): Totals { SumOf(indexes, WeightIn(facts)) }

  predicate InRange(facts: seq<Fact>, indexes: seq<nat>) {
    forall i :: i in indexes ==> i < |facts|
  }

  lemma {:induction false} ZeroPlus(t: Totals)
    ensures ZERO.Plus(t) == t && t.Plus(ZERO) == t
  {
  }

  lemma {:induction false} PlusAssociates(a: Totals, b: Totals, c: Totals)
    ensures a.Plus(b).Plus(c) == a.Plus(b.Plus(c))
  {
  }

  lemma {:induction false} PlusCommutes(a: Totals, b: Totals)
    ensures a.Plus(b) == b.Plus(a)
  {
  }

  lemma {:induction false} SumOne<T>(x: T, weigh: T -> Totals)
    ensures SumOf([x], weigh) == weigh(x)
  {
    var none: seq<T> := [];
    assert [x][..0] == none;
    assert SumOf(none, weigh) == ZERO;
    ZeroPlus(weigh(x));
  }

  lemma {:induction false} SumAppend<T>(a: seq<T>, b: seq<T>, weigh: T -> Totals)
    ensures SumOf(a + b, weigh) == SumOf(a, weigh).Plus(SumOf(b, weigh))
  {
    if b == [] {
      assert a + b == a;
      ZeroPlus(SumOf(a, weigh));
    } else {
      SumAppend(a, b[..|b| - 1], weigh);
      assert (a + b)[..|a + b| - 1] == a + b[..|b| - 1];
      PlusAssociates(SumOf(a, weigh), SumOf(b[..|b| - 1], weigh), weigh(b[|b| - 1]));
    }
  }

  lemma {:induction false} SumWithout<T>(b: seq<T>, i: nat, weigh: T -> Totals)
    requires i < |b|
    ensures SumOf(b, weigh) == SumOf(b[..i] + b[i + 1..], weigh).Plus(weigh(b[i]))
  {
    var front, back, x := SumOf(b[..i], weigh), SumOf(b[i + 1..], weigh), weigh(b[i]);
    assert b == (b[..i] + [b[i]]) + b[i + 1..];
    SumAppend(b[..i], b[i + 1..], weigh);
    SumAppend(b[..i] + [b[i]], b[i + 1..], weigh);
    SumAppend(b[..i], [b[i]], weigh);
    SumOne(b[i], weigh);
    PlusAssociates(front, x, back);
    PlusCommutes(x, back);
    PlusAssociates(front, back, x);
  }

  lemma {:induction false} BagWithout<T>(b: seq<T>, i: nat)
    requires i < |b|
    ensures multiset(b[..i] + b[i + 1..]) == multiset(b) - multiset{b[i]}
  {
    assert b == b[..i] + [b[i]] + b[i + 1..];
  }

  /** Totals do not depend on the order of what is added. */
  lemma {:induction false} SumOfPermutation<T>(a: seq<T>, b: seq<T>, weigh: T -> Totals)
    requires multiset(a) == multiset(b)
    ensures SumOf(a, weigh) == SumOf(b, weigh)
  {
    if a == [] {
      assert |multiset(b)| == 0;
    } else {
      var front, x := a[..|a| - 1], a[|a| - 1];
      assert a[..|a| - 1] + a[|a| - 1 + 1..] == front;
      BagWithout(a, |a| - 1);
      assert x in multiset(b);
      var i :| 0 <= i < |b| && b[i] == x;
      BagWithout(b, i);
      SumOfPermutation(front, b[..i] + b[i + 1..], weigh);
      SumWithout(b, i, weigh);
    }
  }

  lemma {:induction false} TotalsOne(facts: seq<Fact>, index: nat)
    ensures TotalsOf(facts, [index]) == WeightAt(facts, index)
  {
    SumOne(index, WeightIn(facts));
  }

  lemma {:induction false} TotalsAppend(facts: seq<Fact>, a: seq<nat>, b: seq<nat>)
    ensures TotalsOf(facts, a + b) == TotalsOf(facts, a).Plus(TotalsOf(facts, b))
  {
    SumAppend(a, b, WeightIn(facts));
  }

  /** What a leaf ranks by and what it reports are one number: its input and output tokens together. */
  lemma {:induction false} TotalIsInputAndOutput(facts: seq<Fact>, indexes: seq<nat>)
    ensures TotalsOf(facts, indexes).total == TotalsOf(facts, indexes).input + TotalsOf(facts, indexes).output
  {
    if indexes != [] {
      TotalIsInputAndOutput(facts, indexes[..|indexes| - 1]);
    }
  }

  lemma {:induction false} PrefixWithin(facts: seq<Fact>, indexes: seq<nat>, n: nat)
    requires n <= |indexes|
    ensures TotalsOf(facts, indexes[..n]).Within(TotalsOf(facts, indexes))
  {
    TotalsAppend(facts, indexes[..n], indexes[n..]);
    assert indexes[..n] + indexes[n..] == indexes;
  }

  lemma {:induction false} TotalsStep(facts: seq<Fact>, indexes: seq<nat>, n: nat)
    requires n < |indexes|
    ensures TotalsOf(facts, indexes[..n + 1]) == TotalsOf(facts, indexes[..n]).Plus(WeightAt(facts, indexes[n]))
    ensures InRange(facts, indexes[..n + 1]) <==> InRange(facts, indexes[..n]) && indexes[n] < |facts|
  {
    assert indexes[..n + 1][..n] == indexes[..n];
    var before := indexes[..n];
    var after := indexes[..n + 1];
    assert after == before + [indexes[n]];
    assert after[n] in after;
    forall i | i in before
      ensures i in after
    {
    }
  }

  // ----- the totals, field by field

  /** One field added up over the rows `indexes` names. */
  function Tally(facts: seq<Fact>, indexes: seq<nat>, field: Fact -> nat): nat {
    if indexes == [] then 0
    else
      var last := indexes[|indexes| - 1];
      Tally(facts, indexes[..|indexes| - 1], field) + if last < |facts| then field(facts[last]) else 0
  }

  function FieldTallies(facts: seq<Fact>, indexes: seq<nat>): Totals {
    var input := Tally(facts, indexes, (f: Fact) => f.input);
    var output := Tally(facts, indexes, (f: Fact) => f.output);
    var written5m := Tally(facts, indexes, (f: Fact) => f.cacheWrite5m);
    var written1h := Tally(facts, indexes, (f: Fact) => f.cacheWrite1h);
    var writtenInferred := Tally(facts, indexes, (f: Fact) => f.cacheWriteInferred);
    Totals(
      input + output, input, output,
      Tally(facts, indexes, (f: Fact) => f.cacheRead),
      written5m + written1h + writtenInferred,
      Tally(facts, indexes, (f: Fact) => f.reasoning),
      Tally(facts, indexes, (f: Fact) => f.requests))
  }

  /** Every number of the totals is the tally of its own fields, whatever rows are named. */
  lemma {:induction false} FieldsAreTallied(facts: seq<Fact>, indexes: seq<nat>)
    ensures TotalsOf(facts, indexes) == FieldTallies(facts, indexes)
  {
    if indexes != [] {
      FieldsAreTallied(facts, indexes[..|indexes| - 1]);
    }
  }

  predicate AllSafe(t: Totals) {
    && t.total <= 9_007_199_254_740_991 && t.input <= 9_007_199_254_740_991
    && t.output <= 9_007_199_254_740_991 && t.cacheRead <= 9_007_199_254_740_991
    && t.cacheWrite <= 9_007_199_254_740_991 && t.reasoning <= 9_007_199_254_740_991
    && t.messages <= 9_007_199_254_740_991
  }

  /**
   * Sums safely: an answer exactly when every number of it is a safe integer, and then each is
   * the tally of its own fields.
   */
  method SummaryTotals(facts: seq<Fact>, indexes: seq<nat>) returns (r: Result<Totals, LimitError>)
    ensures r == if InRange(facts, indexes) && AllSafe(FieldTallies(facts, indexes))
                 then Ok(FieldTallies(facts, indexes)) else Err(UsageSummaryLimit)
    ensures r == if InRange(facts, indexes) && TotalsOf(facts, indexes).Fits()
                 then Ok(TotalsOf(facts, indexes)) else Err(UsageSummaryLimit)
  {
    FieldsAreTallied(facts, indexes);
    var sum := ZERO;
    var n := 0;
    while n < |indexes|
      invariant 0 <= n <= |indexes|
      invariant InRange(facts, indexes[..n])
      invariant sum == TotalsOf(facts, indexes[..n]) && sum.CountersFit()
    {
      if indexes[n] >= |facts| {
        assert indexes[n] in indexes;
        return Err(UsageSummaryLimit);
      }
      TotalsStep(facts, indexes, n);
      PrefixWithin(facts, indexes, n + 1);
      sum := sum.Plus(Weight(facts[indexes[n]]));
      if !sum.CountersFit() {
        return Err(UsageSummaryLimit);
      }
      n := n + 1;
    }
    assert indexes[..n] == indexes;
    r := if sum.total <= MAXIMUM_SAFE_INTEGER then Ok(sum) else Err(UsageSummaryLimit);
  }

  // ----- leaves

  datatype Branch = Branch(agent: string, provider: string)

  datatype LeafName = LeafName(branch: Branch, model: string)

  datatype Leaf = Leaf(name: LeafName, indexes: seq<nat>, tokens: nat)

  /** The model catalog, as the two questions the tree asks it. */
  datatype ModelCatalog = ModelCatalog(provider: Fact -> string, model: Fact -> Option<string>)

  function NameOf(catalog: ModelCatalog, f: Fact): LeafName {
    var resolved := catalog.model(f);
    LeafName(Branch(f.agent, catalog.provider(f)), if resolved.Some? then resolved.value else f.model)
  }

  function NameAt(facts: seq<Fact>, catalog: ModelCatalog, index: nat): LeafName {
    if index < |facts| then NameOf(catalog, facts[index]) else LeafName(Branch("", ""), "")
  }

  function LeafIndex(leaves: seq<Leaf>, name: LeafName): (i: nat)
    ensures i <= |leaves|
    ensures i < |leaves| ==> leaves[i].name == name
    ensures i == |leaves| ==> forall l :: l in leaves ==> l.name != name
  {
    if leaves == [] then 0
    else if leaves[0].name == name then 0
    else 1 + LeafIndex(leaves[1..], name)
  }

  function Joined(l: Leaf, indexes: seq<nat>, tokens: nat): Leaf {
    Leaf(l.name, l.indexes + indexes, l.tokens + tokens)
  }

  /** Rows added to the leaf of that name, which is made at the end when it is not there yet. */
  function Grown(leaves: seq<Leaf>, name: LeafName, indexes: seq<nat>, tokens: nat): seq<Leaf> {
    var i := LeafIndex(leaves, name);
    if i < |leaves| then leaves[i := Joined(leaves[i], indexes, tokens)] else leaves + [Leaf(name, indexes, tokens)]
  }

  function Collected(facts: seq<Fact>, catalog: ModelCatalog, indexes: seq<nat>): seq<Leaf> {
    if indexes == [] then []
    else
      var last := indexes[|indexes| - 1];
      Grown(Collected(facts, catalog, indexes[..|indexes| - 1]), NameAt(facts, catalog, last), [last],
            WeightAt(facts, last).total)
  }

  predicate TokensFit(leaves: seq<Leaf>) {
    forall l :: l in leaves ==> l.tokens <= MAXIMUM_SAFE_INTEGER
  }

  /** A leaf past the limit stays past it. */
  lemma {:induction false} GrownUnfit(leaves: seq<Leaf>, name: LeafName, indexes: seq<nat>, tokens: nat)
    requires !TokensFit(leaves)
    ensures !TokensFit(Grown(leaves, name, indexes, tokens))
  {
    var l :| l in leaves && l.tokens > MAXIMUM_SAFE_INTEGER;
    var j :| 0 <= j < |leaves| && leaves[j] == l;
    var grown := Grown(leaves, name, indexes, tokens);
    assert grown[j] in grown && grown[j].tokens > MAXIMUM_SAFE_INTEGER;
  }

  lemma {:induction false} CollectedUnfit(facts: seq<Fact>, catalog: ModelCatalog, indexes: seq<nat>, n: nat)
    requires n <= |indexes| && !TokensFit(Collected(facts, catalog, indexes[..n]))
    ensures !TokensFit(Collected(facts, catalog, indexes))
  {
    if n == |indexes| {
      assert indexes[..n] == indexes;
    } else {
      var front, last := indexes[..|indexes| - 1], indexes[|indexes| - 1];
      assert front[..n] == indexes[..n];
      CollectedUnfit(facts, catalog, front, n);
      GrownUnfit(Collected(facts, catalog, front), NameAt(facts, catalog, last), [last], WeightAt(facts, last).total);
    }
  }

  lemma {:induction false} CollectedStep(facts: seq<Fact>, catalog: ModelCatalog, indexes: seq<nat>, n: nat)
    requires n < |indexes|
    ensures Collected(facts, catalog, indexes[..n + 1]) ==
            Grown(Collected(facts, catalog, indexes[..n]), NameAt(facts, catalog, indexes[n]), [indexes[n]],
                  WeightAt(facts, indexes[n]).total)
  {
    assert indexes[..n + 1][..n] == indexes[..n];
  }

  lemma {:induction false} GrownFits(leaves: seq<Leaf>, name: LeafName, indexes: seq<nat>, tokens: nat)
    requires TokensFit(leaves)
    ensures TokensFit(Grown(leaves, name, indexes, tokens)) <==>
            (if LeafIndex(leaves, name) < |leaves| then leaves[LeafIndex(leaves, name)].tokens else 0) + tokens
            <= MAXIMUM_SAFE_INTEGER
  {
    var i := LeafIndex(leaves, name);
    var grown := Grown(leaves, name, indexes, tokens);
    assert grown[i] in grown;
    forall l | l in grown
      ensures l == grown[i] || l in leaves
    {
      var j :| 0 <= j < |grown| && grown[j] == l;
    }
  }

  /** One row filed under its name, or the limit error when its leaf would pass the limit. */
  method FileRow(leaves: seq<Leaf>, name: LeafName, index: nat, fact: Fact) returns (r: Result<seq<Leaf>, LimitError>)
    requires TokensFit(leaves)
    ensures var grown := Grown(leaves, name, [index], Weight(fact).total);
            r == if TokensFit(grown) then Ok(grown) else Err(UsageSummaryLimit)
  {
    var at := LeafIndex(leaves, name);
    GrownFits(leaves, name, [index], fact.input + fact.output);
    var before := if at < |leaves| then leaves[at].tokens else 0;
    if fact.input + fact.output > MAXIMUM_SAFE_INTEGER || before + (fact.input + fact.output) > MAXIMUM_SAFE_INTEGER {
      return Err(UsageSummaryLimit);
    }
    if at < |leaves| {
      r := Ok(leaves[at := Joined(leaves[at], [index], fact.input + fact.output)]);
    } else {
      r := Ok(leaves + [Leaf(name, [index], fact.input + fact.output)]);
    }
  }

  /** One leaf per resolved name, in order of first appearance, or the limit error. */
  method CollectLeaves(facts: seq<Fact>, catalog: ModelCatalog, indexes: seq<nat>)
    returns (r: Result<seq<Leaf>, LimitError>)
    ensures r == if InRange(facts, indexes) && TokensFit(Collected(facts, catalog, indexes))
                 then Ok(Collected(facts, catalog, indexes)) else Err(UsageSummaryLimit)
  {
    var leaves: seq<Leaf> := [];
    var n := 0;
    while n < |indexes|
      invariant 0 <= n <= |indexes|
      invariant InRange(facts, indexes[..n]) && TokensFit(leaves)
      invariant leaves == Collected(facts, catalog, indexes[..n])
    {
      var index := indexes[n];
      if index >= |facts| {
        assert index in indexes;
        return Err(UsageSummaryLimit);
      }
      var filed := FileRow(leaves, NameOf(catalog, facts[index]), index, facts[index]);
      CollectedStep(facts, catalog, indexes, n);
      TotalsStep(facts, indexes, n);
      if filed.Err? {
        CollectedUnfit(facts, catalog, indexes, n + 1);
        return Err(UsageSummaryLimit);
      }
      leaves := filed.value;
      n := n + 1;
    }
    assert indexes[..n] == indexes;
    r := Ok(leaves);
  }

  // ----- what the leaves hold

  /** The rows of the leaves under the chosen branches, leaf after leaf. */
  function Held(leaves: seq<Leaf>, chosen: Branch -> bool): seq<nat> {
    if leaves == [] then [] else Rows(leaves[0], chosen) + Held(leaves[1..], chosen)
  }

  function Rows(l: Leaf, chosen: Branch -> bool): seq<nat> {
    if chosen(l.name.branch) then l.indexes else []
  }

  lemma {:induction false} Concatenates<T>(a: seq<T>, b: seq<T>, c: seq<T>)
    ensures (a + b) + c == a + (b + c)
  {
  }

  lemma {:induction false} HeldFirst(a: seq<Leaf>, b: seq<Leaf>, chosen: Branch -> bool)
    requires a != []
    ensures Held(a + b, chosen) == Rows(a[0], chosen) + Held(a[1..] + b, chosen)
  {
    assert (a + b)[1..] == a[1..] + b;
  }

  lemma {:induction false} HeldAppend(a: seq<Leaf>, b: seq<Leaf>, chosen: Branch -> bool)
    ensures Held(a + b, chosen) == Held(a, chosen) + Held(b, chosen)
  {
    if a == [] {
      assert a + b == b;
    } else {
      var first, middle, last := Rows(a[0], chosen), Held(a[1..], chosen), Held(b, chosen);
      HeldAppend(a[1..], b, chosen);
      HeldFirst(a, b, chosen);
      assert Held(a + b, chosen) == first + (middle + last);
      Concatenates(first, middle, last);
    }
  }

  lemma {:induction false} HeldOne(l: Leaf, chosen: Branch -> bool)
    ensures Held([l], chosen) == Rows(l, chosen)
  {
    assert [l][1..] == [];
  }

  lemma {:induction false} HeldSplit(leaves: seq<Leaf>, i: nat, chosen: Branch -> bool)
    requires i < |leaves|
    ensures Held(leaves, chosen) ==
            Held(leaves[..i], chosen) + Held([leaves[i]], chosen) + Held(leaves[i + 1..], chosen)
  {
    HeldAppend(leaves[..i], [leaves[i]], chosen);
    HeldAppend(leaves[..i] + [leaves[i]], leaves[i + 1..], chosen);
    assert leaves == leaves[..i] + [leaves[i]] + leaves[i + 1..];
  }

  lemma {:induction false} HeldGrown(
    leaves: seq<Leaf>, name: LeafName, indexes: seq<nat>, tokens: nat, chosen: Branch -> bool)
    ensures multiset(Held(Grown(leaves, name, indexes, tokens), chosen)) ==
            multiset(Held(leaves, chosen)) + multiset(if chosen(name.branch) then indexes else [])
  {
    var i := LeafIndex(leaves, name);
    var grown := Grown(leaves, name, indexes, tokens);
    HeldOne(grown[i], chosen);
    if i < |leaves| {
      HeldOne(leaves[i], chosen);
      HeldSplit(leaves, i, chosen);
      HeldSplit(grown, i, chosen);
      assert grown[..i] == leaves[..i] && grown[i + 1..] == leaves[i + 1..];
    } else {
      HeldAppend(leaves, [grown[i]], chosen);
    }
  }

  function InBranch(facts: seq<Fact>, catalog: ModelCatalog, chosen: Branch -> bool): nat -> bool {
    (index: nat) => chosen(NameAt(facts, catalog, index).branch)
  }

  /**
   * The leaves under any choice of branches hold exactly that choice's rows of the period, each
   * as often as the period names it.
   */
  lemma {:induction false} LeavesHoldPeriod(
    facts: seq<Fact>, catalog: ModelCatalog, indexes: seq<nat>, chosen: Branch -> bool)
    ensures multiset(Held(Collected(facts, catalog, indexes), chosen)) ==
            multiset(Filter(indexes, InBranch(facts, catalog, chosen)))
  {
    if indexes != [] {
      var front, last := indexes[..|indexes| - 1], indexes[|indexes| - 1];
      LeavesHoldPeriod(facts, catalog, front, chosen);
      HeldGrown(Collected(facts, catalog, front), NameAt(facts, catalog, last), [last], WeightAt(facts, last).total,
                chosen);
    }
  }

  /** A leaf counts the tokens of its rows, and its rows resolve to its name. */
  predicate LeafCounts(facts: seq<Fact>, l: Leaf) {
    l.tokens == TotalsOf(facts, l.indexes).total
  }

  ghost predicate LeavesCount(facts: seq<Fact>, leaves: seq<Leaf>) {
    forall l :: l in leaves ==> LeafCounts(facts, l)
  }

  ghost predicate Named(facts: seq<Fact>, catalog: ModelCatalog, leaves: seq<Leaf>) {
    forall l :: l in leaves ==> AllNamed(facts, catalog, l.indexes, l.name)
  }

  ghost predicate AllNamed(facts: seq<Fact>, catalog: ModelCatalog, indexes: seq<nat>, name: LeafName) {
    forall i :: i in indexes ==> NameAt(facts, catalog, i) == name
  }

  ghost predicate DistinctNames(leaves: seq<Leaf>) {
    forall i, j :: 0 <= i < j < |leaves| ==> leaves[i].name != leaves[j].name
  }

  lemma {:induction false} TotalAdds(facts: seq<Fact>, a: seq<nat>, b: seq<nat>)
    ensures TotalsOf(facts, a + b).total == TotalsOf(facts, a).total + TotalsOf(facts, b).total
  {
    TotalsAppend(facts, a, b);
  }

  lemma {:induction false} JoinedCounts(facts: seq<Fact>, l: Leaf, indexes: seq<nat>, tokens: nat)
    requires LeafCounts(facts, l) && tokens == TotalsOf(facts, indexes).total
    ensures LeafCounts(facts, Joined(l, indexes, tokens))
  {
    TotalAdds(facts, l.indexes, indexes);
  }

  lemma {:induction false} GrownCounts(
    facts: seq<Fact>, leaves: seq<Leaf>, name: LeafName, indexes: seq<nat>, tokens: nat)
    requires LeavesCount(facts, leaves) && tokens == TotalsOf(facts, indexes).total
    ensures LeavesCount(facts, Grown(leaves, name, indexes, tokens))
  {
    var i := LeafIndex(leaves, name);
    var grown := Grown(leaves, name, indexes, tokens);
    forall l | l in grown
      ensures LeafCounts(facts, l)
    {
      var j :| 0 <= j < |grown| && grown[j] == l;
      if j == i && i < |leaves| {
        assert leaves[i] in leaves;
        JoinedCounts(facts, leaves[i], indexes, tokens);
      } else if j < |leaves| {
        assert leaves[j] in leaves;
      }
    }
  }

  lemma {:induction false} GrownDistinct(leaves: seq<Leaf>, name: LeafName, indexes: seq<nat>, tokens: nat)
    requires DistinctNames(leaves)
    ensures DistinctNames(Grown(leaves, name, indexes, tokens))
  {
  }

  lemma {:induction false} GrownNamed(
    facts: seq<Fact>, catalog: ModelCatalog, leaves: seq<Leaf>, name: LeafName, index: nat, tokens: nat)
    requires Named(facts, catalog, leaves) && NameAt(facts, catalog, index) == name
    ensures Named(facts, catalog, Grown(leaves, name, [index], tokens))
  {
    var i := LeafIndex(leaves, name);
    var grown := Grown(leaves, name, [index], tokens);
    forall l | l in grown
      ensures AllNamed(facts, catalog, l.indexes, l.name)
    {
      var j :| 0 <= j < |grown| && grown[j] == l;
      if j < |leaves| {
        assert leaves[j] in leaves && AllNamed(facts, catalog, leaves[j].indexes, leaves[j].name);
      }
    }
  }

  /** One leaf per name; each holds rows of that name only and counts exactly their tokens. */
  lemma {:induction false} LeavesAreNamed(facts: seq<Fact>, catalog: ModelCatalog, indexes: seq<nat>)
    ensures DistinctNames(Collected(facts, catalog, indexes))
    ensures Named(facts, catalog, Collected(facts, catalog, indexes))
    ensures LeavesCount(facts, Collected(facts, catalog, indexes))
  {
    if indexes != [] {
      var front, last := indexes[..|indexes| - 1], indexes[|indexes| - 1];
      var leaves, name, tokens := Collected(facts, catalog, front), NameAt(facts, catalog, last), WeightAt(facts,
          last).total;
      LeavesAreNamed(facts, catalog, front);
      TotalsOne(facts, last);
      GrownDistinct(leaves, name, [last], tokens);
      GrownNamed(facts, catalog, leaves, name, last, tokens);
      GrownCounts(facts, leaves, name, [last], tokens);
    }
  }

  /** What a leaf is called is what each of its rows says and the catalog resolves. */
  lemma {:induction false} LeavesAreResolved(
    facts: seq<Fact>, catalog: ModelCatalog, indexes: seq<nat>, l: Leaf, i: nat)
    requires l in Collected(facts, catalog, indexes) && i in l.indexes && i < |facts|
    ensures l.name.branch.agent == facts[i].agent
    ensures l.name.branch.provider == catalog.provider(facts[i])
    ensures l.name.model == match catalog.model(facts[i])
                            case Some(resolved) => resolved
                            case None => facts[i].model
  {
    LeavesAreNamed(facts, catalog, indexes);
    assert AllNamed(facts, catalog, l.indexes, l.name);
  }

  /** The tokens a leaf ranks by are its rows' input and output tokens. */
  lemma {:induction false} LeavesRankByTokens(facts: seq<Fact>, catalog: ModelCatalog, indexes: seq<nat>, l: Leaf)
    requires l in Collected(facts, catalog, indexes)
    ensures l.tokens == Tally(facts, l.indexes, (f: Fact) => f.input) + Tally(facts, l.indexes, (f: Fact) => f.output)
  {
    LeavesAreNamed(facts, catalog, indexes);
    assert LeafCounts(facts, l);
    FieldsAreTallied(facts, l.indexes);
  }

  function AnyBranch(): Branch -> bool { b => true }

  lemma {:induction false} LeafWithinHeld(facts: seq<Fact>, leaves: seq<Leaf>, i: nat)
    requires i < |leaves|
    ensures TotalsOf(facts, leaves[i].indexes).Within(TotalsOf(facts, Held(leaves, AnyBranch())))
  {
    var all := AnyBranch();
    HeldSplit(leaves, i, all);
    HeldOne(leaves[i], all);
    TotalsAppend(facts, Held(leaves[..i], all), leaves[i].indexes);
    TotalsAppend(facts, Held(leaves[..i], all) + leaves[i].indexes, Held(leaves[i + 1..], all));
  }

  /** When the period's own totals are safe integers, so are every leaf's. */
  lemma {:induction false} LeafTotalsFit(facts: seq<Fact>, indexes: seq<nat>, leaves: seq<Leaf>)
    requires TotalsOf(facts, indexes).Fits()
    requires multiset(Held(leaves, AnyBranch())) == multiset(indexes)
    requires LeavesCount(facts, leaves)
    ensures TokensFit(leaves)
    ensures forall l :: l in leaves ==> TotalsOf(facts, l.indexes).Fits()
  {
    SumOfPermutation(Held(leaves, AnyBranch()), indexes, WeightIn(facts));
    forall l | l in leaves
      ensures TotalsOf(facts, l.indexes).Fits() && l.tokens <= MAXIMUM_SAFE_INTEGER
    {
      var i :| 0 <= i < |leaves| && leaves[i] == l;
      LeafWithinHeld(facts, leaves, i);
      assert LeafCounts(facts, l);
    }
  }

  lemma {:induction false} AllRowsHeld(facts: seq<Fact>, catalog: ModelCatalog, indexes: seq<nat>)
    ensures multiset(Held(Collected(facts, catalog, indexes), AnyBranch())) == multiset(indexes)
  {
    LeavesHoldPeriod(facts, catalog, indexes, AnyBranch());
    FilterAll(indexes, InBranch(facts, catalog, AnyBranch()));
  }
}
