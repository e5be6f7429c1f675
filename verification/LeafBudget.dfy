/** The bound on one period's leaves: the largest are kept and each branch's rest becomes one `other` leaf. */
module LeafBudget {
  import opened Prelude
  import opened Sorting
  import opened AgentLeaves

  const MAXIMUM_USAGE_PERIOD_LEAVES: nat := 200

  const USAGE_OTHER_MODEL := "other"

  // ----- rank

  predicate NameLeq(a: LeafName, b: LeafName) {
    if a.branch.agent != b.branch.agent then TextLeq(a.branch.agent, b.branch.agent)
    else if a.branch.provider != b.branch.provider then TextLeq(a.branch.provider, b.branch.provider)
    else TextLeq(a.model, b.model)
  }

  /** More tokens first, then by agent, provider and model. */
  predicate RankLeq(a: Leaf, b: Leaf) {
    a.tokens > b.tokens || (a.tokens == b.tokens && NameLeq(a.name, b.name))
  }

  lemma {:induction false} NameOrder(a: LeafName, b: LeafName, c: LeafName)
    ensures NameLeq(a, b) || NameLeq(b, a)
    ensures NameLeq(a, b) && NameLeq(b, c) ==> NameLeq(a, c)
  {
    TextOrder();
  }

  lemma {:induction false} RankOrders()
    ensures Ordering(RankLeq)
  {
    forall a, b
      ensures RankLeq(a, b) || RankLeq(b, a)
    {
      NameOrder(a.name, b.name, b.name);
    }
    forall a, b, c | RankLeq(a, b) && RankLeq(b, c)
      ensures RankLeq(a, c)
    {
      NameOrder(a.name, b.name, c.name);
    }
  }

  function Ranked(leaves: seq<Leaf>): seq<Leaf> { Sort(leaves, RankLeq) }

  // ----- branches of a tail

  function BranchesOf(leaves: seq<Leaf>): set<Branch> {
    set l | l in leaves :: l.name.branch
  }

  /** Leaves the split at `c` would give: those before it, and one for each branch after it. */
  function LeavesAt(ranked: seq<Leaf>, c: nat): nat
    requires c <= |ranked|
  {
    c + |BranchesOf(ranked[c..])|
  }

  /** The last position at or before `c` whose split fits the budget, or zero. */
  function SplitFrom(ranked: seq<Leaf>, c: nat): (split: nat)
    requires c <= |ranked|
    ensures split <= c
  {
    if LeavesAt(ranked, c) <= MAXIMUM_USAGE_PERIOD_LEAVES then c
    else if c == 0 then 0
    else SplitFrom(ranked, c - 1)
  }

  function SplitOf(ranked: seq<Leaf>): nat
    requires |ranked| > MAXIMUM_USAGE_PERIOD_LEAVES
  {
    SplitFrom(ranked, MAXIMUM_USAGE_PERIOD_LEAVES)
  }

  // ----- the fold

  function OtherName(branch: Branch): LeafName { LeafName(branch, USAGE_OTHER_MODEL) }

  /** One `other` leaf per branch, in order of first appearance. */
  function Folded(tail: seq<Leaf>): seq<Leaf> {
    if tail == [] then []
    else
      var last := tail[|tail| - 1];
      Grown(Folded(tail[..|tail| - 1]), OtherName(last.name.branch), last.indexes, last.tokens)
  }

  function Bounded(leaves: seq<Leaf>): seq<Leaf> {
    if |leaves| <= MAXIMUM_USAGE_PERIOD_LEAVES then leaves
    else
      SortPermutes(leaves, RankLeq);
      var ranked := Ranked(leaves);
      var split := SplitOf(ranked);
      ranked[..split] + Folded(ranked[split..])
  }

  // ----- the source's loops

  lemma {:induction false} BranchesCons(ranked: seq<Leaf>, index: nat)
    requires index < |ranked|
    ensures BranchesOf(ranked[index..]) == BranchesOf(ranked[index + 1..]) + {ranked[index].name.branch}
  {
    var first, rest := ranked[index], ranked[index + 1..];
    assert ranked[index..] == [first] + rest;
    assert first in [first] + rest;
    assert forall l :: l in [first] + rest <==> l == first || l in rest;
  }

  /** How many `other` leaves the tail from each position would need. */
  method TailBranches(ranked: seq<Leaf>) returns (counts: array<nat>)
    ensures fresh(counts) && counts.Length == |ranked| + 1
    ensures forall c :: 0 <= c <= |ranked| ==> counts[c] == |BranchesOf(ranked[c..])|
  {
    counts := new nat[|ranked| + 1](_ => 0);
    var branches: set<Branch> := {};
    var index := |ranked|;
    while index > 0
      invariant 0 <= index <= |ranked|
      invariant branches == BranchesOf(ranked[index..])
      invariant forall c :: index <= c <= |ranked| ==> counts[c] == |BranchesOf(ranked[c..])|
    {
      index := index - 1;
      BranchesCons(ranked, index);
      branches := branches + {ranked[index].name.branch};
      counts[index] := |branches|;
      assert forall c :: index < c <= |ranked| ==> counts[c] == |BranchesOf(ranked[c..])|;
    }
  }

  method FindSplit(ranked: seq<Leaf>) returns (split: nat)
    requires |ranked| > MAXIMUM_USAGE_PERIOD_LEAVES
    ensures split == SplitOf(ranked)
  {
    var counts := TailBranches(ranked);
    split := 0;
    var candidate: int := MAXIMUM_USAGE_PERIOD_LEAVES;
    while candidate >= 0
      invariant -1 <= candidate <= MAXIMUM_USAGE_PERIOD_LEAVES
      invariant SplitOf(ranked) == if candidate < 0 then 0 else SplitFrom(ranked, candidate)
    {
      if candidate + counts[candidate] <= MAXIMUM_USAGE_PERIOD_LEAVES {
        return candidate;
      }
      candidate := candidate - 1;
    }
  }

  lemma {:induction false} FoldedUnfit(tail: seq<Leaf>, n: nat)
    requires n <= |tail| && !TokensFit(Folded(tail[..n]))
    ensures !TokensFit(Folded(tail))
  {
    if n == |tail| {
      assert tail[..n] == tail;
    } else {
      var front, last := tail[..|tail| - 1], tail[|tail| - 1];
      assert front[..n] == tail[..n];
      FoldedUnfit(front, n);
      GrownUnfit(Folded(front), OtherName(last.name.branch), last.indexes, last.tokens);
    }
  }

  lemma {:induction false} FoldedStep(tail: seq<Leaf>, n: nat)
    requires n < |tail|
    ensures Folded(tail[..n + 1]) ==
            Grown(Folded(tail[..n]), OtherName(tail[n].name.branch), tail[n].indexes, tail[n].tokens)
  {
    assert tail[..n + 1][..n] == tail[..n];
  }

  /** One leaf folded into its branch's `other` leaf, or the limit error. */
  method FoldLeaf(folded: seq<Leaf>, leaf: Leaf) returns (r: Result<seq<Leaf>, LimitError>)
    requires TokensFit(folded) && leaf.tokens <= MAXIMUM_SAFE_INTEGER
    ensures var grown := Grown(folded, OtherName(leaf.name.branch), leaf.indexes, leaf.tokens);
            r == if TokensFit(grown) then Ok(grown) else Err(UsageSummaryLimit)
  {
    var other := OtherName(leaf.name.branch);
    var at := LeafIndex(folded, other);
    GrownFits(folded, other, leaf.indexes, leaf.tokens);
    if at < |folded| {
      if folded[at].tokens + leaf.tokens > MAXIMUM_SAFE_INTEGER {
        return Err(UsageSummaryLimit);
      }
      r := Ok(folded[at := Joined(folded[at], leaf.indexes, leaf.tokens)]);
    } else {
      r := Ok(folded + [Leaf(other, leaf.indexes, leaf.tokens)]);
    }
  }

  method FoldTail(tail: seq<Leaf>) returns (r: Result<seq<Leaf>, LimitError>)
    requires TokensFit(tail)
    ensures r == if TokensFit(Folded(tail)) then Ok(Folded(tail)) else Err(UsageSummaryLimit)
  {
    var folded: seq<Leaf> := [];
    var n := 0;
    while n < |tail|
      invariant 0 <= n <= |tail|
      invariant folded == Folded(tail[..n]) && TokensFit(folded)
    {
      assert tail[n] in tail;
      FoldedStep(tail, n);
      var step := FoldLeaf(folded, tail[n]);
      if step.Err? {
        FoldedUnfit(tail, n + 1);
        return Err(UsageSummaryLimit);
      }
      folded := step.value;
      n := n + 1;
    }
    assert tail[..n] == tail;
    r := Ok(folded);
  }

  method BoundLeaves(leaves: seq<Leaf>) returns (r: Result<seq<Leaf>, LimitError>)
    requires TokensFit(leaves)
    ensures r == if TokensFit(Bounded(leaves)) then Ok(Bounded(leaves)) else Err(UsageSummaryLimit)
  {
    if |leaves| <= MAXIMUM_USAGE_PERIOD_LEAVES {
      return Ok(leaves);
    }
    var ranked := Ranked(leaves);
    SortPermutes(leaves, RankLeq);
    SortMembers(leaves, RankLeq);
    var split := FindSplit(ranked);
    var folded := FoldTail(ranked[split..]);
    BoundedFits(leaves);
    if folded.Err? {
      return Err(UsageSummaryLimit);
    }
    r := Ok(ranked[..split] + folded.value);
  }

  lemma {:induction false} BoundedFits(leaves: seq<Leaf>)
    requires TokensFit(leaves) && |leaves| > MAXIMUM_USAGE_PERIOD_LEAVES
    ensures |Ranked(leaves)| == |leaves|
    ensures TokensFit(Bounded(leaves)) <==> TokensFit(Folded(Ranked(leaves)[SplitOf(Ranked(leaves))..]))
  {
    SortPermutes(leaves, RankLeq);
    SortMembers(leaves, RankLeq);
    var ranked := Ranked(leaves);
    var split := SplitOf(ranked);
    var folded := Folded(ranked[split..]);
    assert Bounded(leaves) == ranked[..split] + folded;
    forall l | l in ranked[..split]
      ensures l.tokens <= MAXIMUM_SAFE_INTEGER
    {
      assert l in ranked;
    }
    if !TokensFit(folded) {
      var l :| l in folded && l.tokens > MAXIMUM_SAFE_INTEGER;
      assert l in Bounded(leaves);
    }
  }

  // ----- how many leaves come out

  lemma {:induction false} BranchesSnoc(leaves: seq<Leaf>, last: Leaf)
    ensures BranchesOf(leaves + [last]) == BranchesOf(leaves) + {last.name.branch}
  {
    assert last in leaves + [last];
    assert forall l :: l in leaves + [last] <==> l in leaves || l == last;
  }

  /** Every folded leaf is an `other` leaf, and its branch is one the tail has. */
  ghost predicate OthersOf(folded: seq<Leaf>, branches: set<Branch>) {
    && (forall l :: l in folded ==> l.name == OtherName(l.name.branch) && l.name.branch in branches)
    && (forall b :: b in branches ==> LeafIndex(folded, OtherName(b)) < |folded|)
  }

  lemma {:induction false} GrownOthers(folded: seq<Leaf>, branches: set<Branch>, l: Leaf)
    requires OthersOf(folded, branches)
    ensures OthersOf(Grown(folded, OtherName(l.name.branch), l.indexes, l.tokens), branches + {l.name.branch})
    ensures |Grown(folded, OtherName(l.name.branch), l.indexes, l.tokens)| ==
            |folded| + if l.name.branch in branches then 0 else 1
  {
    var b := l.name.branch;
    var at := LeafIndex(folded, OtherName(b));
    var grown := Grown(folded, OtherName(b), l.indexes, l.tokens);
    assert at < |folded| <==> b in branches by {
      if at < |folded| {
        assert folded[at] in folded;
      }
    }
    forall x | x in grown
      ensures x.name == OtherName(x.name.branch) && x.name.branch in branches + {b}
    {
      var j :| 0 <= j < |grown| && grown[j] == x;
      if j < |folded| {
        assert folded[j] in folded;
      }
    }
    forall c | c in branches + {b}
      ensures LeafIndex(grown, OtherName(c)) < |grown|
    {
      if c == b {
        assert grown[at] in grown;
      } else {
        var k := LeafIndex(folded, OtherName(c));
        assert grown[k] in grown && grown[k].name == OtherName(c);
      }
    }
  }

  lemma {:induction false} FoldedBranches(tail: seq<Leaf>)
    ensures OthersOf(Folded(tail), BranchesOf(tail))
    ensures |Folded(tail)| == |BranchesOf(tail)|
  {
    if tail != [] {
      var front, last := tail[..|tail| - 1], tail[|tail| - 1];
      FoldedBranches(front);
      GrownOthers(Folded(front), BranchesOf(front), last);
      BranchesSnoc(front, last);
      assert tail == front + [last];
    }
  }

  /** Moving the split by one position adds one leaf or none. */
  lemma {:induction false} LeavesRise(ranked: seq<Leaf>, c: nat)
    requires c < |ranked|
    ensures LeavesAt(ranked, c) <= LeavesAt(ranked, c + 1) <= LeavesAt(ranked, c) + 1
  {
    BranchesCons(ranked, c);
    var rest, b := BranchesOf(ranked[c + 1..]), ranked[c].name.branch;
    if b in rest {
      assert rest + {b} == rest;
    }
  }

  lemma {:induction false} SplitIsExact(ranked: seq<Leaf>, c: nat)
    requires c <= |ranked| && LeavesAt(ranked, c) >= MAXIMUM_USAGE_PERIOD_LEAVES
    requires LeavesAt(ranked, 0) <= MAXIMUM_USAGE_PERIOD_LEAVES
    ensures LeavesAt(ranked, SplitFrom(ranked, c)) == MAXIMUM_USAGE_PERIOD_LEAVES
  {
    if LeavesAt(ranked, c) > MAXIMUM_USAGE_PERIOD_LEAVES {
      LeavesRise(ranked, c - 1);
      SplitIsExact(ranked, c - 1);
    }
  }

  lemma {:induction false} SplitOfNone(ranked: seq<Leaf>, c: nat)
    requires c <= |ranked|
    requires LeavesAt(ranked, 0) > MAXIMUM_USAGE_PERIOD_LEAVES
    ensures SplitFrom(ranked, c) == 0
  {
    LeavesIncrease(ranked, 0, c);
    if c > 0 {
      SplitOfNone(ranked, c - 1);
    }
  }

  lemma {:induction false} LeavesIncrease(ranked: seq<Leaf>, a: nat, c: nat)
    requires a <= c <= |ranked|
    ensures LeavesAt(ranked, a) <= LeavesAt(ranked, c)
  {
    if a < c {
      LeavesIncrease(ranked, a, c - 1);
      LeavesRise(ranked, c - 1);
    }
  }

  lemma {:induction false} SplitIsLongest(ranked: seq<Leaf>, c: nat, longer: nat)
    requires c <= |ranked| && SplitFrom(ranked, c) < longer <= c
    ensures LeavesAt(ranked, longer) > MAXIMUM_USAGE_PERIOD_LEAVES
  {
    if longer < c {
      SplitIsLongest(ranked, c - 1, longer);
    }
  }

  /** Ranking does not change which branches there are. */
  lemma {:induction false} RankedBranches(leaves: seq<Leaf>)
    ensures BranchesOf(Ranked(leaves)) == BranchesOf(leaves)
  {
    SortMembers(leaves, RankLeq);
    assert forall l :: l in Ranked(leaves) <==> l in leaves;
  }

  /**
   * A period past the budget comes out with exactly the budget's number of leaves when its branches
   * fit the budget, and with one leaf per branch when they do not.
   */
  lemma {:induction false} BoundedCount(leaves: seq<Leaf>)
    ensures |leaves| <= 200 ==> Bounded(leaves) == leaves
    ensures |leaves| > 200 ==>
              |Bounded(leaves)| == Max(200, |BranchesOf(leaves)|)
  {
    if |leaves| > 200 {
      SortPermutes(leaves, RankLeq);
      var ranked := Ranked(leaves);
      var split := SplitOf(ranked);
      FoldedBranches(ranked[split..]);
      RankedBranches(leaves);
      assert ranked[0..] == ranked;
      if |BranchesOf(leaves)| <= 200 {
        SplitIsExact(ranked, MAXIMUM_USAGE_PERIOD_LEAVES);
      } else {
        SplitOfNone(ranked, MAXIMUM_USAGE_PERIOD_LEAVES);
      }
    }
  }

  /** By agent, then provider, then model, each in the order of code units. */
  ghost predicate NotAfter(a: LeafName, b: LeafName) {
    || a == b
    || TextBefore(a.branch.agent, b.branch.agent)
    || (a.branch.agent == b.branch.agent && TextBefore(a.branch.provider, b.branch.provider))
    || (a.branch == b.branch && TextBefore(a.model, b.model))
  }

  lemma {:induction false} NameLeqMeans(a: LeafName, b: LeafName)
    ensures NameLeq(a, b) ==> NotAfter(a, b)
  {
    if NameLeq(a, b) {
      if a.branch.agent != b.branch.agent {
        TextLeqMeans(a.branch.agent, b.branch.agent);
      } else if a.branch.provider != b.branch.provider {
        TextLeqMeans(a.branch.provider, b.branch.provider);
      } else {
        TextLeqMeans(a.model, b.model);
      }
    }
  }

  /** More tokens, or as many and no later a name. */
  ghost predicate RanksFirst(a: Leaf, b: Leaf) {
    a.tokens > b.tokens || (a.tokens == b.tokens && NotAfter(a.name, b.name))
  }

  lemma {:induction false} RankLeqMeans(a: Leaf, b: Leaf)
    requires RankLeq(a, b)
    ensures RanksFirst(a, b)
  {
    NameLeqMeans(a.name, b.name);
  }

  lemma {:induction false} SortedRanksFirst(ranked: seq<Leaf>)
    requires Sorted(ranked, RankLeq)
    ensures forall i, j :: 0 <= i < j < |ranked| ==> RanksFirst(ranked[i], ranked[j])
  {
    forall i, j | 0 <= i < j < |ranked|
      ensures RanksFirst(ranked[i], ranked[j])
    {
      RankLeqMeans(ranked[i], ranked[j]);
    }
  }

  lemma {:induction false} FoldedAreOthers(tail: seq<Leaf>)
    ensures forall i :: 0 <= i < |Folded(tail)| ==> Folded(tail)[i].name.model == "other"
  {
    FoldedBranches(tail);
    forall i | 0 <= i < |Folded(tail)|
      ensures Folded(tail)[i].name.model == "other"
    {
      assert Folded(tail)[i] in Folded(tail);
    }
  }

  /**
   * What is kept is the longest prefix by rank that fits: a longer one does not fit, and no leaf
   * that is folded away outranks one that is kept.
   */
  lemma {:induction false} KeptIsLongestPrefix(leaves: seq<Leaf>)
    requires |leaves| > 200
    ensures |Ranked(leaves)| == |leaves| && multiset(Ranked(leaves)) == multiset(leaves)
    ensures var ranked, split := Ranked(leaves), SplitOf(Ranked(leaves));
            && split <= |Bounded(leaves)| && Bounded(leaves)[..split] == ranked[..split]
            && (forall i :: split <= i < |Bounded(leaves)| ==> Bounded(leaves)[i].name.model == "other")
            && (forall i, j :: 0 <= i < split <= j < |ranked| ==> RanksFirst(ranked[i], ranked[j]))
            && (forall c :: split < c <= |ranked| ==> LeavesAt(ranked, c) > 200)
  {
    SortPermutes(leaves, RankLeq);
    RankOrders();
    SortSorts(leaves, RankLeq);
    var ranked, split := Ranked(leaves), SplitOf(Ranked(leaves));
    var folded := Folded(ranked[split..]);
    SortedRanksFirst(ranked);
    FoldedAreOthers(ranked[split..]);
    assert Bounded(leaves) == ranked[..split] + folded;
    forall c | split < c <= |ranked|
      ensures LeavesAt(ranked, c) > 200
    {
      if c <= MAXIMUM_USAGE_PERIOD_LEAVES {
        SplitIsLongest(ranked, MAXIMUM_USAGE_PERIOD_LEAVES, c);
      }
    }
  }

  // ----- nothing folded is missing

  lemma {:induction false} HeldInsert(x: Leaf, s: seq<Leaf>, leq: (Leaf, Leaf) -> bool, chosen: Branch -> bool)
    ensures multiset(Held(Insert(x, s, leq), chosen)) == multiset(Rows(x, chosen)) + multiset(Held(s, chosen))
  {
    if s == [] || leq(x, s[0]) {
      HeldAppend([x], s, chosen);
      HeldOne(x, chosen);
    } else {
      HeldInsert(x, s[1..], leq, chosen);
      HeldAppend([s[0]], Insert(x, s[1..], leq), chosen);
      HeldOne(s[0], chosen);
    }
  }

  lemma {:induction false} HeldSort(s: seq<Leaf>, leq: (Leaf, Leaf) -> bool, chosen: Branch -> bool)
    ensures multiset(Held(Sort(s, leq), chosen)) == multiset(Held(s, chosen))
  {
    if s != [] {
      HeldSort(s[1..], leq, chosen);
      HeldInsert(s[0], Sort(s[1..], leq), leq, chosen);
    }
  }

  lemma {:induction false} HeldLast(tail: seq<Leaf>, chosen: Branch -> bool)
    requires tail != []
    ensures multiset(Held(tail, chosen)) ==
            multiset(Held(tail[..|tail| - 1], chosen)) + multiset(Rows(tail[|tail| - 1], chosen))
  {
    var front, last := tail[..|tail| - 1], tail[|tail| - 1];
    HeldAppend(front, [last], chosen);
    HeldOne(last, chosen);
    assert tail == front + [last];
  }

  lemma {:induction false} HeldFolded(tail: seq<Leaf>, chosen: Branch -> bool)
    ensures multiset(Held(Folded(tail), chosen)) == multiset(Held(tail, chosen))
  {
    if tail != [] {
      HeldFolded(tail[..|tail| - 1], chosen);
      HeldLast(tail, chosen);
      HeldFoldedStep(Folded(tail[..|tail| - 1]), tail[|tail| - 1], chosen);
    }
  }

  lemma {:induction false} HeldFoldedStep(folded: seq<Leaf>, l: Leaf, chosen: Branch -> bool)
    ensures multiset(Held(Grown(folded, OtherName(l.name.branch), l.indexes, l.tokens), chosen)) ==
            multiset(Held(folded, chosen)) + multiset(Rows(l, chosen))
  {
    HeldGrown(folded, OtherName(l.name.branch), l.indexes, l.tokens, chosen);
  }

  /** Bounding moves no row to another branch and loses or repeats none. */
  lemma {:induction false} BoundingConserves(leaves: seq<Leaf>, chosen: Branch -> bool)
    ensures multiset(Held(Bounded(leaves), chosen)) == multiset(Held(leaves, chosen))
  {
    if |leaves| > MAXIMUM_USAGE_PERIOD_LEAVES {
      SortPermutes(leaves, RankLeq);
      var ranked := Ranked(leaves);
      HeldSort(leaves, RankLeq, chosen);
      FoldingTailConserves(ranked, SplitOf(ranked), chosen);
    }
  }

  lemma {:induction false} FoldingTailConserves(ranked: seq<Leaf>, split: nat, chosen: Branch -> bool)
    requires split <= |ranked|
    ensures multiset(Held(ranked[..split] + Folded(ranked[split..]), chosen)) == multiset(Held(ranked, chosen))
  {
    HeldFolded(ranked[split..], chosen);
    HeldTail(ranked[..split], Folded(ranked[split..]), ranked[split..], chosen);
    assert ranked == ranked[..split] + ranked[split..];
  }

  lemma {:induction false} HeldTail(kept: seq<Leaf>, a: seq<Leaf>, b: seq<Leaf>, chosen: Branch -> bool)
    requires multiset(Held(a, chosen)) == multiset(Held(b, chosen))
    ensures multiset(Held(kept + a, chosen)) == multiset(Held(kept + b, chosen))
  {
    HeldBoth(kept, a, chosen);
    HeldBoth(kept, b, chosen);
  }

  lemma {:induction false} HeldBoth(a: seq<Leaf>, b: seq<Leaf>, chosen: Branch -> bool)
    ensures multiset(Held(a + b, chosen)) == multiset(Held(a, chosen)) + multiset(Held(b, chosen))
  {
    HeldAppend(a, b, chosen);
  }

  lemma {:induction false} FoldedCounts(facts: seq<Fact>, tail: seq<Leaf>)
    requires LeavesCount(facts, tail)
    ensures LeavesCount(facts, Folded(tail))
  {
    if tail != [] {
      var front, last := tail[..|tail| - 1], tail[|tail| - 1];
      assert last in tail && LeafCounts(facts, last);
      forall l | l in front
        ensures LeafCounts(facts, l)
      {
        assert l in tail;
      }
      FoldedCounts(facts, front);
      GrownCounts(facts, Folded(front), OtherName(last.name.branch), last.indexes, last.tokens);
    }
  }

  /** A leaf still counts exactly the tokens of its rows after bounding. */
  lemma {:induction false} BoundedCounts(facts: seq<Fact>, leaves: seq<Leaf>)
    requires LeavesCount(facts, leaves)
    ensures LeavesCount(facts, Bounded(leaves))
  {
    if |leaves| > MAXIMUM_USAGE_PERIOD_LEAVES {
      SortPermutes(leaves, RankLeq);
      SortMembers(leaves, RankLeq);
      var ranked := Ranked(leaves);
      var split := SplitOf(ranked);
      forall l | l in ranked[split..]
        ensures LeafCounts(facts, l)
      {
        assert l in ranked && l in leaves;
      }
      FoldedCounts(facts, ranked[split..]);
      forall l | l in Bounded(leaves)
        ensures LeafCounts(facts, l)
      {
        assert l in ranked[..split] || l in Folded(ranked[split..]);
        if l in ranked[..split] {
          assert l in ranked && l in leaves;
        }
      }
    }
  }
}
