/** The nested agent tree of one period: agents, their providers, their models, with the totals of each leaf. */
module AgentTree {
  import opened Prelude
  import opened Sorting
  import opened AgentLeaves
  import opened LeafBudget

  datatype ProviderGroup = ProviderGroup(provider: string, leaves: seq<Leaf>)

  datatype AgentGroup = AgentGroup(agent: string, providers: seq<ProviderGroup>)

  datatype ModelNode = ModelNode(model: string, totals: Totals)

  datatype ProviderNode = ProviderNode(provider: string, models: seq<ModelNode>)

  datatype AgentNode = AgentNode(agent: string, providers: seq<ProviderNode>)

  // ----- grouping

  function ProviderIndex(ps: seq<ProviderGroup>, provider: string): (i: nat)
    ensures i <= |ps|
    ensures i < |ps| ==> ps[i].provider == provider
    ensures i == |ps| ==> forall p :: p in ps ==> p.provider != provider
  {
    if ps == [] then 0 else if ps[0].provider == provider then 0 else 1 + ProviderIndex(ps[1..], provider)
  }

  function AgentIndex(gs: seq<AgentGroup>, agent: string): (i: nat)
    ensures i <= |gs|
    ensures i < |gs| ==> gs[i].agent == agent
    ensures i == |gs| ==> forall g :: g in gs ==> g.agent != agent
  {
    if gs == [] then 0 else if gs[0].agent == agent then 0 else 1 + AgentIndex(gs[1..], agent)
  }

  function PlacedIn(ps: seq<ProviderGroup>, l: Leaf): seq<ProviderGroup> {
    var i := ProviderIndex(ps, l.name.branch.provider);
    if i < |ps| then ps[i := ProviderGroup(ps[i].provider, ps[i].leaves + [l])]
    else ps + [ProviderGroup(l.name.branch.provider, [l])]
  }

  function PlacedUnder(gs: seq<AgentGroup>, l: Leaf): seq<AgentGroup> {
    var i := AgentIndex(gs, l.name.branch.agent);
    if i < |gs| then gs[i := AgentGroup(gs[i].agent, PlacedIn(gs[i].providers, l))]
    else gs + [AgentGroup(l.name.branch.agent, PlacedIn([], l))]
  }

  function Grouped(leaves: seq<Leaf>): seq<AgentGroup> {
    if leaves == [] then [] else PlacedUnder(Grouped(leaves[..|leaves| - 1]), leaves[|leaves| - 1])
  }

  lemma {:induction false} GroupedStep(leaves: seq<Leaf>, n: nat)
    requires n < |leaves|
    ensures Grouped(leaves[..n + 1]) == PlacedUnder(Grouped(leaves[..n]), leaves[n])
  {
    assert leaves[..n + 1][..n] == leaves[..n];
  }

  method GroupLeaves(leaves: seq<Leaf>) returns (agents: seq<AgentGroup>)
    ensures agents == Grouped(leaves)
  {
    agents := [];
    var n := 0;
    while n < |leaves|
      invariant 0 <= n <= |leaves|
      invariant agents == Grouped(leaves[..n])
    {
      GroupedStep(leaves, n);
      var leaf := leaves[n];
      var at := AgentIndex(agents, leaf.name.branch.agent);
      var providers := if at < |agents| then agents[at].providers else [];
      var slot := ProviderIndex(providers, leaf.name.branch.provider);
      if slot < |providers| {
        providers := providers[slot := ProviderGroup(providers[slot].provider, providers[slot].leaves + [leaf])];
      } else {
        providers := providers + [ProviderGroup(leaf.name.branch.provider, [leaf])];
      }
      if at < |agents| {
        agents := agents[at := AgentGroup(agents[at].agent, providers)];
      } else {
        agents := agents + [AgentGroup(leaf.name.branch.agent, providers)];
      }
      n := n + 1;
    }
    assert leaves[..n] == leaves;
  }

  // ----- sorting into the answer

  predicate AgentLeq(a: AgentGroup, b: AgentGroup) { TextLeq(a.agent, b.agent) }

  predicate ProviderLeq(a: ProviderGroup, b: ProviderGroup) { TextLeq(a.provider, b.provider) }

  predicate ModelLeq(a: Leaf, b: Leaf) { TextLeq(a.name.model, b.name.model) }

  function Mapped<A, B>(s: seq<A>, f: A -> B): (r: seq<B>)
    ensures |r| == |s| && forall i :: 0 <= i < |s| ==> r[i] == f(s[i])
  {
    if s == [] then [] else [f(s[0])] + Mapped(s[1..], f)
  }

  function ToModel(facts: seq<Fact>): Leaf -> ModelNode {
    (l: Leaf) => ModelNode(l.name.model, TotalsOf(facts, l.indexes))
  }

  function ToProvider(facts: seq<Fact>): ProviderGroup -> ProviderNode {
    (p: ProviderGroup) => ProviderNode(p.provider, Mapped(Sort(p.leaves, ModelLeq), ToModel(facts)))
  }

  function ToAgent(facts: seq<Fact>): AgentGroup -> AgentNode {
    (g: AgentGroup) => AgentNode(g.agent, Mapped(Sort(g.providers, ProviderLeq), ToProvider(facts)))
  }

  function Arranged(facts: seq<Fact>, groups: seq<AgentGroup>): seq<AgentNode> {
    Mapped(Sort(groups, AgentLeq), ToAgent(facts))
  }

  function TreeOf(facts: seq<Fact>, catalog: ModelCatalog, indexes: seq<nat>): seq<AgentNode> {
    Arranged(facts, Grouped(Bounded(Collected(facts, catalog, indexes))))
  }

  predicate PeriodFits(facts: seq<Fact>, indexes: seq<nat>) {
    InRange(facts, indexes) && TotalsOf(facts, indexes).Fits()
  }

  /** Every number the tree's answer needs is a safe integer, before and after the fold. */
  predicate TreeSums(facts: seq<Fact>, catalog: ModelCatalog, indexes: seq<nat>) {
    var leaves := Collected(facts, catalog, indexes);
    && TokensFit(leaves) && TokensFit(Bounded(leaves))
    && forall l :: l in Bounded(leaves) ==> TotalsOf(facts, l.indexes).Fits()
  }

  /** When the period's own totals can be summed, no leaf of its tree overflows. */
  lemma {:induction false} TreeFits(facts: seq<Fact>, catalog: ModelCatalog, indexes: seq<nat>)
    requires TotalsOf(facts, indexes).Fits()
    ensures TreeSums(facts, catalog, indexes)
  {
    var leaves := Collected(facts, catalog, indexes);
    LeavesAreNamed(facts, catalog, indexes);
    AllRowsHeld(facts, catalog, indexes);
    LeafTotalsFit(facts, indexes, leaves);
    BoundingConserves(leaves, AnyBranch());
    BoundedCounts(facts, leaves);
    LeafTotalsFit(facts, indexes, Bounded(leaves));
  }

  method SumLeaves(facts: seq<Fact>, leaves: seq<Leaf>) returns (ok: bool)
    ensures ok <==> forall l :: l in leaves ==> PeriodFits(facts, l.indexes)
  {
    var n := 0;
    while n < |leaves|
      invariant 0 <= n <= |leaves|
      invariant forall l :: l in leaves[..n] ==> PeriodFits(facts, l.indexes)
    {
      var totals := SummaryTotals(facts, leaves[n].indexes);
      if totals.Err? {
        assert leaves[n] in leaves;
        return false;
      }
      assert leaves[..n + 1] == leaves[..n] + [leaves[n]];
      n := n + 1;
    }
    assert leaves[..n] == leaves;
    ok := true;
  }

  /**
   * The tree of one period: the grouping of the bounded leaves, exactly when every index names a row and
   * every sum is a safe integer, and the limit error otherwise.
   */
  method BuildAgentTree(facts: seq<Fact>, catalog: ModelCatalog, indexes: seq<nat>)
    returns (r: Result<seq<AgentNode>, LimitError>)
    ensures r == if InRange(facts, indexes) && TreeSums(facts, catalog, indexes)
                 then Ok(TreeOf(facts, catalog, indexes)) else Err(UsageSummaryLimit)
  {
    if InRange(facts, indexes) {
      BoundedInRange(facts, catalog, indexes);
    }
    var leaves := CollectLeaves(facts, catalog, indexes);
    if leaves.Err? {
      return Err(UsageSummaryLimit);
    }
    var bounded := BoundLeaves(leaves.value);
    if bounded.Err? {
      return Err(UsageSummaryLimit);
    }
    var summed := SumLeaves(facts, bounded.value);
    if !summed {
      return Err(UsageSummaryLimit);
    }
    var agents := GroupLeaves(bounded.value);
    r := Ok(Arranged(facts, agents));
  }

  lemma {:induction false} HeldMember(leaves: seq<Leaf>, i: nat)
    requires i < |leaves|
    ensures forall x :: x in leaves[i].indexes ==> x in Held(leaves, AnyBranch())
  {
    HeldSplit(leaves, i, AnyBranch());
    HeldOne(leaves[i], AnyBranch());
  }

  lemma {:induction false} BoundedInRange(facts: seq<Fact>, catalog: ModelCatalog, indexes: seq<nat>)
    requires InRange(facts, indexes)
    ensures forall l :: l in Bounded(Collected(facts, catalog, indexes)) ==> InRange(facts, l.indexes)
  {
    var leaves := Collected(facts, catalog, indexes);
    var bounded := Bounded(leaves);
    AllRowsHeld(facts, catalog, indexes);
    BoundingConserves(leaves, AnyBranch());
    SameMembers(Held(bounded, AnyBranch()), indexes);
    forall l | l in bounded
      ensures InRange(facts, l.indexes)
    {
      var i :| 0 <= i < |bounded| && bounded[i] == l;
      HeldMember(bounded, i);
    }
  }

  lemma {:induction false} SameMembers<T>(a: seq<T>, b: seq<T>)
    requires multiset(a) == multiset(b)
    ensures |a| == |b|
    ensures forall x :: x in a ==> x in b
  {
    assert |multiset(a)| == |a| && |multiset(b)| == |b|;
    forall x | x in a
      ensures x in b
    {
      assert x in multiset(a);
    }
  }

  // ----- what the tree holds

  /** One leaf of the answer: under which agent and provider, its model and its totals. */
  datatype Entry = Entry(name: LeafName, totals: Totals)

  function Flat<T>(s: seq<T>, entries: T -> seq<Entry>): seq<Entry> {
    if s == [] then [] else entries(s[0]) + Flat(s[1..], entries)
  }

  function ModelEntry(branch: Branch): ModelNode -> seq<Entry> {
    (m: ModelNode) => [Entry(LeafName(branch, m.model), m.totals)]
  }

  function ProviderEntries(agent: string): ProviderNode -> seq<Entry> {
    (p: ProviderNode) => Flat(p.models, ModelEntry(Branch(agent, p.provider)))
  }

  function AgentEntries(): AgentNode -> seq<Entry> {
    (a: AgentNode) => Flat(a.providers, ProviderEntries(a.agent))
  }

  /** Every leaf of the tree, read off in order. */
  function TreeEntries(tree: seq<AgentNode>): seq<Entry> { Flat(tree, AgentEntries()) }

  function LeafEntry(facts: seq<Fact>): Leaf -> seq<Entry> {
    (l: Leaf) => [Entry(l.name, TotalsOf(facts, l.indexes))]
  }

  // The same for the groups, before sorting.

  function GroupedEntry(facts: seq<Fact>, branch: Branch): Leaf -> seq<Entry> {
    (l: Leaf) => [Entry(LeafName(branch, l.name.model), TotalsOf(facts, l.indexes))]
  }

  function ProviderGroupEntries(facts: seq<Fact>, agent: string): ProviderGroup -> seq<Entry> {
    (p: ProviderGroup) => Flat(p.leaves, GroupedEntry(facts, Branch(agent, p.provider)))
  }

  function AgentGroupEntries(facts: seq<Fact>): AgentGroup -> seq<Entry> {
    (g: AgentGroup) => Flat(g.providers, ProviderGroupEntries(facts, g.agent))
  }

  lemma {:induction false} FlatAppend<T>(a: seq<T>, b: seq<T>, entries: T -> seq<Entry>)
    ensures multiset(Flat(a + b, entries)) == multiset(Flat(a, entries)) + multiset(Flat(b, entries))
  {
    if a == [] {
      assert a + b == b;
    } else {
      FlatAppend(a[1..], b, entries);
      assert (a + b)[1..] == a[1..] + b;
      assert Flat(a + b, entries) == entries(a[0]) + Flat(a[1..] + b, entries);
    }
  }

  lemma {:induction false} FlatOne<T>(x: T, entries: T -> seq<Entry>)
    ensures Flat([x], entries) == entries(x)
  {
    assert [x][1..] == [];
  }

  lemma {:induction false} FlatSnoc<T>(s: seq<T>, x: T, entries: T -> seq<Entry>)
    ensures multiset(Flat(s + [x], entries)) == multiset(Flat(s, entries)) + multiset(entries(x))
  {
    FlatAppend(s, [x], entries);
    FlatOne(x, entries);
  }

  lemma {:induction false} FlatSplit<T>(s: seq<T>, i: nat, entries: T -> seq<Entry>)
    requires i < |s|
    ensures multiset(Flat(s, entries)) ==
            multiset(Flat(s[..i], entries)) + multiset(entries(s[i])) + multiset(Flat(s[i + 1..], entries))
  {
    var front, back := s[..i] + [s[i]], s[i + 1..];
    assert s == front + back;
    FlatAppend(front, back, entries);
    FlatSnoc(s[..i], s[i], entries);
  }

  /** Replacing one element by one that gives more adds just that. */
  lemma {:induction false} FlatUpdate<T>(s: seq<T>, i: nat, x: T, entries: T -> seq<Entry>, more: seq<Entry>)
    requires i < |s| && multiset(entries(x)) == multiset(entries(s[i])) + multiset(more)
    ensures multiset(Flat(s[i := x], entries)) == multiset(Flat(s, entries)) + multiset(more)
  {
    FlatSplit(s, i, entries);
    FlatSplit(s[i := x], i, entries);
    assert s[i := x][..i] == s[..i] && s[i := x][i + 1..] == s[i + 1..];
  }

  lemma {:induction false} FlatInsert<T>(x: T, s: seq<T>, leq: (T, T) -> bool, entries: T -> seq<Entry>)
    ensures multiset(Flat(Insert(x, s, leq), entries)) == multiset(entries(x)) + multiset(Flat(s, entries))
  {
    if s == [] || leq(x, s[0]) {
      FlatAppend([x], s, entries);
      FlatOne(x, entries);
    } else {
      FlatInsert(x, s[1..], leq, entries);
      FlatAppend([s[0]], Insert(x, s[1..], leq), entries);
      FlatOne(s[0], entries);
    }
  }

  lemma {:induction false} FlatSort<T>(s: seq<T>, leq: (T, T) -> bool, entries: T -> seq<Entry>)
    ensures multiset(Flat(Sort(s, leq), entries)) == multiset(Flat(s, entries))
  {
    if s != [] {
      FlatSort(s[1..], leq, entries);
      FlatInsert(s[0], Sort(s[1..], leq), leq, entries);
    }
  }

  lemma {:induction false} FlatMapped<A, B>(s: seq<A>, f: A -> B, onA: A -> seq<Entry>, onB: B -> seq<Entry>)
    requires forall x :: x in s ==> multiset(onB(f(x))) == multiset(onA(x))
    ensures multiset(Flat(Mapped(s, f), onB)) == multiset(Flat(s, onA))
  {
    if s != [] {
      FlatMapped(s[1..], f, onA, onB);
      assert s[0] in s;
      assert Mapped(s, f)[1..] == Mapped(s[1..], f);
    }
  }

  lemma {:induction false} PlacedInAdds(facts: seq<Fact>, ps: seq<ProviderGroup>, l: Leaf)
    ensures multiset(Flat(PlacedIn(ps, l), ProviderGroupEntries(facts, l.name.branch.agent))) ==
            multiset(Flat(ps, ProviderGroupEntries(facts, l.name.branch.agent))) + multiset(LeafEntry(facts)(l))
  {
    var entries := ProviderGroupEntries(facts, l.name.branch.agent);
    var i := ProviderIndex(ps, l.name.branch.provider);
    var single := GroupedEntry(facts, l.name.branch);
    if i < |ps| {
      FlatSnoc(ps[i].leaves, l, single);
      FlatUpdate(ps, i, PlacedIn(ps, l)[i], entries, LeafEntry(facts)(l));
    } else {
      FlatOne(l, single);
      FlatSnoc(ps, ProviderGroup(l.name.branch.provider, [l]), entries);
    }
  }

  lemma {:induction false} PlacedUnderAdds(facts: seq<Fact>, gs: seq<AgentGroup>, l: Leaf)
    ensures multiset(Flat(PlacedUnder(gs, l), AgentGroupEntries(facts))) ==
            multiset(Flat(gs, AgentGroupEntries(facts))) + multiset(LeafEntry(facts)(l))
  {
    var i := AgentIndex(gs, l.name.branch.agent);
    if i < |gs| {
      PlacedInAdds(facts, gs[i].providers, l);
      FlatUpdate(gs, i, PlacedUnder(gs, l)[i], AgentGroupEntries(facts), LeafEntry(facts)(l));
    } else {
      PlacedInAdds(facts, [], l);
      FlatSnoc(gs, AgentGroup(l.name.branch.agent, PlacedIn([], l)), AgentGroupEntries(facts));
    }
  }

  lemma {:induction false} FlatLast<T>(s: seq<T>, entries: T -> seq<Entry>)
    requires s != []
    ensures multiset(Flat(s, entries)) == multiset(Flat(s[..|s| - 1], entries)) + multiset(entries(s[|s| - 1]))
  {
    FlatSnoc(s[..|s| - 1], s[|s| - 1], entries);
    assert s == s[..|s| - 1] + [s[|s| - 1]];
  }

  lemma {:induction false} GroupingConserves(facts: seq<Fact>, leaves: seq<Leaf>)
    ensures multiset(Flat(Grouped(leaves), AgentGroupEntries(facts))) == multiset(Flat(leaves, LeafEntry(facts)))
  {
    if leaves != [] {
      GroupingConserves(facts, leaves[..|leaves| - 1]);
      PlacedUnderAdds(facts, Grouped(leaves[..|leaves| - 1]), leaves[|leaves| - 1]);
      FlatLast(leaves, LeafEntry(facts));
    }
  }

  lemma {:induction false} ProviderArranged(facts: seq<Fact>, agent: string, p: ProviderGroup)
    ensures multiset(ProviderEntries(agent)(ToProvider(facts)(p))) == multiset(ProviderGroupEntries(facts, agent)(p))
  {
    var branch := Branch(agent, p.provider);
    FlatMapped(Sort(p.leaves, ModelLeq), ToModel(facts), GroupedEntry(facts, branch), ModelEntry(branch));
    FlatSort(p.leaves, ModelLeq, GroupedEntry(facts, branch));
  }

  lemma {:induction false} AgentArranged(facts: seq<Fact>, g: AgentGroup)
    ensures multiset(AgentEntries()(ToAgent(facts)(g))) == multiset(AgentGroupEntries(facts)(g))
  {
    var sorted := Sort(g.providers, ProviderLeq);
    forall p | p in sorted
      ensures multiset(ProviderEntries(g.agent)(ToProvider(facts)(p))) ==
              multiset(ProviderGroupEntries(facts, g.agent)(p))
    {
      ProviderArranged(facts, g.agent, p);
    }
    FlatMapped(sorted, ToProvider(facts), ProviderGroupEntries(facts, g.agent), ProviderEntries(g.agent));
    FlatSort(g.providers, ProviderLeq, ProviderGroupEntries(facts, g.agent));
  }

  lemma {:induction false} ArrangingConserves(facts: seq<Fact>, groups: seq<AgentGroup>)
    ensures multiset(TreeEntries(Arranged(facts, groups))) == multiset(Flat(groups, AgentGroupEntries(facts)))
  {
    var sorted := Sort(groups, AgentLeq);
    forall g | g in sorted
      ensures multiset(AgentEntries()(ToAgent(facts)(g))) == multiset(AgentGroupEntries(facts)(g))
    {
      AgentArranged(facts, g);
    }
    FlatMapped(sorted, ToAgent(facts), AgentGroupEntries(facts), AgentEntries());
    FlatSort(groups, AgentLeq, AgentGroupEntries(facts));
  }

  lemma {:induction false} FlatLeaves(facts: seq<Fact>, leaves: seq<Leaf>)
    ensures |Flat(leaves, LeafEntry(facts))| == |leaves|
  {
    if leaves != [] {
      FlatLeaves(facts, leaves[1..]);
    }
  }

  /**
   * The tree's leaves are the bounded leaves, each once, under its own agent and provider and with the
   * totals of its own rows; so the tree has as many leaves as the bound left.
   */
  lemma {:induction false} TreeIsItsLeaves(facts: seq<Fact>, catalog: ModelCatalog, indexes: seq<nat>)
    ensures var bounded := Bounded(Collected(facts, catalog, indexes));
            && multiset(TreeEntries(TreeOf(facts, catalog, indexes))) == multiset(Flat(bounded, LeafEntry(facts)))
            && |TreeEntries(TreeOf(facts, catalog, indexes))| == |bounded|
  {
    var bounded := Bounded(Collected(facts, catalog, indexes));
    GroupingConserves(facts, bounded);
    ArrangingConserves(facts, Grouped(bounded));
    FlatLeaves(facts, bounded);
    SameMembers(TreeEntries(TreeOf(facts, catalog, indexes)), Flat(bounded, LeafEntry(facts)));
  }

  /**
   * Past the budget the tree has exactly the budget's number of leaves, or one for each agent and
   * provider where those alone are more.
   */
  lemma {:induction false} TreeSize(facts: seq<Fact>, catalog: ModelCatalog, indexes: seq<nat>)
    ensures var leaves := Collected(facts, catalog, indexes);
            |TreeEntries(TreeOf(facts, catalog, indexes))| ==
            if |leaves| <= 200 then |leaves|
            else Max(200, |BranchesOf(leaves)|)
  {
    TreeIsItsLeaves(facts, catalog, indexes);
    BoundedCount(Collected(facts, catalog, indexes));
  }

  // ----- the tree is in order

  function AgentOf(g: AgentGroup): string { g.agent }

  function ProviderOf(p: ProviderGroup): string { p.provider }

  ghost predicate GroupsDistinct(gs: seq<AgentGroup>) {
    && DistinctBy(gs, AgentOf)
    && forall g :: g in gs ==> DistinctBy(g.providers, ProviderOf)
  }

  lemma {:induction false} PlacedInDistinct(ps: seq<ProviderGroup>, l: Leaf)
    requires DistinctBy(ps, ProviderOf)
    ensures DistinctBy(PlacedIn(ps, l), ProviderOf)
  {
  }

  lemma {:induction false} PlacedUnderDistinct(gs: seq<AgentGroup>, l: Leaf)
    requires GroupsDistinct(gs)
    ensures GroupsDistinct(PlacedUnder(gs, l))
  {
    var i := AgentIndex(gs, l.name.branch.agent);
    var placed := PlacedUnder(gs, l);
    PlacedInDistinct(if i < |gs| then gs[i].providers else [], l);
    forall g | g in placed
      ensures DistinctBy(g.providers, ProviderOf)
    {
      var j :| 0 <= j < |placed| && placed[j] == g;
      if j < |gs| {
        assert gs[j] in gs;
      }
    }
  }

  lemma {:induction false} GroupedDistinct(leaves: seq<Leaf>)
    ensures GroupsDistinct(Grouped(leaves))
  {
    if leaves != [] {
      GroupedDistinct(leaves[..|leaves| - 1]);
      PlacedUnderDistinct(Grouped(leaves[..|leaves| - 1]), leaves[|leaves| - 1]);
    }
  }

  ghost predicate Ascending(tree: seq<AgentNode>) {
    && (forall i, j :: 0 <= i < j < |tree| ==> TextBefore(tree[i].agent, tree[j].agent))
    && (forall a :: a in tree ==> ProvidersAscend(a.providers))
  }

  ghost predicate ProvidersAscend(ps: seq<ProviderNode>) {
    && (forall i, j :: 0 <= i < j < |ps| ==> TextBefore(ps[i].provider, ps[j].provider))
    && (forall p :: p in ps ==> ModelsAscend(p.models))
  }

  ghost predicate ModelsAscend(ms: seq<ModelNode>) {
    forall i, j :: 0 <= i < j < |ms| ==>
      ms[i].model == ms[j].model || TextBefore(ms[i].model, ms[j].model)
  }

  lemma {:induction false} TextOrders()
    ensures Ordering(AgentLeq) && Ordering(ProviderLeq) && Ordering(ModelLeq)
  {
    TextOrder();
  }

  lemma {:induction false} ProviderAscends(facts: seq<Fact>, p: ProviderGroup)
    ensures ModelsAscend(ToProvider(facts)(p).models)
  {
    TextOrders();
    SortSorts(p.leaves, ModelLeq);
    var sorted, models := Sort(p.leaves, ModelLeq), ToProvider(facts)(p).models;
    forall i, j | 0 <= i < j < |models|
      ensures models[i].model == models[j].model || TextBefore(models[i].model, models[j].model)
    {
      assert ModelLeq(sorted[i], sorted[j]);
      TextLeqMeans(models[i].model, models[j].model);
    }
  }

  lemma {:induction false} AgentAscends(facts: seq<Fact>, g: AgentGroup)
    requires DistinctBy(g.providers, ProviderOf)
    ensures ProvidersAscend(ToAgent(facts)(g).providers)
  {
    TextOrders();
    var sorted := Sort(g.providers, ProviderLeq);
    SortSorts(g.providers, ProviderLeq);
    SortDistinct(g.providers, ProviderLeq, ProviderOf);
    var nodes := ToAgent(facts)(g).providers;
    forall i, j | 0 <= i < j < |nodes|
      ensures TextBefore(nodes[i].provider, nodes[j].provider)
    {
      assert ProviderLeq(sorted[i], sorted[j]) && ProviderOf(sorted[i]) != ProviderOf(sorted[j]);
      TextLeqMeans(nodes[i].provider, nodes[j].provider);
    }
    forall n | n in nodes
      ensures ModelsAscend(n.models)
    {
      var i :| 0 <= i < |nodes| && nodes[i] == n;
      ProviderAscends(facts, sorted[i]);
    }
  }

  /** Every agent appears once, in text order; so does every provider under it; models are in text order. */
  lemma {:induction false} TreeAscends(facts: seq<Fact>, catalog: ModelCatalog, indexes: seq<nat>)
    ensures Ascending(TreeOf(facts, catalog, indexes))
  {
    var groups := Grouped(Bounded(Collected(facts, catalog, indexes)));
    var sorted := Sort(groups, AgentLeq);
    var tree := TreeOf(facts, catalog, indexes);
    TextOrders();
    GroupedDistinct(Bounded(Collected(facts, catalog, indexes)));
    SortSorts(groups, AgentLeq);
    SortMembers(groups, AgentLeq);
    SortDistinct(groups, AgentLeq, AgentOf);
    forall i, j | 0 <= i < j < |tree|
      ensures TextBefore(tree[i].agent, tree[j].agent)
    {
      assert AgentLeq(sorted[i], sorted[j]) && AgentOf(sorted[i]) != AgentOf(sorted[j]);
      TextLeqMeans(tree[i].agent, tree[j].agent);
    }
    forall a | a in tree
      ensures ProvidersAscend(a.providers)
    {
      var i :| 0 <= i < |tree| && tree[i] == a;
      assert sorted[i] in sorted;
      AgentAscends(facts, sorted[i]);
    }
  }

  // ----- the totals add up

  function EntryWeight(chosen: Branch -> bool): Entry -> Totals {
    (e: Entry) => if chosen(e.name.branch) then e.totals else ZERO
  }

  lemma {:induction false} LeavesTotal(facts: seq<Fact>, leaves: seq<Leaf>, chosen: Branch -> bool)
    ensures SumOf(Flat(leaves, LeafEntry(facts)), EntryWeight(chosen)) == TotalsOf(facts, Held(leaves, chosen))
  {
    if leaves != [] {
      var l := leaves[0];
      var e := Entry(l.name, TotalsOf(facts, l.indexes));
      LeavesTotal(facts, leaves[1..], chosen);
      SumAppend([e], Flat(leaves[1..], LeafEntry(facts)), EntryWeight(chosen));
      SumOne(e, EntryWeight(chosen));
      TotalsAppend(facts, Rows(l, chosen), Held(leaves[1..], chosen));
    }
  }

  /**
   * For any choice of agents and providers, the totals of the tree's leaves under them add up to the
   * totals of the period's own rows under them, whether or not the bound folded any.
   */
  lemma {:induction false} TreeAddsUp(
    facts: seq<Fact>, catalog: ModelCatalog, indexes: seq<nat>, chosen: Branch -> bool)
    ensures SumOf(TreeEntries(TreeOf(facts, catalog, indexes)), EntryWeight(chosen)) ==
            TotalsOf(facts, Filter(indexes, InBranch(facts, catalog, chosen)))
  {
    var leaves := Collected(facts, catalog, indexes);
    var bounded := Bounded(leaves);
    TreeIsItsLeaves(facts, catalog, indexes);
    SumOfPermutation(TreeEntries(TreeOf(facts, catalog, indexes)), Flat(bounded, LeafEntry(facts)),
        EntryWeight(chosen));
    LeavesTotal(facts, bounded, chosen);
    BoundingConserves(leaves, chosen);
    LeavesHoldPeriod(facts, catalog, indexes, chosen);
    SumOfPermutation(Held(bounded, chosen), Filter(indexes, InBranch(facts, catalog, chosen)), WeightIn(facts));
  }
}
