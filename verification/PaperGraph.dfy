/** The graphs drawn from a paper: who cites whom, how the nodes are shared out between
    manuscripts by the number in their id, and how they are grouped for display. */
module PaperGraph {
  import opened Basics

  datatype PaperNode = PaperNode(id: string, section: Option<string>, manuscript: string)

  datatype Edge = Edge(from: string, to: string)

  datatype Structure = Structure(
    sections: seq<string>, manuscripts: seq<string>, nodes: seq<PaperNode>, edges: seq<Edge>
  )

  // ---- Lists ----

  function Filter<T>(s: seq<T>, p: T -> bool): seq<T> {
    if s == [] then [] else (if p(s[0]) then [s[0]] else []) + Filter(s[1..], p)
  }

  function Count<T(==)>(s: seq<T>, x: T): nat {
    if s == [] then 0 else (if s[0] == x then 1 else 0) + Count(s[1..], x)
  }

  lemma {:induction false} CountConcat<T>(a: seq<T>, b: seq<T>, x: T)
    ensures Count(a + b, x) == Count(a, x) + Count(b, x)
    decreases |a|
  {
    if a == [] {
      assert a + b == b;
    } else {
      CountConcat(a[1..], b, x);
      assert (a + b)[1..] == a[1..] + b;
    }
  }

  lemma {:induction false} CountFilter<T>(s: seq<T>, p: T -> bool, x: T)
    ensures Count(Filter(s, p), x) == if p(x) then Count(s, x) else 0
  {
    if s != [] {
      CountFilter(s[1..], p, x);
      CountConcat(if p(s[0]) then [s[0]] else [], Filter(s[1..], p), x);
    }
  }

  function Ids(nodes: seq<PaperNode>): (ids: set<string>) {
    set n | n in nodes :: n.id
  }

  // ---- Adjacency ----

  predicate Inside(e: Edge, ids: set<string>) {
    e.from in ids && e.to in ids
  }

  /** The sources of the edges into `id`, in the order of the edges. */
  function Into(edges: seq<Edge>, ids: set<string>, id: string): seq<string> {
    if edges == [] then []
    else
      var last := edges[|edges| - 1];
      Into(edges[..|edges| - 1], ids, id) + if Inside(last, ids) && last.to == id then [last.from] else []
  }

  /** The targets of the edges out of `id`. */
  function OutOf(edges: seq<Edge>, ids: set<string>, id: string): seq<string> {
    if edges == [] then []
    else
      var last := edges[|edges| - 1];
      OutOf(edges[..|edges| - 1], ids, id) + if Inside(last, ids) && last.from == id then [last.to] else []
  }

  function Listed(m: map<string, seq<string>>, id: string): seq<string> {
    if id in m then m[id] else []
  }

  ghost predicate ListsInto(m: map<string, seq<string>>, edges: seq<Edge>, ids: set<string>) {
    forall id :: Listed(m, id) == Into(edges, ids, id)
  }

  ghost predicate ListsOutOf(m: map<string, seq<string>>, edges: seq<Edge>, ids: set<string>) {
    forall id :: Listed(m, id) == OutOf(edges, ids, id)
  }

  lemma {:induction false} IntoGrows(m: map<string, seq<string>>, edges: seq<Edge>, ids: set<string>, i: nat)
    requires i < |edges| && ListsInto(m, edges[..i], ids)
    ensures !Inside(edges[i], ids) ==> ListsInto(m, edges[..i + 1], ids)
    ensures Inside(edges[i], ids) ==>
              ListsInto(m[edges[i].to := Listed(m, edges[i].to) + [edges[i].from]], edges[..i + 1], ids)
  {
    var more := edges[..i + 1];
    assert more[..i] == edges[..i] && more[i] == edges[i];
    if Inside(edges[i], ids) {
      var m' := m[edges[i].to := Listed(m, edges[i].to) + [edges[i].from]];
      forall id
        ensures Listed(m', id) == Into(more, ids, id)
      {
        assert Listed(m, id) == Into(edges[..i], ids, id);
      }
    }
  }

  lemma {:induction false} OutOfGrows(m: map<string, seq<string>>, edges: seq<Edge>, ids: set<string>, i: nat)
    requires i < |edges| && ListsOutOf(m, edges[..i], ids)
    ensures !Inside(edges[i], ids) ==> ListsOutOf(m, edges[..i + 1], ids)
    ensures Inside(edges[i], ids) ==>
              ListsOutOf(m[edges[i].from := Listed(m, edges[i].from) + [edges[i].to]], edges[..i + 1], ids)
  {
    var more := edges[..i + 1];
    assert more[..i] == edges[..i] && more[i] == edges[i];
    if Inside(edges[i], ids) {
      var m' := m[edges[i].from := Listed(m, edges[i].from) + [edges[i].to]];
      forall id
        ensures Listed(m', id) == OutOf(more, ids, id)
      {
        assert Listed(m, id) == OutOf(edges[..i], ids, id);
      }
    }
  }

  method Cite(structure: Structure) returns (cites: map<string, seq<string>>, citedBy: map<string, seq<string>>)
    ensures ListsInto(cites, structure.edges, Ids(structure.nodes))
    ensures ListsOutOf(citedBy, structure.edges, Ids(structure.nodes))
  {
    var known := Ids(structure.nodes);
    var edges := structure.edges;
    cites, citedBy := map[], map[];
    for i := 0 to |edges|
      invariant ListsInto(cites, edges[..i], known) && ListsOutOf(citedBy, edges[..i], known)
    {
      var edge := edges[i];
      IntoGrows(cites, edges, known, i);
      OutOfGrows(citedBy, edges, known, i);
      if edge.from !in known || edge.to !in known {
        continue;
      }
      cites := cites[edge.to := Listed(cites, edge.to) + [edge.from]];
      citedBy := citedBy[edge.from := Listed(citedBy, edge.from) + [edge.to]];
    }
    assert edges[..|edges|] == edges;
  }

  method Dependencies(edges: seq<Edge>, nodeIds: set<string>) returns (dependencies: map<string, seq<string>>)
    ensures ListsInto(dependencies, edges, nodeIds)
  {
    dependencies := map[];
    for i := 0 to |edges|
      invariant ListsInto(dependencies, edges[..i], nodeIds)
    {
      var edge := edges[i];
      IntoGrows(dependencies, edges, nodeIds, i);
      if edge.from !in nodeIds || edge.to !in nodeIds {
        continue;
      }
      dependencies := dependencies[edge.to := Listed(dependencies, edge.to) + [edge.from]];
    }
    assert edges[..|edges|] == edges;
  }

  lemma {:induction false} IntoCounts(edges: seq<Edge>, ids: set<string>, a: string, b: string)
    ensures Count(Into(edges, ids, b), a) == if a in ids && b in ids then Count(edges, Edge(a, b)) else 0
    decreases |edges|
  {
    if edges != [] {
      var before, last := edges[..|edges| - 1], edges[|edges| - 1];
      IntoCounts(before, ids, a, b);
      CountConcat(Into(before, ids, b), if Inside(last, ids) && last.to == b then [last.from] else [], a);
      assert edges == before + [last];
      CountConcat(before, [last], Edge(a, b));
    }
  }

  lemma {:induction false} OutOfCounts(edges: seq<Edge>, ids: set<string>, a: string, b: string)
    ensures Count(OutOf(edges, ids, a), b) == if a in ids && b in ids then Count(edges, Edge(a, b)) else 0
    decreases |edges|
  {
    if edges != [] {
      var before, last := edges[..|edges| - 1], edges[|edges| - 1];
      OutOfCounts(before, ids, a, b);
      CountConcat(OutOf(before, ids, a), if Inside(last, ids) && last.from == a then [last.to] else [], b);
      assert edges == before + [last];
      CountConcat(before, [last], Edge(a, b));
    }
  }

  /** The two citation maps are transposes, with multiplicity: `a` is cited by `b` as often as
      `b` cites `a`, which is as often as there are edges between the two known nodes. */
  lemma {:induction false} CitationsTranspose(
    structure: Structure, cites: map<string, seq<string>>, citedBy: map<string, seq<string>>, a: string, b: string
  )
    requires ListsInto(cites, structure.edges, Ids(structure.nodes))
    requires ListsOutOf(citedBy, structure.edges, Ids(structure.nodes))
    ensures Count(Listed(cites, b), a) == Count(Listed(citedBy, a), b)
    ensures
      Count(Listed(cites, b), a)
      == if a in Ids(structure.nodes) && b in Ids(structure.nodes) then Count(structure.edges, Edge(a, b)) else 0
  {
    IntoCounts(structure.edges, Ids(structure.nodes), a, b);
    OutOfCounts(structure.edges, Ids(structure.nodes), a, b);
  }

  // ---- Manuscripts by number ----

  function Digit(d: nat): char
    requires d < 10
  {
    (d + 48) as char
  }

  function Decimal(n: nat): (s: string)
    ensures s != ""
    decreases n
  {
    if n < 10 then [Digit(n)] else Decimal(n / 10) + [Digit(n % 10)]
  }

  lemma {:induction false} DecimalDigits(n: nat)
    ensures forall i :: 0 <= i < |Decimal(n)| ==> Decimal(n)[i] != '-'
    decreases n
  {
    if n >= 10 {
      DecimalDigits(n / 10);
    }
  }

  lemma {:induction false} DecimalIsInjective(m: nat, n: nat)
    requires Decimal(m) == Decimal(n)
    ensures m == n
    decreases m
  {
    var s := Decimal(m);
    assert s[|s| - 1] == Digit(m % 10) == Digit(n % 10);
    if m >= 10 && n >= 10 {
      assert s[..|s| - 1] == Decimal(m / 10) == Decimal(n / 10);
      DecimalIsInjective(m / 10, n / 10);
    }
  }

  /** The number a text of digits stands for. */
  function Value(s: string): int {
    if s == "" then 0 else 10 * Value(s[..|s| - 1]) + (s[|s| - 1] as int - 48)
  }

  /** Digits, and no zero in front unless it is the only one. */
  predicate Numeral(s: string) {
    s != "" && (forall i | 0 <= i < |s| :: 48 <= s[i] as int < 58) && (|s| > 1 ==> s[0] != '0')
  }

  /** A number is printed as its numeral. */
  lemma {:induction false} DecimalIsNumeral(n: nat)
    ensures Numeral(Decimal(n)) && Value(Decimal(n)) == n
    decreases n
  {
    var s := Decimal(n);
    var last := |s| - 1;
    if n < 10 {
      assert s[..0] == "";
    } else {
      DecimalIsNumeral(n / 10);
      assert s[..last] == Decimal(n / 10);
      assert Value(Decimal(n / 10)) == n / 10;
      assert Decimal(n / 10) == "0" ==> Value("0") == 0;
      assert s[0] == Decimal(n / 10)[0];
    }
  }

  lemma {:induction false} NumeralIsPositive(s: string)
    requires Numeral(s) && s != "0"
    ensures Value(s) > 0
    decreases |s|
  {
    if |s| == 1 {
      assert s == [s[0]] && s[..0] == "";
    } else {
      var front := s[..|s| - 1];
      assert front[0] == s[0];
      NumeralIsPositive(front);
    }
  }

  /** And there is only one numeral for it. */
  lemma {:induction false} NumeralIsDecimal(s: string)
    requires Numeral(s)
    ensures Value(s) >= 0 && Decimal(Value(s)) == s
    decreases |s|
  {
    var front, last := s[..|s| - 1], s[|s| - 1];
    assert s == front + [last];
    if |s| == 1 {
      assert front == "";
    } else {
      assert front[0] == s[0] != '0';
      NumeralIsDecimal(front);
      NumeralIsPositive(front);
      assert Value(s) / 10 == Value(front) && Value(s) % 10 == last as int - 48;
    }
  }

  /** The ids of a manuscript's nodes begin with its number, counted from one. */
  function Prefix(index: nat): string { "m" + Decimal(index + 1) + "-" }

  lemma {:induction false} PrefixChars(index: nat, id: string)
    requires StartsWith(id, Prefix(index))
    ensures
      var d := Decimal(index + 1);
      && |d| + 2 <= |id|
      && (forall k :: 0 <= k < |d| ==> id[k + 1] == d[k])
      && id[|d| + 1] == '-'
  {
  }

  lemma {:induction false} NoDashBefore(i: nat, j: nat, id: string)
    requires StartsWith(id, Prefix(i)) && StartsWith(id, Prefix(j))
    ensures |Decimal(i + 1)| >= |Decimal(j + 1)|
  {
    var d, e := Decimal(i + 1), Decimal(j + 1);
    PrefixChars(i, id);
    PrefixChars(j, id);
    if |d| < |e| {
      assert e[|d|] == id[|d| + 1];
      DecimalDigits(j + 1);
    }
  }

  /** No id carries two numbers: m1- and m12- never both fit. */
  lemma {:induction false} OneManuscriptEach(i: nat, j: nat, id: string)
    requires StartsWith(id, Prefix(i)) && StartsWith(id, Prefix(j))
    ensures i == j
  {
    NoDashBefore(i, j, id);
    NoDashBefore(j, i, id);
    PrefixChars(i, id);
    PrefixChars(j, id);
    assert Decimal(i + 1) == Decimal(j + 1);
    DecimalIsInjective(i + 1, j + 1);
  }

  // ---- Strategies ----

  datatype ProofStep = ProofStep(id: string, dependsOn: seq<string>)

  datatype Strategy = Strategy(versionId: string, steps: seq<ProofStep>)

  function NodesOf(structure: Structure, index: nat): seq<PaperNode> {
    Filter(structure.nodes, (n: PaperNode) => StartsWith(n.id, Prefix(index)))
  }

  function StepsOf(edges: seq<Edge>, ids: set<string>, nodes: seq<PaperNode>): seq<ProofStep> {
    if nodes == [] then []
    else [ProofStep(nodes[0].id, Into(edges, ids, nodes[0].id))] + StepsOf(edges, ids, nodes[1..])
  }

  function StrategyOf(structure: Structure, index: nat): Strategy {
    var nodes := NodesOf(structure, index);
    Strategy("m" + Decimal(index + 1), StepsOf(structure.edges, Ids(nodes), nodes))
  }

  /** Strategy number `index`, counted from zero, goes by the numeral of `index + 1`, and its
      nodes are those whose ids begin with that and a dash. */
  lemma {:induction false} StrategyIsNumbered(structure: Structure, index: nat, numeral: string)
    requires Numeral(numeral) && Value(numeral) == index + 1
    ensures StrategyOf(structure, index).versionId == "m" + numeral
    ensures forall n :: n in NodesOf(structure, index)
              <==> n in structure.nodes && StartsWith(n.id, "m" + numeral + "-")
  {
    NumeralIsDecimal(numeral);
    var p := (n: PaperNode) => StartsWith(n.id, Prefix(index));
    forall n
      ensures n in Filter(structure.nodes, p) <==> n in structure.nodes && p(n)
    {
      FilterMembers(structure.nodes, p, n);
    }
  }

  lemma {:induction false} IntoConcat(a: seq<Edge>, b: seq<Edge>, ids: set<string>, id: string)
    ensures Into(a + b, ids, id) == Into(a, ids, id) + Into(b, ids, id)
    decreases |b|
  {
    if b == [] {
      assert a + b == a;
    } else {
      var n := |b| - 1;
      IntoConcat(a, b[..n], ids, id);
      assert (a + b)[..|a + b| - 1] == a + b[..n] && (a + b)[|a + b| - 1] == b[n];
    }
  }

  lemma {:induction false} OutOfConcat(a: seq<Edge>, b: seq<Edge>, ids: set<string>, id: string)
    ensures OutOf(a + b, ids, id) == OutOf(a, ids, id) + OutOf(b, ids, id)
    decreases |b|
  {
    if b == [] {
      assert a + b == a;
    } else {
      var n := |b| - 1;
      OutOfConcat(a, b[..n], ids, id);
      assert (a + b)[..|a + b| - 1] == a + b[..n] && (a + b)[|a + b| - 1] == b[n];
    }
  }

  /** Wherever an edge stands in the list, it adds its source to the list of its target, there
      in the order, if both its ends are among the ids; and its target to that of its source. */
  lemma {:induction false} EdgesInOrder(a: seq<Edge>, e: Edge, b: seq<Edge>, ids: set<string>, id: string)
    ensures
      var inside := e.from in ids && e.to in ids;
      && Into(a + [e] + b, ids, id)
         == Into(a, ids, id) + (if inside && e.to == id then [e.from] else []) + Into(b, ids, id)
      && OutOf(a + [e] + b, ids, id)
         == OutOf(a, ids, id) + (if inside && e.from == id then [e.to] else []) + OutOf(b, ids, id)
  {
    IntoConcat(a + [e], b, ids, id);
    OutOfConcat(a + [e], b, ids, id);
    assert (a + [e])[..|a|] == a;
  }

  function StepsFrom(dependencies: map<string, seq<string>>, nodes: seq<PaperNode>): seq<ProofStep> {
    if nodes == [] then []
    else [ProofStep(nodes[0].id, Listed(dependencies, nodes[0].id))] + StepsFrom(dependencies, nodes[1..])
  }

  lemma {:induction false} StepsFromLists(
    dependencies: map<string, seq<string>>, edges: seq<Edge>, ids: set<string>, nodes: seq<PaperNode>
  )
    requires ListsInto(dependencies, edges, ids)
    ensures StepsFrom(dependencies, nodes) == StepsOf(edges, ids, nodes)
  {
    if nodes != [] {
      StepsFromLists(dependencies, edges, ids, nodes[1..]);
    }
  }

  method BuildStrategy(structure: Structure, index: nat) returns (strategy: Strategy)
    ensures strategy == StrategyOf(structure, index)
  {
    var nodes := NodesOf(structure, index);
    var dependencies := Dependencies(structure.edges, Ids(nodes));
    StepsFromLists(dependencies, structure.edges, Ids(nodes), nodes);
    strategy := Strategy("m" + Decimal(index + 1), StepsFrom(dependencies, nodes));
  }

  /** The strategies of the first `k` manuscripts. */
  function FirstStrategies(structure: Structure, k: nat): seq<Strategy> {
    if k == 0 then [] else FirstStrategies(structure, k - 1) + [StrategyOf(structure, k - 1)]
  }

  /** One strategy a manuscript, leaving out those without steps. */
  function Strategies(structure: Structure): seq<Strategy> {
    Filter(FirstStrategies(structure, |structure.manuscripts|), (s: Strategy) => s.steps != [])
  }

  function TotalDependence(strategies: seq<Strategy>): nat {
    if strategies == [] then 0 else Dependence(strategies[0].steps) + TotalDependence(strategies[1..])
  }

  function Dependence(steps: seq<ProofStep>): nat {
    if steps == [] then 0 else |steps[0].dependsOn| + Dependence(steps[1..])
  }

  predicate UniqueIds(nodes: seq<PaperNode>) {
    forall i, j :: 0 <= i < j < |nodes| ==> nodes[i].id != nodes[j].id
  }

  function Within(edges: seq<Edge>, ids: set<string>): nat {
    if edges == [] then 0
    else Within(edges[..|edges| - 1], ids) + if Inside(edges[|edges| - 1], ids) then 1 else 0
  }

  /** The nodes among `nodes` that `id` names: one or none. */
  function Named(nodes: seq<PaperNode>, id: string): nat {
    if nodes == [] then 0 else (if nodes[0].id == id then 1 else 0) + Named(nodes[1..], id)
  }

  lemma {:induction false} NamedOnce(nodes: seq<PaperNode>, id: string)
    requires UniqueIds(nodes)
    ensures Named(nodes, id) == if id in Ids(nodes) then 1 else 0
    decreases |nodes|
  {
    if nodes != [] {
      var rest := nodes[1..];
      assert UniqueIds(rest) by {
        assert forall i :: 0 <= i < |rest| ==> rest[i] == nodes[i + 1];
      }
      NamedOnce(rest, id);
      assert Ids(nodes) == {nodes[0].id} + Ids(rest);
      assert nodes[0].id !in Ids(rest);
    }
  }

  /** One more edge lengthens the list of the node it points to, and only that. */
  lemma {:induction false} OneMoreEdge(edges: seq<Edge>, ids: set<string>, nodes: seq<PaperNode>)
    requires edges != []
    ensures
      var before, last := edges[..|edges| - 1], edges[|edges| - 1];
      Dependence(StepsOf(edges, ids, nodes))
      == Dependence(StepsOf(before, ids, nodes)) + if Inside(last, ids) then Named(nodes, last.to) else 0
    decreases |nodes|
  {
    if nodes != [] {
      OneMoreEdge(edges, ids, nodes[1..]);
    }
  }

  lemma {:induction false} NoEdges(ids: set<string>, nodes: seq<PaperNode>)
    ensures Dependence(StepsOf([], ids, nodes)) == 0
    decreases |nodes|
  {
    if nodes != [] {
      NoEdges(ids, nodes[1..]);
    }
  }

  /** The dependencies listed in a strategy are as many as its own edges. */
  lemma {:induction false} StrategyKeepsItsEdges(edges: seq<Edge>, nodes: seq<PaperNode>)
    requires UniqueIds(nodes)
    ensures Dependence(StepsOf(edges, Ids(nodes), nodes)) == Within(edges, Ids(nodes))
    decreases |edges|
  {
    if edges == [] {
      NoEdges(Ids(nodes), nodes);
    } else {
      StrategyKeepsItsEdges(edges[..|edges| - 1], nodes);
      OneMoreEdge(edges, Ids(nodes), nodes);
      NamedOnce(nodes, edges[|edges| - 1].to);
    }
  }

  lemma {:induction false} FilterMembers<T>(s: seq<T>, p: T -> bool, x: T)
    ensures x in Filter(s, p) <==> x in s && p(x)
  {
    if s != [] {
      FilterMembers(s[1..], p, x);
      assert x in s <==> x == s[0] || x in s[1..];
    }
  }

  lemma {:induction false} FilterKeepsUnique(nodes: seq<PaperNode>, p: PaperNode -> bool)
    requires UniqueIds(nodes)
    ensures UniqueIds(Filter(nodes, p))
    decreases |nodes|
  {
    if nodes != [] {
      var rest := nodes[1..];
      assert UniqueIds(rest) by {
        assert forall i :: 0 <= i < |rest| ==> rest[i] == nodes[i + 1];
      }
      FilterKeepsUnique(rest, p);
      forall j | 0 <= j < |Filter(rest, p)|
        ensures Filter(rest, p)[j].id != nodes[0].id
      {
        FilterMembers(rest, p, Filter(rest, p)[j]);
        var i :| 0 <= i < |rest| && rest[i] == Filter(rest, p)[j];
        assert nodes[i + 1] == rest[i];
      }
    }
  }

  function IdsOf(structure: Structure, index: nat): set<string> { Ids(NodesOf(structure, index)) }

  lemma {:induction false} IdsHavePrefix(structure: Structure, index: nat, id: string)
    requires id in IdsOf(structure, index)
    ensures StartsWith(id, Prefix(index)) && id in Ids(structure.nodes)
  {
    var n :| n in NodesOf(structure, index) && n.id == id;
    FilterMembers(structure.nodes, (n: PaperNode) => StartsWith(n.id, Prefix(index)), n);
  }

  /** No node is in two strategies. */
  lemma {:induction false} StrategiesAreDisjoint(structure: Structure, i: nat, j: nat)
    requires i != j
    ensures IdsOf(structure, i) !! IdsOf(structure, j)
  {
    forall id | id in IdsOf(structure, i) && id in IdsOf(structure, j)
      ensures false
    {
      IdsHavePrefix(structure, i, id);
      IdsHavePrefix(structure, j, id);
      OneManuscriptEach(i, j, id);
    }
  }

  lemma {:induction false} IntoIsInside(edges: seq<Edge>, ids: set<string>, id: string)
    ensures forall d :: d in Into(edges, ids, id) ==> d in ids && id in ids
    decreases |edges|
  {
    if edges != [] {
      IntoIsInside(edges[..|edges| - 1], ids, id);
    }
  }

  lemma {:induction false} StepAt(edges: seq<Edge>, ids: set<string>, nodes: seq<PaperNode>, k: nat)
    requires k < |nodes|
    ensures |StepsOf(edges, ids, nodes)| == |nodes|
    ensures StepsOf(edges, ids, nodes)[k] == ProofStep(nodes[k].id, Into(edges, ids, nodes[k].id))
    decreases |nodes|
  {
    if k > 0 {
      StepAt(edges, ids, nodes[1..], k - 1);
    } else if |nodes| > 1 {
      StepAt(edges, ids, nodes[1..], 0);
    } else {
      assert nodes[1..] == [];
    }
  }

  /** Whatever a step depends on is another step of the same strategy. */
  lemma {:induction false} DependenciesStayInside(structure: Structure, index: nat, k: nat, d: string)
    requires k < |NodesOf(structure, index)|
    requires
      var steps := StrategyOf(structure, index).steps;
      k < |steps| && d in steps[k].dependsOn
    ensures d in IdsOf(structure, index)
  {
    var nodes := NodesOf(structure, index);
    StepAt(structure.edges, Ids(nodes), nodes, k);
    IntoIsInside(structure.edges, Ids(nodes), nodes[k].id);
  }

  // ---- Conservation of edges ----

  /** Both ends are nodes of one of the first `k` manuscripts. */
  predicate Shared(structure: Structure, k: nat, e: Edge) {
    exists m: nat :: m < k && Inside(e, IdsOf(structure, m))
  }

  function SharedEdges(structure: Structure, k: nat, edges: seq<Edge>): nat {
    if edges == [] then 0
    else SharedEdges(structure, k, edges[..|edges| - 1]) + if Shared(structure, k, edges[|edges| - 1]) then 1 else 0
  }

  lemma {:induction false} SharedOnce(structure: Structure, k: nat, e: Edge)
    ensures Shared(structure, k + 1, e) <==> Shared(structure, k, e) || Inside(e, IdsOf(structure, k))
    ensures !(Shared(structure, k, e) && Inside(e, IdsOf(structure, k)))
  {
    if Shared(structure, k, e) {
      var m: nat :| m < k && Inside(e, IdsOf(structure, m));
      StrategiesAreDisjoint(structure, m, k);
    }
  }

  lemma {:induction false} OneMoreManuscript(structure: Structure, k: nat, edges: seq<Edge>)
    ensures SharedEdges(structure, k + 1, edges) == SharedEdges(structure, k, edges)
        + Within(edges, IdsOf(structure, k))
    decreases |edges|
  {
    if edges != [] {
      OneMoreManuscript(structure, k, edges[..|edges| - 1]);
      SharedOnce(structure, k, edges[|edges| - 1]);
    }
  }

  lemma {:induction false} TotalConcat(a: seq<Strategy>, b: seq<Strategy>)
    ensures TotalDependence(a + b) == TotalDependence(a) + TotalDependence(b)
    decreases |a|
  {
    if a == [] {
      assert a + b == b;
    } else {
      TotalConcat(a[1..], b);
      assert (a + b)[1..] == a[1..] + b;
    }
  }

  lemma {:induction false} EmptyStrategiesAddNothing(s: seq<Strategy>)
    ensures TotalDependence(Filter(s, (x: Strategy) => x.steps != [])) == TotalDependence(s)
    decreases |s|
  {
    if s != [] {
      var p := (x: Strategy) => x.steps != [];
      EmptyStrategiesAddNothing(s[1..]);
      TotalConcat(if p(s[0]) then [s[0]] else [], Filter(s[1..], p));
    }
  }

  lemma {:induction false} FirstKeepEdges(structure: Structure, k: nat)
    requires UniqueIds(structure.nodes)
    ensures TotalDependence(FirstStrategies(structure, k)) == SharedEdges(structure, k, structure.edges)
    decreases k
  {
    if k == 0 {
      NothingShared(structure, structure.edges);
    } else {
      FirstKeepEdges(structure, k - 1);
      OneMoreManuscript(structure, k - 1, structure.edges);
      FilterKeepsUnique(structure.nodes, (n: PaperNode) => StartsWith(n.id, Prefix(k - 1)));
      StrategyKeepsItsEdges(structure.edges, NodesOf(structure, k - 1));
      TotalConcat(FirstStrategies(structure, k - 1), [StrategyOf(structure, k - 1)]);
    }
  }

  lemma {:induction false} NothingShared(structure: Structure, edges: seq<Edge>)
    ensures SharedEdges(structure, 0, edges) == 0
    decreases |edges|
  {
    if edges != [] {
      NothingShared(structure, edges[..|edges| - 1]);
    }
  }

  /** With unique ids, the graph draws as many dependencies as there are edges whose two ends
      are in one manuscript. */
  lemma {:induction false} GraphKeepsEdges(structure: Structure)
    requires UniqueIds(structure.nodes)
    ensures TotalDependence(Strategies(structure))
            == SharedEdges(structure, |structure.manuscripts|, structure.edges)
  {
    EmptyStrategiesAddNothing(FirstStrategies(structure, |structure.manuscripts|));
    FirstKeepEdges(structure, |structure.manuscripts|);
  }

  // ---- Edge by edge ----

  /** How often the steps draw edge `e`: `e.from` among the dependencies of steps named `e.to`. */
  function DrawnIn(steps: seq<ProofStep>, e: Edge): nat {
    if steps == [] then 0
    else (if steps[0].id == e.to then Count(steps[0].dependsOn, e.from) else 0) + DrawnIn(steps[1..], e)
  }

  function Drawn(strategies: seq<Strategy>, e: Edge): nat {
    if strategies == [] then 0 else DrawnIn(strategies[0].steps, e) + Drawn(strategies[1..], e)
  }

  lemma {:induction false} FirstStepDraws(edges: seq<Edge>, ids: set<string>, nodes: seq<PaperNode>, e: Edge)
    requires nodes != []
    ensures DrawnIn(StepsOf(edges, ids, nodes), e)
         == (if nodes[0].id == e.to then Count(Into(edges, ids, e.to), e.from) else 0)
            + DrawnIn(StepsOf(edges, ids, nodes[1..]), e)
  {
    assert StepsOf(edges, ids, nodes)[1..] == StepsOf(edges, ids, nodes[1..]);
  }

  lemma {:induction false} OnceMore(count: nat, first: bool, n: nat)
    ensures count * ((if first then 1 else 0) + n) == (if first then count else 0) + count * n
  {
  }

  lemma {:induction false} StepsDraw(edges: seq<Edge>, ids: set<string>, nodes: seq<PaperNode>, e: Edge)
    ensures DrawnIn(StepsOf(edges, ids, nodes), e) == Count(Into(edges, ids, e.to), e.from) * Named(nodes, e.to)
    decreases |nodes|
  {
    if nodes != [] {
      StepsDraw(edges, ids, nodes[1..], e);
      FirstStepDraws(edges, ids, nodes, e);
      OnceMore(Count(Into(edges, ids, e.to), e.from), nodes[0].id == e.to, Named(nodes[1..], e.to));
    }
  }

  lemma {:induction false} StrategyDraws(edges: seq<Edge>, nodes: seq<PaperNode>, e: Edge)
    requires UniqueIds(nodes)
    ensures DrawnIn(StepsOf(edges, Ids(nodes), nodes), e) == if Inside(e, Ids(nodes)) then Count(edges, e) else 0
  {
    StepsDraw(edges, Ids(nodes), nodes, e);
    NamedOnce(nodes, e.to);
    IntoCounts(edges, Ids(nodes), e.from, e.to);
  }

  lemma {:induction false} DrawnConcat(a: seq<Strategy>, b: seq<Strategy>, e: Edge)
    ensures Drawn(a + b, e) == Drawn(a, e) + Drawn(b, e)
    decreases |a|
  {
    if a == [] {
      assert a + b == b;
    } else {
      DrawnConcat(a[1..], b, e);
      assert (a + b)[1..] == a[1..] + b;
    }
  }

  lemma {:induction false} EmptyStrategiesDrawNothing(s: seq<Strategy>, e: Edge)
    ensures Drawn(Filter(s, (x: Strategy) => x.steps != []), e) == Drawn(s, e)
    decreases |s|
  {
    if s != [] {
      var p := (x: Strategy) => x.steps != [];
      EmptyStrategiesDrawNothing(s[1..], e);
      DrawnConcat(if p(s[0]) then [s[0]] else [], Filter(s[1..], p), e);
    }
  }

  lemma {:induction false} FirstDraw(structure: Structure, k: nat, e: Edge)
    requires UniqueIds(structure.nodes)
    ensures Drawn(FirstStrategies(structure, k), e) == if Shared(structure, k, e) then Count(structure.edges, e) else 0
    decreases k
  {
    if k > 0 {
      FirstDraw(structure, k - 1, e);
      SharedOnce(structure, k - 1, e);
      FilterKeepsUnique(structure.nodes, (n: PaperNode) => StartsWith(n.id, Prefix(k - 1)));
      StrategyDraws(structure.edges, NodesOf(structure, k - 1), e);
      DrawnConcat(FirstStrategies(structure, k - 1), [StrategyOf(structure, k - 1)], e);
    }
  }

  /** With unique ids, the graph draws an edge as often as the paper lists it when one
      manuscript has both its ends, and otherwise not at all. */
  lemma {:induction false} EachEdgeIsDrawn(structure: Structure, e: Edge)
    requires UniqueIds(structure.nodes)
    ensures Drawn(Strategies(structure), e)
            == if Shared(structure, |structure.manuscripts|, e) then Count(structure.edges, e) else 0
  {
    EmptyStrategiesDrawNothing(FirstStrategies(structure, |structure.manuscripts|), e);
    FirstDraw(structure, |structure.manuscripts|, e);
  }

  // ---- Display by section ----

  datatype Section = Section(title: Option<string>, nodes: seq<PaperNode>)

  datatype Group = Group(title: Option<string>, sections: seq<Section>)

  /** A section that is missing or blank. */
  predicate Unsectioned(n: PaperNode) {
    n.section.None? || n.section.value == ""
  }

  function Titled(sections: seq<string>, nodes: seq<PaperNode>): seq<Section> {
    if sections == [] then []
    else
      var own := Filter(nodes, (n: PaperNode) => n.section == Some(sections[0]));
      [Section(Some(sections[0]), own)] + Titled(sections[1..], nodes)
  }

  predicate Occupied(s: Section) { s.nodes != [] }

  function SectionsFor(sections: seq<string>, nodes: seq<PaperNode>): seq<Section> {
    Filter(Filter(Titled(sections, nodes), Occupied) + [Section(None, Filter(nodes, Unsectioned))], Occupied)
  }

  function ByManuscript(structure: Structure, titles: seq<string>): seq<Group> {
    if titles == [] then []
    else
      var own := Filter(structure.nodes, (n: PaperNode) => n.manuscript == titles[0]);
      [Group(Some(titles[0]), SectionsFor(structure.sections, own))] + ByManuscript(structure, titles[1..])
  }

  function ManuscriptGroups(structure: Structure): seq<Group> {
    if |structure.manuscripts| > 1
    then Filter(ByManuscript(structure, structure.manuscripts), (g: Group) => g.sections != [])
    else [Group(None, SectionsFor(structure.sections, structure.nodes))]
  }

  // How often a node is drawn.

  function InSections(sections: seq<Section>, n: PaperNode): nat {
    if sections == [] then 0 else Count(sections[0].nodes, n) + InSections(sections[1..], n)
  }

  function InGroups(groups: seq<Group>, n: PaperNode): nat {
    if groups == [] then 0 else InSections(groups[0].sections, n) + InGroups(groups[1..], n)
  }

  function SectionCopies(sections: seq<string>, n: PaperNode): nat {
    (if n.section.Some? then Count(sections, n.section.value) else 0) + (if Unsectioned(n) then 1 else 0)
  }

  /** As often as its section is listed, once more when it has none, and all that as often
      as its manuscript's title is listed, if there are several manuscripts. */
  function Copies(structure: Structure, n: PaperNode): nat {
    SectionCopies(structure.sections, n)
    * (if |structure.manuscripts| > 1 then Count(structure.manuscripts, n.manuscript) else 1)
  }

  lemma {:induction false} InSectionsConcat(a: seq<Section>, b: seq<Section>, n: PaperNode)
    ensures InSections(a + b, n) == InSections(a, n) + InSections(b, n)
    decreases |a|
  {
    if a == [] {
      assert a + b == b;
    } else {
      InSectionsConcat(a[1..], b, n);
      assert (a + b)[1..] == a[1..] + b;
    }
  }

  lemma {:induction false} EmptySectionsDrawNothing(sections: seq<Section>, n: PaperNode)
    ensures InSections(Filter(sections, Occupied), n) == InSections(sections, n)
  {
    if sections != [] {
      EmptySectionsDrawNothing(sections[1..], n);
      InSectionsConcat(if Occupied(sections[0]) then [sections[0]] else [], Filter(sections[1..], Occupied), n);
    }
  }

  lemma {:induction false} FirstTitleDraws(sections: seq<string>, nodes: seq<PaperNode>, n: PaperNode)
    requires sections != []
    ensures InSections(Titled(sections, nodes), n)
         == (if n.section == Some(sections[0]) then Count(nodes, n) else 0)
            + InSections(Titled(sections[1..], nodes), n)
  {
    var p := (m: PaperNode) => m.section == Some(sections[0]);
    CountFilter(nodes, p, n);
    var first := Section(Some(sections[0]), Filter(nodes, p));
    InSectionsConcat([first], Titled(sections[1..], nodes), n);
  }

  lemma {:induction false} TitledDraws(sections: seq<string>, nodes: seq<PaperNode>, n: PaperNode)
    ensures InSections(Titled(sections, nodes), n)
            == Count(nodes, n) * (if n.section.Some? then Count(sections, n.section.value) else 0)
  {
    if sections != [] {
      TitledDraws(sections[1..], nodes, n);
      FirstTitleDraws(sections, nodes, n);
      OnceMore(Count(nodes, n), n.section == Some(sections[0]),
               if n.section.Some? then Count(sections[1..], n.section.value) else 0);
    }
  }

  lemma {:induction false} Distribute(x: nat, y: nat, z: nat)
    ensures x * (y + z) == x * y + x * z
  {
  }

  lemma {:induction false} SectionsDraw(sections: seq<string>, nodes: seq<PaperNode>, n: PaperNode)
    ensures InSections(SectionsFor(sections, nodes), n) == Count(nodes, n) * SectionCopies(sections, n)
  {
    var titled := Titled(sections, nodes);
    var rest := Section(None, Filter(nodes, Unsectioned));
    EmptySectionsDrawNothing(Filter(titled, Occupied) + [rest], n);
    assert InSections(SectionsFor(sections, nodes), n) == InSections(Filter(titled, Occupied) + [rest], n);
    InSectionsConcat(Filter(titled, Occupied), [rest], n);
    EmptySectionsDrawNothing(titled, n);
    TitledDraws(sections, nodes, n);
    CountFilter(nodes, Unsectioned, n);
    Distribute(Count(nodes, n), if n.section.Some? then Count(sections, n.section.value) else 0,
               if Unsectioned(n) then 1 else 0);
  }

  lemma {:induction false} InGroupsConcat(a: seq<Group>, b: seq<Group>, n: PaperNode)
    ensures InGroups(a + b, n) == InGroups(a, n) + InGroups(b, n)
    decreases |a|
  {
    if a == [] {
      assert a + b == b;
    } else {
      InGroupsConcat(a[1..], b, n);
      assert (a + b)[1..] == a[1..] + b;
    }
  }

  lemma {:induction false} EmptyGroupsDrawNothing(groups: seq<Group>, n: PaperNode)
    ensures InGroups(Filter(groups, (g: Group) => g.sections != []), n) == InGroups(groups, n)
  {
    if groups != [] {
      var p := (g: Group) => g.sections != [];
      EmptyGroupsDrawNothing(groups[1..], n);
      InGroupsConcat(if p(groups[0]) then [groups[0]] else [], Filter(groups[1..], p), n);
    }
  }

  lemma {:induction false} ManuscriptDraws(structure: Structure, title: string, n: PaperNode)
    ensures
      var own := Filter(structure.nodes, (m: PaperNode) => m.manuscript == title);
      InSections(SectionsFor(structure.sections, own), n)
      == if n.manuscript == title then Count(structure.nodes, n) * SectionCopies(structure.sections, n) else 0
  {
    var p := (m: PaperNode) => m.manuscript == title;
    SectionsDraw(structure.sections, Filter(structure.nodes, p), n);
    CountFilter(structure.nodes, p, n);
  }

  lemma {:induction false} GroupsUnfold(structure: Structure, titles: seq<string>, n: PaperNode)
    requires titles != []
    ensures
      InGroups(ByManuscript(structure, titles), n)
      == (if n.manuscript == titles[0] then Count(structure.nodes, n) * SectionCopies(structure.sections, n) else 0)
         + InGroups(ByManuscript(structure, titles[1..]), n)
  {
    ManuscriptDraws(structure, titles[0], n);
    var own := Filter(structure.nodes, (m: PaperNode) => m.manuscript == titles[0]);
    var group := Group(Some(titles[0]), SectionsFor(structure.sections, own));
    InGroupsConcat([group], ByManuscript(structure, titles[1..]), n);
  }

  lemma {:induction false} ManuscriptsDraw(structure: Structure, titles: seq<string>, n: PaperNode, each: nat)
    requires each == Count(structure.nodes, n) * SectionCopies(structure.sections, n)
    ensures InGroups(ByManuscript(structure, titles), n) == each * Count(titles, n.manuscript)
    decreases |titles|
  {
    if titles != [] {
      GroupsUnfold(structure, titles, n);
      ManuscriptsDraw(structure, titles[1..], n, each);
      Distribute(each, if n.manuscript == titles[0] then 1 else 0, Count(titles[1..], n.manuscript));
    }
  }

  /** How often the page draws a node, for any lists of sections and manuscripts. */
  lemma {:induction false} NodesAreDrawn(structure: Structure, n: PaperNode)
    ensures InGroups(ManuscriptGroups(structure), n) == Count(structure.nodes, n) * Copies(structure, n)
  {
    if |structure.manuscripts| > 1 {
      EmptyGroupsDrawNothing(ByManuscript(structure, structure.manuscripts), n);
      ManuscriptsDraw(structure, structure.manuscripts, n,
                      Count(structure.nodes, n) * SectionCopies(structure.sections, n));
      Associate(Count(structure.nodes, n), SectionCopies(structure.sections, n),
                Count(structure.manuscripts, n.manuscript));
    } else {
      SectionsDraw(structure.sections, structure.nodes, n);
    }
  }

  lemma {:induction false} Associate(x: nat, y: nat, z: nat)
    ensures x * y * z == x * (y * z)
  {
  }

  lemma {:induction false} CountDistinct(s: seq<string>, x: string)
    requires Distinct(s)
    ensures Count(s, x) == if x in s then 1 else 0
    decreases |s|
  {
    if s != [] {
      assert forall i :: 0 <= i < |s[1..]| ==> s[1..][i] == s[i + 1];
      CountDistinct(s[1..], x);
      assert x in s <==> x == s[0] || x in s[1..];
    }
  }

  lemma {:induction false} SectionedOnce(sections: seq<string>, n: PaperNode)
    requires Distinct(sections) && "" !in sections
    ensures SectionCopies(sections, n) == if Unsectioned(n) || n.section.value in sections then 1 else 0
  {
    if n.section.Some? {
      CountDistinct(sections, n.section.value);
    }
  }

  /** When titles and sections are listed once each and no listed section is blank, a node is
      drawn exactly once if its section is absent, blank or listed and, among several
      manuscripts, its own is listed; otherwise it is not drawn at all. */
  lemma {:induction false} DrawnOnceIffListed(structure: Structure, n: PaperNode)
    requires Count(structure.nodes, n) == 1
    requires Distinct(structure.sections)
    requires Distinct(structure.manuscripts)
    requires "" !in structure.sections
    ensures
      InGroups(ManuscriptGroups(structure), n)
      == if && (Unsectioned(n) || n.section.value in structure.sections)
            && (|structure.manuscripts| > 1 ==> n.manuscript in structure.manuscripts)
         then 1 else 0
  {
    NodesAreDrawn(structure, n);
    assert 1 * Copies(structure, n) == Copies(structure, n);
    SectionedOnce(structure.sections, n);
    CountDistinct(structure.manuscripts, n.manuscript);
  }

  /** A node in a section listed twice is drawn twice, and so is one whose blank section is
      also listed. */
  lemma {:induction false} ListedTwiceIsDrawnTwice(n: PaperNode, s: string)
    requires n.section == Some(s)
    ensures InGroups(ManuscriptGroups(Structure([s, s], [], [n], [])), n) == if s == "" then 3 else 2
    ensures s == "" ==> InGroups(ManuscriptGroups(Structure([s], [], [n], [])), n) == 2
  {
    NodesAreDrawn(Structure([s, s], [], [n], []), n);
    NodesAreDrawn(Structure([s], [], [n], []), n);
    assert [s, s][1..] == [s];
    assert Count([s], s) == 1 && Count([s, s], s) == 2 && Count([n], n) == 1;
  }
}