/**
 The differential test selector (engine/testing/differential.py): the closure
 over imports, and the tests it selects. Paths are already module names.
 */
module Differential {
  import opened IdOrder

  type Module = Id
  type Imports = map<Module, set<Module>>

  function ImportsOf(g: Imports, m: Module): set<Module> {
    if m in g then g[m] else {}
  }

  /** Each module of the path imports the next. */
  ghost predicate IsPath(g: Imports, p: seq<Module>) {
    p != [] && forall i, j :: 0 <= i < j < |p| && j == i + 1 ==> p[j] in ImportsOf(g, p[i])
  }

  /** An import path leads from a module of `start` to `m`. */
  ghost predicate Reaches(g: Imports, start: set<Module>, m: Module) {
    exists p :: IsPath(g, p) && p[0] in start && p[|p| - 1] == m
  }

  /** `s` is the transitive closure of `start`. */
  ghost predicate IsClosure(g: Imports, start: set<Module>, s: set<Module>) {
    forall m :: m in s <==> Reaches(g, start, m)
  }

  ghost predicate Closed(g: Imports, s: set<Module>) {
    forall m :: m in s ==> ImportsOf(g, m) <= s
  }

  lemma {:induction false} PathStaysInside(g: Imports, s: set<Module>, p: seq<Module>, i: nat)
    requires Closed(g, s) && IsPath(g, p) && p[0] in s && i < |p|
    ensures p[i] in s
  {
    if i > 0 {
      PathStaysInside(g, s, p, i - 1);
      assert p[i] in ImportsOf(g, p[i - 1]);
    }
  }

  lemma StartIsReached(g: Imports, start: set<Module>, m: Module)
    requires m in start
    ensures Reaches(g, start, m)
  {
    assert IsPath(g, [m]);
  }

  lemma ImportIsReached(g: Imports, start: set<Module>, m: Module, next: Module)
    requires Reaches(g, start, m) && next in ImportsOf(g, m)
    ensures Reaches(g, start, next)
  {
    var p :| IsPath(g, p) && p[0] in start && p[|p| - 1] == m;
    assert IsPath(g, p + [next]);
  }

  /** Every module the closure can meet. */
  function Universe(g: Imports, start: set<Module>): set<Module> {
    start + set m, next | m in g && next in g[m] :: next
  }

  function Elements(s: seq<Module>): set<Module> {
    set m | m in s
  }

  lemma ElementsConcat(a: seq<Module>, b: seq<Module>)
    ensures Elements(a + b) == Elements(a) + Elements(b)
    ensures forall m :: Elements([m]) == {m}
  {
  }

  /** A set in whatever order it is iterated. */
  method AnyOrder(s: set<Module>) returns (order: seq<Module>)
    ensures Elements(order) == s
  {
    order := [];
    var left := s;
    while left != {}
      invariant left <= s && Elements(order) == s - left
      decreases left
    {
      var m :| m in left;
      ElementsConcat(order, [m]);
      order := order + [m];
      left := left - {m};
    }
  }

  lemma ElementsSnoc(s: seq<Module>)
    requires s != []
    ensures Elements(s) == Elements(s[..|s| - 1]) + {s[|s| - 1]}
  {
    assert s == s[..|s| - 1] + [s[|s| - 1]];
  }

  /** The modules reached from `start`, all of which the imports mention. */
  ghost function ReachSet(g: Imports, start: set<Module>): set<Module> {
    set m | m in Universe(g, start) && Reaches(g, start, m)
  }

  lemma ReachSetIsClosure(g: Imports, start: set<Module>)
    ensures IsClosure(g, start, ReachSet(g, start)) && Closed(g, ReachSet(g, start)) && start <= ReachSet(g, start)
  {
    forall m | Reaches(g, start, m) ensures m in Universe(g, start) {
      var p :| IsPath(g, p) && p[0] in start && p[|p| - 1] == m;
      PathStaysInside(g, Universe(g, start), p, |p| - 1);
    }
    forall m | m in start ensures Reaches(g, start, m) {
      StartIsReached(g, start, m);
    }
    forall m, next | m in ReachSet(g, start) && next in ImportsOf(g, m) ensures Reaches(g, start, next) {
      ImportIsReached(g, start, m, next);
    }
  }

  /** What the loop of `_reachable` keeps; `pending` are the modules on its stack. */
  ghost predicate Exploring(g: Imports, start: set<Module>, reach: set<Module>, seen: set<Module>,
                            pending: set<Module>) {
    && start <= seen + pending <= reach
    && forall m :: m in seen ==> ImportsOf(g, m) <= seen + pending
  }

  lemma SkipSeen(g: Imports, start: set<Module>, reach: set<Module>, seen: set<Module>, pending: set<Module>,
                 module_: Module)
    requires Exploring(g, start, reach, seen, pending + {module_}) && module_ in seen
    ensures Exploring(g, start, reach, seen, pending)
  {
    assert seen + (pending + {module_}) == seen + pending;
  }

  lemma Visit(g: Imports, start: set<Module>, reach: set<Module>, seen: set<Module>, pending: set<Module>,
              module_: Module)
    requires Closed(g, reach) && Exploring(g, start, reach, seen, pending + {module_})
    ensures Exploring(g, start, reach, seen + {module_}, pending + ImportsOf(g, module_))
    ensures module_ in reach
  {
    assert module_ in seen + (pending + {module_});
    assert ImportsOf(g, module_) <= reach;
  }

  lemma ClosedIsReachable(g: Imports, start: set<Module>, reach: set<Module>, seen: set<Module>)
    requires IsClosure(g, start, reach) && Exploring(g, start, reach, seen, {})
    ensures IsClosure(g, start, seen)
  {
    forall m | Reaches(g, start, m) ensures m in seen {
      var p :| IsPath(g, p) && p[0] in start && p[|p| - 1] == m;
      PathStaysInside(g, seen, p, |p| - 1);
    }
  }

  /** `_reachable`: terminates, and returns exactly the modules that an import path from `start` leads to. */
  method Reachable(start: seq<Module>, g: Imports) returns (seen: set<Module>)
    ensures IsClosure(g, Elements(start), seen)
  {
    ghost var from := Elements(start);
    ghost var reach := ReachSet(g, from);
    ReachSetIsClosure(g, from);
    seen := {};
    var stack := start;
    while stack != []
      invariant Exploring(g, from, reach, seen, Elements(stack))
      decreases reach - seen, |stack|
    {
      var module_ := stack[|stack| - 1];
      ElementsSnoc(stack);
      stack := stack[..|stack| - 1];
      if module_ in seen {
        SkipSeen(g, from, reach, seen, Elements(stack), module_);
      } else {
        Visit(g, from, reach, seen, Elements(stack), module_);
        var more := AnyOrder(ImportsOf(g, module_));
        ElementsConcat(stack, more);
        seen := seen + {module_};
        stack := stack + more;
      }
    }
    ClosedIsReachable(g, from, reach, seen);
  }

  method ReachableFromSet(start: set<Module>, g: Imports) returns (seen: set<Module>)
    ensures IsClosure(g, start, seen)
  {
    var order := AnyOrder(start);
    assert Elements(order) == start;
    seen := Reachable(order, g);
  }

  // --- selection ---------------------------------------------------------------

  type Test = Id

  /** What the injected loader did; `Raised` carries the text of its exception. */
  datatype Loaded = Graph(modules: map<Test, set<Module>>) | ReturnedNone | Raised(detail: string)

  datatype Selection = Selection(tests: seq<Test>, fullSuite: bool, reason: string)

  ghost predicate IsGraphOf(graph: map<Test, set<Module>>, direct: map<Test, set<Module>>, g: Imports) {
    graph.Keys == direct.Keys && forall t :: t in graph ==> IsClosure(g, direct[t], graph[t])
  }

  /** `build_dependency_graph`, from the direct imports of each test file. */
  method BuildDependencyGraph(direct: map<Test, set<Module>>, g: Imports) returns (graph: map<Test, set<Module>>)
    ensures IsGraphOf(graph, direct, g)
  {
    graph := map[];
    var todo := direct.Keys;
    while todo != {}
      invariant todo <= direct.Keys && graph.Keys == direct.Keys - todo
      invariant forall t :: t in graph ==> t in direct && IsClosure(g, direct[t], graph[t])
      decreases todo
    {
      var t :| t in todo;
      var reached := ReachableFromSet(direct[t], g);
      graph := graph[t := reached];
      todo := todo - {t};
    }
  }

  function Reason(loaded: Loaded): string
    requires !loaded.Graph?
  {
    var detail := if loaded.Raised? then loaded.detail else "loader returned None";
    "dependency graph unavailable (" + detail + "); running full suite"
  }

  /** `select_tests`. */
  function SelectTests(changed: set<Module>, loaded: Loaded, all: seq<Test>): Selection {
    match loaded
    case Graph(modules) => Selection(SortedSet(set t | t in modules && modules[t] * changed != {}), false, "")
    case _ => Selection(Sorted(all), true, Reason(loaded))
  }

  /** Test `t`, with these direct imports, depends on a changed module. */
  ghost predicate Depends(direct: map<Test, set<Module>>, g: Imports, t: Test, changed: set<Module>) {
    t in direct && exists m :: m in changed && Reaches(g, direct[t], m)
  }

  /** A test is selected exactly when an import path leads from it to a changed module; once, and in order. */
  lemma SelectionIsExact(direct: map<Test, set<Module>>, g: Imports, graph: map<Test, set<Module>>,
                         changed: set<Module>, all: seq<Test>)
    requires IsGraphOf(graph, direct, g)
    ensures var selection := SelectTests(changed, Graph(graph), all);
            && !selection.fullSuite
            && IsSorted(selection.tests) && Distinct(selection.tests)
            && forall t :: t in selection.tests <==> Depends(direct, g, t, changed)
  {
    var chosen := set t | t in graph && graph[t] * changed != {};
    forall t ensures t in chosen <==> Depends(direct, g, t, changed) {
      if t in chosen {
        var m :| m in graph[t] * changed;
        assert m in changed && Reaches(g, direct[t], m);
      }
      if Depends(direct, g, t, changed) {
        var m :| m in changed && Reaches(g, direct[t], m);
        assert m in graph[t] * changed;
      }
    }
  }

  /** Without a graph every test runs, whatever changed, and the result says so. */
  lemma FallbackRunsEverything(changed: set<Module>, loaded: Loaded, all: seq<Test>)
    ensures SelectTests(changed, loaded, all).fullSuite <==> !loaded.Graph?
    ensures !loaded.Graph? ==> multiset(SelectTests(changed, loaded, all).tests) == multiset(all)
                               && SelectTests(changed, loaded, all).reason != ""
  {
  }

  /** Selecting for two change sets together is selecting for each, so a larger change never selects less. */
  lemma SelectionIsAdditive(direct: map<Test, set<Module>>, g: Imports, graph: map<Test, set<Module>>,
                            a: set<Module>, b: set<Module>, all: seq<Test>, t: Test)
    requires IsGraphOf(graph, direct, g)
    ensures t in SelectTests(a + b, Graph(graph), all).tests <==>
            t in SelectTests(a, Graph(graph), all).tests || t in SelectTests(b, Graph(graph), all).tests
  {
    SelectionIsExact(direct, g, graph, a, all);
    SelectionIsExact(direct, g, graph, b, all);
    SelectionIsExact(direct, g, graph, a + b, all);
    if Depends(direct, g, t, a + b) {
      var m :| m in a + b && Reaches(g, direct[t], m);
      assert m in a || m in b;
    }
  }

  /** A test that imports a changed module through another module is selected for whatever that module imports. */
  lemma SelectionIsTransitive(direct: map<Test, set<Module>>, g: Imports, t: Test, m: Module, next: Module)
    requires Depends(direct, g, t, {m}) && next in ImportsOf(g, m)
    ensures Depends(direct, g, t, {next})
  {
    ImportIsReached(g, direct[t], m, next);
  }

  /** More imports never deselect a test. */
  lemma MoreImportsSelectMore(direct: map<Test, set<Module>>, g: Imports, more: Imports, t: Test, changed: set<Module>)
    requires forall m :: m in g ==> g[m] <= ImportsOf(more, m)
    requires Depends(direct, g, t, changed)
    ensures Depends(direct, more, t, changed)
  {
    var m :| m in changed && Reaches(g, direct[t], m);
    var p :| IsPath(g, p) && p[0] in direct[t] && p[|p| - 1] == m;
    forall i, j | 0 <= i < j < |p| && j == i + 1 ensures p[j] in ImportsOf(more, p[i]) {
      assert p[j] in ImportsOf(g, p[i]);
    }
    assert IsPath(more, p);
  }
}
