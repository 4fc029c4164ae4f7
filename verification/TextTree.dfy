/** The genre tree file: `parent TAB child` lines that must form a forest. */
module TextTree {
  import opened Options
  import L = Lines

  datatype Edge = Edge(parent: string, child: string)

  datatype Error = DuplicateChild | TooLong | Cycle

  datatype Result = Ok(tree: map<string, seq<string>>) | Err(error: Error)

  // What the file says ---------------------------------------------------------------------

  /** Blank lines, comments, and lines without two names say nothing. */
  function EdgeOf(line: string): Option<Edge> {
    var trimmed := L.TrimSpace(line);
    if trimmed == "" || trimmed[0] == '#' then None
    else match L.Cut(trimmed, '\t')
      case None => None
      case Some(p) =>
        var (parent, child) := (L.TrimSpace(p.0), L.TrimSpace(p.1));
        if parent == "" || child == "" then None else Some(Edge(parent, child))
  }

  function Edges(lines: seq<string>): seq<Edge> {
    if lines == [] then []
    else Edges(lines[..|lines| - 1]) + Said(lines[|lines| - 1])
  }

  function Said(line: string): seq<Edge> {
    if EdgeOf(line).Some? then [EdgeOf(line).value] else []
  }

  function NamesIn(edges: seq<Edge>): set<string> {
    (set e | e in edges :: e.parent) + (set e | e in edges :: e.child)
  }

  predicate ChildrenOnce(edges: seq<Edge>) {
    forall i, j | 0 <= i < j < |edges| :: edges[i].child != edges[j].child
  }

  predicate IsPath(edges: seq<Edge>, path: seq<string>) {
    path != [] && forall i | 0 <= i < |path| - 1 :: Edge(path[i], path[i + 1]) in edges
  }

  ghost predicate Reaches(edges: seq<Edge>, a: string, b: string) {
    exists path :: IsPath(edges, path) && path[0] == a && path[|path| - 1] == b
  }

  ghost predicate Acyclic(edges: seq<Edge>) {
    forall path | IsPath(edges, path) && |path| > 1 :: path[0] != path[|path| - 1]
  }

  ghost predicate Distinct(s: seq<string>) {
    forall x :: multiset(s)[x] <= 1
  }

  /** Each name's list holds exactly the names it reaches, itself among them, each once. */
  ghost predicate IsTreeOf(tree: map<string, seq<string>>, edges: seq<Edge>) {
    && tree.Keys == NamesIn(edges)
    && ListsAll(tree, edges)
  }

  ghost predicate ListsAll(tree: map<string, seq<string>>, edges: seq<Edge>) {
    forall name | name in tree :: ListsReach(tree[name], edges, name)
  }

  ghost predicate ListsReach(list: seq<string>, edges: seq<Edge>, name: string) {
    Distinct(list) && forall n :: n in list <==> Reaches(edges, name, n)
  }

  /** A name as a line of the file can say it. */
  predicate IsName(name: string) {
    L.IsTrimmed(name) && '\t' !in name && name[0] != '#'
  }

  predicate IsBlanks(s: string) {
    L.AllSpace(s) && '\t' !in s
  }

  /** A line names a parent, then after a tab a child, with any white space around them. */
  lemma LineSaysEdge(a: string, parent: string, b: string, c: string, child: string, d: string)
    requires L.AllSpace(a) && IsName(parent) && IsBlanks(b) && L.AllSpace(c) && L.IsTrimmed(child) && L.AllSpace(d)
    ensures Said(a + parent + b + "\t" + c + child + d) == [Edge(parent, child)]
  {
    hide L.TrimSpace, L.Cut;
    var middle := parent + b + "\t" + c + child;
    assert a + parent + b + "\t" + c + child + d == a + middle + d;
    assert middle[0] == parent[0] && middle[|middle| - 1] == child[|child| - 1];
    L.TrimSpaceBetween(a, middle, d);
    assert middle == (parent + b) + ['\t'] + (c + child);
    L.CutAfter(parent + b, c + child, '\t');
    L.TrimSpaceBetween("", parent, b);
    assert "" + parent + b == parent + b;
    L.TrimSpaceBetween(c, child, "");
    assert c + child + "" == c + child;
  }

  /** Comments, blank lines and lines without a tab between names say nothing. */
  lemma LineSaysNothing(a: string, s: string, d: string)
    requires L.AllSpace(a) && L.AllSpace(d) && (s == "" || (L.IsTrimmed(s) && (s[0] == '#' || '\t' !in s)))
    ensures Said(a + s + d) == []
  {
    hide L.TrimSpace, L.Cut;
    if s == "" {
      assert a + s + d == a + d;
      L.TrimAllSpace(a + d);
    } else {
      L.TrimSpaceBetween(a, s, d);
    }
  }

  lemma {:induction false} EdgesConcat(a: seq<string>, b: seq<string>)
    ensures Edges(a + b) == Edges(a) + Edges(b)
  {
    hide Said;
    if b == [] {
      assert a + b == a;
    } else {
      assert (a + b)[..|a + b| - 1] == a + b[..|b| - 1];
      EdgesConcat(a, b[..|b| - 1]);
    }
  }

  /** Lines that say one edge each say these, in their order. */
  lemma {:induction false} LinesSayEdges(lines: seq<string>, edges: seq<Edge>)
    requires |lines| == |edges| && forall i | 0 <= i < |lines| :: Said(lines[i]) == [edges[i]]
    ensures Edges(lines) == edges
  {
    hide Said;
    if lines != [] {
      var n := |lines| - 1;
      LinesSayEdges(lines[..n], edges[..n]);
      assert edges == edges[..n] + [edges[n]];
    }
  }

  lemma OneLine(line: string)
    ensures Edges([line]) == Said(line)
  {
    hide Said;
    assert [line][..0] == [];
  }

  /** A line that says nothing may be left out. */
  lemma SilentLine(before: seq<string>, line: string, after: seq<string>)
    requires Said(line) == []
    ensures Edges(before + [line] + after) == Edges(before + after)
  {
    hide Edges, Said;
    EdgesConcat(before + [line], after);
    EdgesConcat(before, [line]);
    EdgesConcat(before, after);
    OneLine(line);
  }

  // Reading ---------------------------------------------------------------------------------

  function Kids(children: map<string, seq<string>>, name: string): seq<string> {
    if name in children then children[name] else []
  }

  /** The two maps and the set of names hold the edges. */
  ghost predicate Holds(children: map<string, seq<string>>, parents: map<string, string>, edges: seq<Edge>) {
    && (forall p, c :: c in Kids(children, p) <==> Edge(p, c) in edges)
    && (forall p :: Distinct(Kids(children, p)))
    && (forall p, c :: c in parents && parents[c] == p <==> Edge(p, c) in edges)
  }

  lemma HoldsMore(children: map<string, seq<string>>, parents: map<string, string>, edges: seq<Edge>, e: Edge)
    requires Holds(children, parents, edges) && e.child !in parents
    ensures Holds(children[e.parent := Kids(children, e.parent) + [e.child]], parents[e.child := e.parent], edges + [e])
  {
    var children' := children[e.parent := Kids(children, e.parent) + [e.child]];
    forall p ensures Distinct(Kids(children', p)) {
      if p == e.parent {
        assert Edge(p, e.child) !in edges;
        DistinctMore(Kids(children, p), e.child);
      } else {
        assert Kids(children', p) == Kids(children, p);
      }
    }
  }

  lemma DistinctMore(s: seq<string>, x: string)
    requires Distinct(s) && x !in s
    ensures Distinct(s + [x])
  {
  }

  lemma ParentsAreChildren(children: map<string, seq<string>>, parents: map<string, string>, edges: seq<Edge>, c: string)
    requires Holds(children, parents, edges)
    ensures c in parents <==> exists i :: 0 <= i < |edges| && edges[i].child == c
  {
    if c in parents { assert Edge(parents[c], c) in edges; }
    forall i | 0 <= i < |edges| ensures edges[i].child in parents {
      assert Edge(edges[i].parent, edges[i].child) in edges;
    }
  }

  /** What reading the lines so far has left in the maps. */
  ghost predicate Reading(edges: seq<Edge>, children: map<string, seq<string>>, parents: map<string, string>, seen: set<string>) {
    ChildrenOnce(edges) && Holds(children, parents, edges) && seen == NamesIn(edges)
  }

  lemma NothingRead()
    ensures Reading(Edges([]), map[], map[], {})
  {
  }

  lemma ReadMore(edges: seq<Edge>, children: map<string, seq<string>>, parents: map<string, string>, seen: set<string>, e: Edge)
    requires Reading(edges, children, parents, seen) && e.child !in parents
    ensures Reading(edges + [e], children[e.parent := Kids(children, e.parent) + [e.child]], parents[e.child := e.parent],
                    seen + {e.parent} + {e.child})
  {
    ParentsAreChildren(children, parents, edges, e.child);
    HoldsMore(children, parents, edges, e);
    NamesMore(edges, e);
  }

  lemma ReadTwice(edges: seq<Edge>, children: map<string, seq<string>>, parents: map<string, string>, e: Edge, all: seq<Edge>)
    requires Holds(children, parents, edges) && e.child in parents && edges + [e] <= all
    ensures !ChildrenOnce(all)
  {
    ParentsAreChildren(children, parents, edges, e.child);
    var i :| 0 <= i < |edges| && edges[i].child == e.child;
    assert all[i] == (edges + [e])[i] && all[|edges|] == (edges + [e])[|edges|];
  }

  /** A line that says nothing, or repeats a child, or says something new. */
  lemma ReadLine(lines: seq<string>, i: nat, children: map<string, seq<string>>, parents: map<string, string>, seen: set<string>)
    requires i < |lines| && Reading(Edges(lines[..i]), children, parents, seen)
    ensures EdgeOf(lines[i]).None? ==> Reading(Edges(lines[..i + 1]), children, parents, seen)
    ensures EdgeOf(lines[i]).Some? ==>
              var Edge(p, c) := EdgeOf(lines[i]).value;
              if c in parents then !ChildrenOnce(Edges(lines))
              else Reading(Edges(lines[..i + 1]), children[p := Kids(children, p) + [c]], parents[c := p], seen + {p} + {c})
  {
    assert lines[..i + 1][..i] == lines[..i];
    if EdgeOf(lines[i]).Some? {
      var e := EdgeOf(lines[i]).value;
      if e.child in parents {
        EdgesGrow(lines, i + 1);
        ReadTwice(Edges(lines[..i]), children, parents, e, Edges(lines));
      } else {
        ReadMore(Edges(lines[..i]), children, parents, seen, e);
      }
    } else {
      assert Edges(lines[..i + 1]) == Edges(lines[..i]);
    }
  }

  method ReadEdges(lines: seq<string>) returns (ok: bool, children: map<string, seq<string>>, parents: map<string, string>, seen: set<string>)
    ensures ok <==> ChildrenOnce(Edges(lines))
    ensures ok ==> Reading(Edges(lines), children, parents, seen)
  {
    NothingRead();
    hide Holds, ChildrenOnce, Edges, EdgeOf, NamesIn, Kids;
    children, parents, seen := map[], map[], {};
    var i := 0;
    assert lines[..0] == [];
    while i < |lines|
      invariant 0 <= i <= |lines| && Reading(Edges(lines[..i]), children, parents, seen)
    {
      ReadLine(lines, i, children, parents, seen);
      var e := EdgeOf(lines[i]);
      if e.Some? {
        var Edge(parent, child) := e.value;
        if child in parents {
          return false, children, parents, seen;
        }
        parents := parents[child := parent];
        children := children[parent := Kids(children, parent) + [child]];
        seen := seen + {parent} + {child};
      }
      i := i + 1;
    }
    assert lines[..i] == lines;
    ok := true;
  }

  lemma NamesMore(edges: seq<Edge>, e: Edge)
    ensures NamesIn(edges + [e]) == NamesIn(edges) + {e.parent} + {e.child}
  {
  }

  lemma {:induction false} EdgesGrow(lines: seq<string>, i: nat)
    requires i <= |lines|
    ensures Edges(lines[..i]) <= Edges(lines)
    decreases |lines| - i
  {
    if i == |lines| {
      assert lines[..i] == lines;
    } else {
      assert lines[..i + 1][..i] == lines[..i];
      EdgesGrow(lines, i + 1);
    }
  }

  // Cycles ----------------------------------------------------------------------------------

  /** The ancestor `n` levels up. */
  function Up(parents: map<string, string>, name: string, n: nat): Option<string> {
    if n == 0 then Some(name)
    else
      var below := Up(parents, name, n - 1);
      if below.Some? && below.value in parents then Some(parents[below.value]) else None
  }

  /** The same name at two levels above. */
  ghost predicate Loops(parents: map<string, string>, name: string) {
    exists i: nat, j: nat :: i < j && Up(parents, name, i).Some? && Up(parents, name, i) == Up(parents, name, j)
  }

  lemma {:induction false} UpShift(parents: map<string, string>, name: string, i: nat, j: nat, d: nat)
    requires Up(parents, name, i) == Up(parents, name, j)
    ensures Up(parents, name, i + d) == Up(parents, name, j + d)
  {
    if d > 0 { UpShift(parents, name, i, j, d - 1); }
  }

  lemma {:induction false} UpStops(parents: map<string, string>, name: string, i: nat, j: nat)
    requires i <= j && Up(parents, name, i).None?
    ensures Up(parents, name, j).None?
  {
    if i < j { UpStops(parents, name, i, j - 1); }
  }

  /** Whoever repeats a name never gets to a root. */
  lemma {:induction false} LoopNeverStops(parents: map<string, string>, name: string, i: nat, j: nat, n: nat)
    requires i < j && Up(parents, name, i).Some? && Up(parents, name, i) == Up(parents, name, j)
    ensures Up(parents, name, n).Some?
    decreases n
  {
    if n <= j {
      if Up(parents, name, n).None? { UpStops(parents, name, n, j); }
    } else {
      UpShift(parents, name, i, j, n - j);
      LoopNeverStops(parents, name, i, j, i + n - j);
    }
  }

  lemma RootedNeverLoops(parents: map<string, string>, name: string, n: nat)
    requires Up(parents, name, n).None?
    ensures !Loops(parents, name)
  {
    forall i: nat, j: nat | i < j && Up(parents, name, i).Some? ensures Up(parents, name, i) != Up(parents, name, j) {
      if Up(parents, name, i) == Up(parents, name, j) { LoopNeverStops(parents, name, i, j, n); }
    }
  }

  /** The names passed on the first `n` levels. */
  ghost predicate Passed(parents: map<string, string>, name: string, n: nat, visited: set<string>) {
    visited <= parents.Keys && forall v | v in visited :: PassedAt(parents, name, n, v)
  }

  ghost predicate PassedAt(parents: map<string, string>, name: string, n: nat, v: string) {
    exists i: nat :: i < n && Up(parents, name, i) == Some(v)
  }

  lemma PassMore(parents: map<string, string>, name: string, n: nat, visited: set<string>, cur: string)
    requires Passed(parents, name, n, visited) && Up(parents, name, n) == Some(cur) && cur in parents
    ensures Passed(parents, name, n + 1, visited + {cur})
  {
  }

  /** checkCycle. It stops because it never walks over more than all the children. */
  method CheckCycle(name: string, parents: map<string, string>) returns (ok: bool)
    ensures ok <==> !Loops(parents, name)
  {
    var visited: set<string> := {};
    var cur := name;
    ghost var n: nat := 0;
    while true
      invariant Up(parents, name, n) == Some(cur) && Passed(parents, name, n, visited)
      decreases |parents.Keys - visited|
    {
      if cur in visited {
        assert PassedAt(parents, name, n, cur);
        return false;
      }
      if cur !in parents {
        RootedNeverLoops(parents, name, n + 1);
        return true;
      }
      PassMore(parents, name, n, visited, cur);
      Fewer(parents.Keys - visited, parents.Keys - (visited + {cur}), cur);
      visited := visited + {cur};
      cur := parents[cur];
      n := n + 1;
    }
  }

  lemma Fewer(s: set<string>, t: set<string>, x: string)
    requires x in s && t == s - {x}
    ensures |t| < |s|
  {
  }

  lemma PathTail(edges: seq<Edge>, path: seq<string>)
    requires IsPath(edges, path) && |path| > 1
    ensures IsPath(edges, path[1..]) && IsPath(edges, path[..|path| - 1])
  {
  }

  lemma {:induction false} UpAlong(children: map<string, seq<string>>, parents: map<string, string>, edges: seq<Edge>, path: seq<string>)
    requires Holds(children, parents, edges) && IsPath(edges, path)
    ensures Up(parents, path[|path| - 1], |path| - 1) == Some(path[0])
  {
    if |path| > 1 {
      var rest := path[1..];
      PathTail(edges, path);
      UpAlong(children, parents, edges, rest);
      assert Edge(path[0], path[1]) in edges;
    }
  }

  lemma {:induction false} DownFrom(children: map<string, seq<string>>, parents: map<string, string>, edges: seq<Edge>, name: string, i: nat, j: nat)
    returns (path: seq<string>)
    requires Holds(children, parents, edges) && i <= j && Up(parents, name, j).Some?
    ensures IsPath(edges, path) && |path| == j - i + 1
    ensures Some(path[0]) == Up(parents, name, j) && Some(path[|path| - 1]) == Up(parents, name, i)
  {
    if i == j {
      path := [Up(parents, name, j).value];
    } else {
      var below := DownFrom(children, parents, edges, name, i, j - 1);
      path := [Up(parents, name, j).value] + below;
      assert Edge(path[0], path[1]) in edges;
      assert forall k | 1 <= k < |path| - 1 :: path[k] == below[k - 1] && path[k + 1] == below[k];
    }
  }

  lemma LoopIsCycle(children: map<string, seq<string>>, parents: map<string, string>, edges: seq<Edge>, name: string)
    requires Holds(children, parents, edges) && Loops(parents, name)
    ensures !Acyclic(edges)
  {
    var i: nat, j: nat :| i < j && Up(parents, name, i).Some? && Up(parents, name, i) == Up(parents, name, j);
    var path := DownFrom(children, parents, edges, name, i, j);
    assert path[0] == path[|path| - 1];
  }

  lemma CycleLoops(children: map<string, seq<string>>, parents: map<string, string>, edges: seq<Edge>, path: seq<string>)
    requires Holds(children, parents, edges) && IsPath(edges, path) && |path| > 1 && path[0] == path[|path| - 1]
    ensures path[0] in NamesIn(edges) && Loops(parents, path[0])
  {
    UpAlong(children, parents, edges, path);
    assert Edge(path[0], path[1]) in edges;
    assert Up(parents, path[0], 0) == Up(parents, path[0], |path| - 1);
  }

  /** Nobody loops exactly when the edges have no cycle. */
  lemma AcyclicIff(children: map<string, seq<string>>, parents: map<string, string>, edges: seq<Edge>)
    requires Holds(children, parents, edges)
    ensures Acyclic(edges) <==> forall name | name in NamesIn(edges) :: !Loops(parents, name)
  {
    if name :| name in NamesIn(edges) && Loops(parents, name) {
      LoopIsCycle(children, parents, edges, name);
    }
    forall path | IsPath(edges, path) && |path| > 1 && path[0] == path[|path| - 1]
      ensures exists name :: name in NamesIn(edges) && Loops(parents, name)
    {
      CycleLoops(children, parents, edges, path);
    }
  }

  // Descendants --------------------------------------------------------------------------------

  /** Where collectDescendants stands: what it has listed, and what it still has on its stack. */
  ghost predicate Collecting(edges: seq<Edge>, name: string, result: seq<string>, stack: seq<string>) {
    && Distinct(result + stack)
    && name in result + stack
    && (forall x | x in result + stack :: Reaches(edges, name, x))
    && (forall x | x in result + stack :: x == name || HasParentIn(edges, result, x))
    && (forall p, c | p in result && Edge(p, c) in edges :: c in result + stack)
  }

  ghost predicate HasParentIn(edges: seq<Edge>, result: seq<string>, x: string) {
    exists p :: p in result && Edge(p, x) in edges
  }

  lemma ReachesOneMore(edges: seq<Edge>, a: string, b: string, c: string)
    requires Reaches(edges, a, b) && Edge(b, c) in edges
    ensures Reaches(edges, a, c)
  {
    var path :| IsPath(edges, path) && path[0] == a && path[|path| - 1] == b;
    assert IsPath(edges, path + [c]);
    assert (path + [c])[0] == a && (path + [c])[|path|] == c;
  }

  lemma ReachesSelf(edges: seq<Edge>, a: string)
    ensures Reaches(edges, a, a)
  {
    assert IsPath(edges, [a]) && [a][0] == a;
  }

  lemma NoWayBack(edges: seq<Edge>, name: string, cur: string)
    requires Acyclic(edges) && Reaches(edges, name, cur)
    ensures Edge(cur, name) !in edges
  {
    var path :| IsPath(edges, path) && path[0] == name && path[|path| - 1] == cur;
    assert (path + [name])[0] == (path + [name])[|path|];
    assert Edge(cur, name) in edges ==> IsPath(edges, path + [name]);
  }

  lemma OneParent(edges: seq<Edge>, p: string, q: string, c: string)
    requires ChildrenOnce(edges) && Edge(p, c) in edges && q != p
    ensures Edge(q, c) !in edges
  {
  }

  lemma NotInBoth(s: seq<string>, t: seq<string>, x: string)
    requires Distinct(s + t) && x in t
    ensures x !in s
  {
    assert multiset(s + t)[x] == multiset(s)[x] + multiset(t)[x];
  }

  /** A child of the name just popped has not been met before: its one parent was still on the stack. */
  lemma KidIsNew(edges: seq<Edge>, name: string, result: seq<string>, stack: seq<string>, kid: string)
    requires ChildrenOnce(edges) && Acyclic(edges) && Collecting(edges, name, result, stack) && stack != []
    requires Edge(stack[|stack| - 1], kid) in edges
    ensures kid !in result + stack
  {
    var cur := stack[|stack| - 1];
    assert cur in result + stack;
    NoWayBack(edges, name, cur);
    NotInBoth(result, stack, cur);
    forall p | p in result ensures Edge(p, kid) !in edges { OneParent(edges, cur, p, kid); }
    assert !HasParentIn(edges, result, kid);
  }

  lemma DistinctConcat(s: seq<string>, t: seq<string>)
    requires Distinct(s) && Distinct(t) && forall x | x in t :: x !in s
    ensures Distinct(s + t)
  {
    forall x ensures multiset(s + t)[x] <= 1 {
      assert multiset(s + t)[x] == multiset(s)[x] + multiset(t)[x];
      if x in t { assert multiset(s)[x] == 0; } else { assert multiset(t)[x] == 0; }
    }
  }

  /** The new list and stack hold what the old ones held, and the children. */
  lemma Popped(result: seq<string>, stack: seq<string>, kids: seq<string>)
    requires stack != []
    ensures var cur := stack[|stack| - 1];
            multiset((result + [cur]) + (stack[..|stack| - 1] + kids)) == multiset((result + stack) + kids)
  {
    assert stack == stack[..|stack| - 1] + [stack[|stack| - 1]];
  }

  lemma SameElements(s: seq<string>, t: seq<string>)
    requires multiset(s) == multiset(t)
    ensures forall x :: x in s <==> x in t
    ensures Distinct(s) <==> Distinct(t)
  {
    forall x ensures x in s <==> x in t {
      assert (x in s <==> x in multiset(s)) && (x in t <==> x in multiset(t));
    }
  }

  lemma PopKeeps(edges: seq<Edge>, name: string, result: seq<string>, stack: seq<string>, kids: seq<string>)
    requires ChildrenOnce(edges) && Acyclic(edges) && Collecting(edges, name, result, stack) && stack != []
    requires Distinct(kids) && forall c :: c in kids <==> Edge(stack[|stack| - 1], c) in edges
    ensures Collecting(edges, name, result + [stack[|stack| - 1]], stack[..|stack| - 1] + kids)
  {
    var cur := stack[|stack| - 1];
    var result', stack' := result + [cur], stack[..|stack| - 1] + kids;
    forall c | c in kids ensures c !in result + stack { KidIsNew(edges, name, result, stack, c); }
    DistinctConcat(result + stack, kids);
    Popped(result, stack, kids);
    SameElements(result' + stack', result + stack + kids);
    assert cur in result + stack;
    forall x | x in result' + stack' ensures Reaches(edges, name, x) && (x == name || HasParentIn(edges, result', x)) {
      if x in kids {
        ReachesOneMore(edges, name, cur, x);
        assert cur in result' && Edge(cur, x) in edges;
      } else {
        assert x in result + stack;
        assert x != name ==> HasParentIn(edges, result, x);
      }
    }
  }

  lemma {:induction false} DistinctFits(s: seq<string>, all: set<string>)
    requires Distinct(s) && forall x | x in s :: x in all
    ensures |s| <= |all|
  {
    if s != [] {
      var rest, x := s[..|s| - 1], s[|s| - 1];
      assert s == rest + [x];
      assert multiset(s)[x] == multiset(rest)[x] + 1;
      forall y ensures multiset(rest)[y] <= 1 { assert multiset(rest)[y] <= multiset(s)[y]; }
      DistinctFits(rest, all - {x});
    }
  }

  lemma ReachedIsNamed(edges: seq<Edge>, a: string, b: string)
    requires Reaches(edges, a, b)
    ensures b in NamesIn(edges) + {a}
  {
    var path :| IsPath(edges, path) && path[0] == a && path[|path| - 1] == b;
    if |path| > 1 { assert Edge(path[|path| - 2], path[|path| - 1]) in edges; }
  }

  lemma ListedFits(edges: seq<Edge>, name: string, result: seq<string>, stack: seq<string>)
    requires Collecting(edges, name, result, stack)
    ensures |result + stack| <= |NamesIn(edges) + {name}|
  {
    forall x | x in result + stack ensures x in NamesIn(edges) + {name} { ReachedIsNamed(edges, name, x); }
    DistinctFits(result + stack, NamesIn(edges) + {name});
  }

  lemma {:induction false} PathStaysIn(edges: seq<Edge>, result: seq<string>, path: seq<string>)
    requires IsPath(edges, path) && path[0] in result
    requires forall p, c | p in result && Edge(p, c) in edges :: c in result
    ensures path[|path| - 1] in result
  {
    if |path| > 1 {
      PathTail(edges, path);
      PathStaysIn(edges, result, path[..|path| - 1]);
      assert Edge(path[|path| - 2], path[|path| - 1]) in edges;
    }
  }

  lemma AllListed(edges: seq<Edge>, name: string, result: seq<string>)
    requires Collecting(edges, name, result, [])
    ensures ListsReach(result, edges, name)
  {
    assert result + [] == result;
    forall n | Reaches(edges, name, n) ensures n in result {
      var path :| IsPath(edges, path) && path[0] == name && path[|path| - 1] == n;
      PathStaysIn(edges, result, path);
    }
  }

  /** What the cycle check has made sure of. */
  ghost predicate Forest(children: map<string, seq<string>>, parents: map<string, string>, edges: seq<Edge>) {
    Holds(children, parents, edges) && ChildrenOnce(edges) && Acyclic(edges)
  }

  /** collectDescendants. It stops because no name is listed twice. */
  method CollectDescendants(name: string, children: map<string, seq<string>>, ghost parents: map<string, string>, ghost edges: seq<Edge>)
    returns (result: seq<string>)
    requires Forest(children, parents, edges)
    ensures ListsReach(result, edges, name)
  {
    result := [];
    var stack := [name];
    ReachesSelf(edges, name);
    assert result + stack == [name];
    while stack != []
      invariant Collecting(edges, name, result, stack)
      decreases |NamesIn(edges) + {name}| - |result|
    {
      ListedFits(edges, name, result, stack);
      PopKeeps(edges, name, result, stack, Kids(children, stack[|stack| - 1]));
      var cur := stack[|stack| - 1];
      stack := stack[..|stack| - 1];
      result := result + [cur];
      stack := stack + Kids(children, cur);
    }
    AllListed(edges, name, result);
  }

  // The parser -------------------------------------------------------------------------------------

  method CheckCycles(seen: set<string>, parents: map<string, string>) returns (ok: bool)
    ensures ok <==> forall name | name in seen :: !Loops(parents, name)
  {
    var left := seen;
    while left != {}
      invariant left <= seen
      invariant forall name | name in seen - left :: !Loops(parents, name)
      decreases |left|
    {
      var name :| name in left;
      ok := CheckCycle(name, parents);
      if !ok { return; }
      left := left - {name};
    }
    ok := true;
  }

  lemma ListMore(tree: map<string, seq<string>>, edges: seq<Edge>, name: string, list: seq<string>)
    requires ListsAll(tree, edges) && ListsReach(list, edges, name)
    ensures ListsAll(tree[name := list], edges)
  {
  }

  method BuildTree(seen: set<string>, children: map<string, seq<string>>, ghost parents: map<string, string>, ghost edges: seq<Edge>)
    returns (tree: map<string, seq<string>>)
    requires Forest(children, parents, edges)
    ensures tree.Keys == seen && ListsAll(tree, edges)
  {
    tree := map[];
    var left := seen;
    while left != {}
      invariant left <= seen && tree.Keys == seen - left
      invariant ListsAll(tree, edges)
      decreases |left|
    {
      var name :| name in left;
      var list := CollectDescendants(name, children, parents, edges);
      ListMore(tree, edges, name, list);
      tree := tree[name := list];
      left := left - {name};
    }
  }

  /**
   * The file is accepted exactly when it can be read, names each child once and has no cycle; the tree then
   * lists the descendants of each name.
   */
  method ParseReader(text: string) returns (r: Result)
    ensures var Scanned(lines, tooLong) := L.Scan(text);
            var edges := Edges(lines);
            if !ChildrenOnce(edges) then r == Err(DuplicateChild)
            else if tooLong then r == Err(TooLong)
            else if !Acyclic(edges) then r == Err(Cycle)
            else r.Ok? && IsTreeOf(r.tree, edges)
  {
    var Scanned(lines, tooLong) := L.Scan(text);
    var ok, children, parents, seen := ReadEdges(lines);
    if !ok { return Err(DuplicateChild); }
    if tooLong { return Err(TooLong); }
    AcyclicIff(children, parents, Edges(lines));
    ok := CheckCycles(seen, parents);
    if !ok { return Err(Cycle); }
    var tree := BuildTree(seen, children, parents, Edges(lines));
    return Ok(tree);
  }
}
