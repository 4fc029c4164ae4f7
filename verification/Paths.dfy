/**
 * Slash-separated paths: Go's path/filepath functions on strings, and what they do to clean paths, that
 * is to sequences of names.
 */
module Paths {
  import opened Options

  /** strings.Split(s, "/"). */
  function Parts(s: string): (parts: seq<string>)
    ensures |parts| >= 1
  {
    if s == "" then [""] else Prepended(s[0], Parts(s[1..]))
  }

  function Prepended(c: char, parts: seq<string>): (all: seq<string>)
    requires parts != []
    ensures all != []
  {
    if c == '/' then [""] + parts else [[c] + parts[0]] + parts[1..]
  }

  /** strings.Join(parts, "/"). */
  function Slashed(parts: seq<string>): string {
    if parts == [] then ""
    else if |parts| == 1 then parts[0]
    else parts[0] + "/" + Slashed(parts[1..])
  }

  /** One path element read by filepath.Clean, after the elements in `acc`. */
  function Push(rooted: bool, acc: seq<string>, part: string): seq<string> {
    if part == "" || part == "." then acc
    else if part == ".." then
      if acc != [] && acc[|acc| - 1] != ".." then acc[..|acc| - 1]
      else if rooted then acc
      else acc + [".."]
    else acc + [part]
  }

  function Reduce(rooted: bool, acc: seq<string>, parts: seq<string>): seq<string>
    decreases parts
  {
    if parts == [] then acc else Reduce(rooted, Push(rooted, acc, parts[0]), parts[1..])
  }

  predicate IsAbs(s: string) {
    s != "" && s[0] == '/'
  }

  function Elements(s: string): seq<string> {
    Reduce(IsAbs(s), [], Parts(s))
  }

  function Render(rooted: bool, elements: seq<string>): string {
    if rooted then "/" + Slashed(elements)
    else if elements == [] then "."
    else Slashed(elements)
  }

  function Clean(s: string): string {
    Render(IsAbs(s), Elements(s))
  }

  function Join(elements: seq<string>): string {
    if elements == [] then ""
    else if elements[0] == "" then Join(elements[1..])
    else Clean(Slashed(elements))
  }

  function Common(a: seq<string>, b: seq<string>): (n: nat)
    ensures n <= |a| && n <= |b| && a[..n] == b[..n]
    ensures n < |a| && n < |b| ==> a[n] != b[n]
    ensures n == |a| && n == |b| ==> a == b
  {
    if a == [] || b == [] || a[0] != b[0] then 0 else 1 + Common(a[1..], b[1..])
  }

  function Ups(n: nat): (ups: seq<string>)
    ensures |ups| == n && forall part | part in ups :: part == ".."
  {
    seq(n, _ => "..")
  }

  /** filepath.Rel. It fails across rooted and unrooted paths, and when it would have to leave a "..". */
  function Rel(base: string, target: string): Option<string> {
    var b, t := Elements(base), Elements(target);
    if Clean(base) == Clean(target) then Some(".")
    else if IsAbs(base) != IsAbs(target) then None
    else
      var n := Common(b, t);
      if n < |b| && b[n] == ".." then None else Some(Slashed(Ups(|b| - n) + t[n..]))
  }

  function LastSlash(s: string): (n: nat)
    ensures n <= |s| && (n > 0 ==> s[n - 1] == '/')
    ensures forall i | n <= i < |s| :: s[i] != '/'
  {
    if s == "" then 0 else if s[|s| - 1] == '/' then |s| else LastSlash(s[..|s| - 1])
  }

  /** filepath.Split: the directory keeps its slash. */
  function Split(s: string): (string, string) {
    (s[..LastSlash(s)], s[LastSlash(s)..])
  }

  function Dir(s: string): string {
    Clean(Split(s).0)
  }

  predicate StringPrefix(s: string, prefix: string) {
    prefix <= s
  }

  /** fileutil.HasPrefix. */
  predicate HasPrefix(p: string, prefix: string) {
    p == prefix || StringPrefix(p, Clean(prefix) + "/")
  }

  // Clean paths ------------------------------------------------------------------------

  predicate IsName(part: string) {
    part != "" && '/' !in part && part != "." && part != ".."
  }

  predicate Names(parts: seq<string>) {
    forall part | part in parts :: IsName(part)
  }

  function AbsPath(names: seq<string>): string {
    "/" + Slashed(names)
  }

  function RelPath(names: seq<string>): string {
    if names == [] then "." else Slashed(names)
  }

  predicate NoSlash(parts: seq<string>) {
    forall part | part in parts :: '/' !in part
  }

  lemma {:induction false} PartsOfOne(s: string)
    requires '/' !in s
    ensures Parts(s) == [s]
  {
    if s != "" {
      PartsOfOne(s[1..]);
      assert [s[0]] + s[1..] == s && s[0] != '/';
    }
  }

  lemma PrependedConcat(c: char, p: seq<string>, q: seq<string>)
    requires p != []
    ensures Prepended(c, p + q) == Prepended(c, p) + q
  {
  }

  lemma {:induction false} PartsConcat(a: string, b: string)
    ensures Parts(a + "/" + b) == Parts(a) + Parts(b)
  {
    if a == "" {
      assert a + "/" + b == "/" + b && ("/" + b)[1..] == b;
    } else {
      PartsConcat(a[1..], b);
      PrependedConcat(a[0], Parts(a[1..]), Parts(b));
      assert (a + "/" + b)[1..] == a[1..] + "/" + b;
    }
  }

  lemma {:induction false} PartsOfSlashed(parts: seq<string>)
    requires parts != [] && NoSlash(parts)
    ensures Parts(Slashed(parts)) == parts
  {
    PartsOfOne(parts[0]);
    if |parts| > 1 {
      PartsOfSlashed(parts[1..]);
      PartsConcat(parts[0], Slashed(parts[1..]));
    }
  }

  lemma {:induction false} SlashedConcat(a: seq<string>, b: seq<string>)
    requires a != [] && b != []
    ensures Slashed(a + b) == Slashed(a) + "/" + Slashed(b)
  {
    assert (a + b)[1..] == a[1..] + b;
    if |a| > 1 { SlashedConcat(a[1..], b); }
  }

  lemma {:induction false} ReduceConcat(rooted: bool, acc: seq<string>, a: seq<string>, b: seq<string>)
    ensures Reduce(rooted, acc, a + b) == Reduce(rooted, Reduce(rooted, acc, a), b)
    decreases a
  {
    if a == [] {
      assert a + b == b;
    } else {
      assert (a + b)[1..] == a[1..] + b;
      ReduceConcat(rooted, Push(rooted, acc, a[0]), a[1..], b);
    }
  }

  lemma {:induction false} ReduceNames(rooted: bool, acc: seq<string>, names: seq<string>)
    requires Names(names)
    ensures Reduce(rooted, acc, names) == acc + names
    decreases names
  {
    if names != [] {
      assert IsName(names[0]);
      ReduceNames(rooted, acc + [names[0]], names[1..]);
      assert acc + [names[0]] + names[1..] == acc + names;
    }
  }

  lemma {:induction false} ReduceUps(acc: seq<string>, n: nat)
    requires Names(acc) && n <= |acc|
    ensures Reduce(true, acc, Ups(n)) == acc[..|acc| - n]
  {
    if n > 0 {
      assert Ups(n)[1..] == Ups(n - 1) && Ups(n)[0] == "..";
      assert IsName(acc[|acc| - 1]);
      ReduceUps(acc[..|acc| - 1], n - 1);
    }
  }

  lemma PartsOfAbs(names: seq<string>)
    requires Names(names)
    ensures Parts(AbsPath(names)) == [""] + (if names == [] then [""] else names)
  {
    assert AbsPath(names) == "" + "/" + Slashed(names);
    PartsConcat("", Slashed(names));
    if names != [] { PartsOfSlashed(names); }
  }

  lemma ElementsOfAbs(names: seq<string>)
    requires Names(names)
    ensures Elements(AbsPath(names)) == names && IsAbs(AbsPath(names)) && Clean(AbsPath(names)) == AbsPath(names)
  {
    PartsOfAbs(names);
    ReduceConcat(true, [], [""], if names == [] then [""] else names);
    ReduceNames(true, [], names);
  }

  /** Different names, different paths. */
  lemma AbsPathInjective(a: seq<string>, b: seq<string>)
    requires Names(a) && Names(b) && AbsPath(a) == AbsPath(b)
    ensures a == b
  {
    ElementsOfAbs(a);
    ElementsOfAbs(b);
  }

  /** How many levels up, and which names down. */
  function RelParts(dir: seq<string>, path: seq<string>): (parts: seq<string>)
    requires Names(dir) && Names(path) && dir != path
    ensures parts != [] && NoSlash(parts)
  {
    var n := Common(dir, path);
    assert forall part | part in path[n..] :: IsName(part);
    Ups(|dir| - n) + path[n..]
  }

  function RelNames(dir: seq<string>, path: seq<string>): string
    requires Names(dir) && Names(path)
  {
    if dir == path then "." else Slashed(RelParts(dir, path))
  }

  lemma RelOfAbs(dir: seq<string>, path: seq<string>)
    requires Names(dir) && Names(path)
    ensures Rel(AbsPath(dir), AbsPath(path)) == Some(RelNames(dir, path))
  {
    ElementsOfAbs(dir);
    ElementsOfAbs(path);
    var n := Common(dir, path);
    assert n < |dir| ==> IsName(dir[n]);
  }

  /** Joining onto a clean directory reads the relative path from there. */
  lemma JoinReads(dir: seq<string>, rel: string)
    requires Names(dir)
    ensures Join([AbsPath(dir), rel]) == AbsPath(Reduce(true, dir, Parts(rel)))
  {
    var joined := AbsPath(dir) + "/" + rel;
    assert Slashed([AbsPath(dir), rel]) == joined;
    PartsConcat(AbsPath(dir), rel);
    ReduceConcat(true, [], Parts(AbsPath(dir)), Parts(rel));
    ElementsOfAbs(dir);
  }

  lemma UpAndDown(dir: seq<string>, ups: nat, names: seq<string>)
    requires Names(dir) && Names(names) && ups <= |dir|
    ensures Reduce(true, dir, Ups(ups) + names) == dir[..|dir| - ups] + names
  {
    ReduceConcat(true, dir, Ups(ups), names);
    ReduceUps(dir, ups);
    ReduceNames(true, dir[..|dir| - ups], names);
  }

  lemma RelPartsLead(dir: seq<string>, path: seq<string>)
    requires Names(dir) && Names(path) && dir != path
    ensures Reduce(true, dir, RelParts(dir, path)) == path
  {
    var n := Common(dir, path);
    UpAndDown(dir, |dir| - n, path[n..]);
    assert path == path[..n] + path[n..];
  }

  /** Joining a directory with the way from it to a path gives the path back. */
  lemma JoinRel(dir: seq<string>, path: seq<string>)
    requires Names(dir) && Names(path)
    ensures Rel(AbsPath(dir), AbsPath(path)) == Some(RelNames(dir, path))
    ensures Join([AbsPath(dir), RelNames(dir, path)]) == AbsPath(path)
  {
    RelOfAbs(dir, path);
    JoinReads(dir, RelNames(dir, path));
    if dir == path {
      PartsOfOne(".");
      assert Reduce(true, dir, ["."]) == Reduce(true, dir, []);
    } else {
      PartsOfSlashed(RelParts(dir, path));
      RelPartsLead(dir, path);
    }
  }

  lemma {:induction false} PartsHaveNoSlash(s: string)
    ensures NoSlash(Parts(s))
  {
    if s != "" { PartsHaveNoSlash(s[1..]); }
  }

  lemma {:induction false} ReduceKeepsNames(acc: seq<string>, parts: seq<string>)
    requires Names(acc) && NoSlash(parts)
    ensures Names(Reduce(true, acc, parts))
    decreases parts
  {
    if parts != [] {
      assert '/' !in parts[0];
      ReduceKeepsNames(Push(true, acc, parts[0]), parts[1..]);
    }
  }

  /** Joining anything onto a clean directory gives a clean absolute path. */
  lemma JoinIsClean(dir: seq<string>, rel: string) returns (names: seq<string>)
    requires Names(dir)
    ensures Names(names) && Join([AbsPath(dir), rel]) == AbsPath(names)
  {
    JoinReads(dir, rel);
    PartsHaveNoSlash(rel);
    ReduceKeepsNames(dir, Parts(rel));
    names := Reduce(true, dir, Parts(rel));
  }

  /** What is left of a path when it is read: names, after so many ".." if it is not rooted. */
  ghost predicate IsReduced(rooted: bool, elements: seq<string>, ups: nat) {
    ups <= |elements| && elements[..ups] == Ups(ups) && Names(elements[ups..]) && (rooted ==> ups == 0)
  }

  lemma PushReduces(rooted: bool, acc: seq<string>, ups: nat, part: string) returns (after: nat)
    requires IsReduced(rooted, acc, ups) && '/' !in part
    ensures IsReduced(rooted, Push(rooted, acc, part), after)
  {
    after := ups;
    if part == ".." && !rooted && |acc| == ups {
      after := ups + 1;
      assert acc == Ups(ups) && acc + [part] == Ups(after);
    } else if |acc| > ups {
      assert acc[|acc| - 1] == acc[ups..][|acc| - ups - 1] && acc[..|acc| - 1][ups..] == acc[ups..][..|acc| - ups - 1];
      assert (acc + [part])[ups..] == acc[ups..] + [part] && (acc + [part])[..ups] == acc[..ups] == acc[..|acc| - 1][..ups];
    }
  }

  lemma {:induction false} ReduceReduces(rooted: bool, acc: seq<string>, ups: nat, parts: seq<string>) returns (after: nat)
    requires IsReduced(rooted, acc, ups) && NoSlash(parts)
    ensures IsReduced(rooted, Reduce(rooted, acc, parts), after)
    decreases parts
  {
    hide IsReduced, Push;
    after := ups;
    if parts != [] {
      assert parts[0] in parts;
      after := PushReduces(rooted, acc, ups, parts[0]);
      after := ReduceReduces(rooted, Push(rooted, acc, parts[0]), after, parts[1..]);
    }
  }

  lemma {:induction false} UpsStay(m: nat, n: nat)
    ensures Reduce(false, Ups(m), Ups(n)) == Ups(m + n)
    decreases n
  {
    if n == 0 {
      assert Ups(m) == Ups(m + n);
    } else {
      assert Ups(n)[0] == ".." && Ups(n)[1..] == Ups(n - 1) && Ups(m) + [".."] == Ups(m + 1);
      assert m > 0 ==> Ups(m)[m - 1] in Ups(m);
      UpsStay(m + 1, n - 1);
    }
  }

  lemma ReducedStays(rooted: bool, elements: seq<string>, ups: nat)
    requires IsReduced(rooted, elements, ups)
    ensures Reduce(rooted, [], elements) == elements
  {
    assert elements == elements[..ups] + elements[ups..] && Ups(0) == [];
    ReduceConcat(rooted, [], elements[..ups], elements[ups..]);
    if !rooted { UpsStay(0, ups); }
    ReduceNames(rooted, elements[..ups], elements[ups..]);
  }

  /** What is written is read again. */
  lemma RenderedIsRead(rooted: bool, elements: seq<string>, ups: nat)
    requires IsReduced(rooted, elements, ups)
    ensures var s := Render(rooted, elements); IsAbs(s) == rooted && Elements(s) == elements && Clean(s) == s
  {
    if rooted {
      assert elements[0..] == elements;
      ElementsOfAbs(elements);
    } else if elements == [] {
      PartsOfOne(".");
    } else {
      assert elements == Ups(ups) + elements[ups..];
      forall part | part in elements ensures '/' !in part && part != "" {
        assert part in Ups(ups) || part in elements[ups..];
      }
      PartsOfSlashed(elements);
      ReducedStays(rooted, elements, ups);
      assert Slashed(elements)[0] == elements[0][0];
    }
  }

  /** Cleaning leaves names, after so many ".." if the path is relative, and what is so is clean. */
  lemma CleanTwice(s: string) returns (elements: seq<string>, ups: nat)
    ensures IsReduced(IsAbs(s), elements, ups) && Clean(s) == Render(IsAbs(s), elements) && Clean(Clean(s)) == Clean(s)
  {
    PartsHaveNoSlash(s);
    ups := ReduceReduces(IsAbs(s), [], 0, Parts(s));
    elements := Elements(s);
    RenderedIsRead(IsAbs(s), elements, ups);
  }

  /** The way from a clean directory is never absolute, and there is one to every absolute path. */
  lemma RelIsNotAbs(dir: seq<string>, target: string)
    requires Names(dir)
    ensures var rel := Rel(AbsPath(dir), target); (rel.Some? ==> !IsAbs(rel.value)) && (IsAbs(target) ==> rel.Some?)
  {
    ElementsOfAbs(dir);
    if IsAbs(target) {
      PartsHaveNoSlash(target);
      ReduceKeepsNames([], Parts(target));
      var t := Elements(target);
      var n := Common(dir, t);
      assert n < |dir| ==> IsName(dir[n]);
      var parts := Ups(|dir| - n) + t[n..];
      if parts != [] && Clean(AbsPath(dir)) != Clean(target) {
        assert parts[0] == ".." || IsName(parts[0]);
        assert parts[0] != "" && parts[0][0] != '/' && Slashed(parts)[0] == parts[0][0];
      }
    }
  }

  // Prefixes -----------------------------------------------------------------------------

  lemma {:induction false} SlashedPrefix(a: seq<string>, b: seq<string>)
    requires a != [] && Names(a) && Names(b)
    ensures Slashed(a) + "/" <= Slashed(b) ==> a < b
    ensures a < b ==> Slashed(a) + "/" <= Slashed(b)
  {
    if a < b {
      assert b == a + b[|a|..];
      SlashedConcat(a, b[|a|..]);
    } else if Slashed(a) + "/" <= Slashed(b) {
      var rest := Slashed(b)[|Slashed(a)| + 1..];
      assert Slashed(b) == Slashed(a) + "/" + rest;
      PartsConcat(Slashed(a), rest);
      PartsOfSlashed(a);
      if b != [] { PartsOfSlashed(b); }
      assert false;
    }
  }

  lemma SecondIsNoSlash(names: seq<string>)
    requires Names(names) && names != []
    ensures |AbsPath(names)| > 1 && AbsPath(names)[1] != '/'
  {
    assert IsName(names[0]) && names[0][0] in names[0];
    assert Slashed(names)[0] == names[0][0];
    assert AbsPath(names)[1] == Slashed(names)[0];
  }

  lemma NothingBelowRoot(path: seq<string>)
    requires Names(path)
    ensures HasPrefix(AbsPath(path), AbsPath([])) <==> path == []
  {
    ElementsOfAbs([]);
    assert AbsPath([]) == "/" && AbsPath([]) + "/" == "//";
    if path != [] {
      SecondIsNoSlash(path);
      assert "//"[1] == '/' && !("//" <= AbsPath(path));
    }
  }

  lemma BelowDir(path: seq<string>, dir: seq<string>)
    requires Names(path) && Names(dir) && dir != []
    ensures AbsPath(dir) + "/" <= AbsPath(path) <==> dir < path
  {
    SlashedPrefix(dir, path);
    var longer := AbsPath(dir) + "/";
    assert AbsPath(path)[1..] == Slashed(path) && longer[1..] == Slashed(dir) + "/";
    assert longer <= AbsPath(path) <==> Slashed(dir) + "/" <= Slashed(path);
  }

  /**
   * HasPrefix is the prefix order on names, with one exception: below the root directory it says no,
   * because it looks for a second slash.
   */
  lemma HasPrefixIsPrefix(path: seq<string>, dir: seq<string>)
    requires Names(path) && Names(dir)
    ensures HasPrefix(AbsPath(path), AbsPath(dir)) <==> dir <= path && (dir == [] ==> path == [])
  {
    hide AbsPath, Clean;
    if dir == [] {
      NothingBelowRoot(path);
    } else {
      ElementsOfAbs(dir);
      BelowDir(path, dir);
      if AbsPath(path) == AbsPath(dir) { AbsPathInjective(path, dir); }
      assert dir <= path && |dir| == |path| ==> dir == path;
    }
  }
}
