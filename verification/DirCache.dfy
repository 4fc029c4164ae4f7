/** The size-limited cache directory: ejecting the least recently used files. */
module DirCache {
  datatype File = File(size: nat, mtime: int)

  // Sizes ----------------------------------------------------------------------------------

  ghost function Total(files: map<string, File>): nat {
    if files == map[] then 0
    else
      var name :| name in files;
      files[name].size + Total(files - {name})
  }

  /** The total does not depend on the order in which files are added up. */
  lemma {:induction false} TotalWithout(files: map<string, File>, name: string)
    requires name in files
    ensures Total(files) == files[name].size + Total(files - {name})
    decreases |files|
  {
    var first :| first in files && Total(files) == files[first].size + Total(files - {first});
    if first != name {
      var rest := files - {first};
      TotalWithout(rest, name);
      assert rest - {name} == (files - {name}) - {first};
      TotalWithout(files - {name}, first);
    }
  }

  lemma TotalWith(files: map<string, File>, name: string, file: File)
    requires name !in files
    ensures Total(files[name := file]) == Total(files) + file.size
  {
    var more := files[name := file];
    TotalWithout(more, name);
    assert more - {name} == files;
  }

  // Order ----------------------------------------------------------------------------------

  predicate Sorted(files: map<string, File>, names: seq<string>)
    requires forall name | name in names :: name in files
  {
    forall i, j | 0 <= i < j < |names| :: files[names[i]].mtime <= files[names[j]].mtime
  }

  predicate Distinct(names: seq<string>) {
    forall i, j | 0 <= i < j < |names| :: names[i] != names[j]
  }

  /** The names are those of all files, each once. */
  ghost predicate Lists(files: map<string, File>, names: seq<string>) {
    Distinct(names) && forall name :: name in names <==> name in files.Keys
  }

  method SortByTime(files: map<string, File>, names: seq<string>) returns (sorted: seq<string>)
    requires Lists(files, names)
    ensures Lists(files, sorted) && Sorted(files, sorted)
  {
    sorted := [];
    for i := 0 to |names|
      invariant Distinct(sorted) && forall name :: name in sorted <==> name in names[..i]
      invariant (forall name | name in sorted :: name in files) && Sorted(files, sorted)
    {
      assert names[..i + 1] == names[..i] + [names[i]];
      var j := |sorted|;
      while j > 0 && files[sorted[j - 1]].mtime > files[names[i]].mtime
        invariant 0 <= j <= |sorted|
        invariant forall k | j <= k < |sorted| :: files[names[i]].mtime <= files[sorted[k]].mtime
      {
        j := j - 1;
      }
      assert names[i] !in sorted by { assert forall k | 0 <= k < i :: names[k] != names[i]; }
      Inserted(files, sorted, j, names[i]);
      sorted := sorted[..j] + [names[i]] + sorted[j..];
    }
    assert names[..|names|] == names;
  }

  lemma Inserted(files: map<string, File>, names: seq<string>, j: nat, name: string)
    requires j <= |names| && name !in names && Distinct(names) && name in files
    requires (forall n | n in names :: n in files) && Sorted(files, names)
    requires forall k | j <= k < |names| :: files[name].mtime <= files[names[k]].mtime
    requires j > 0 ==> files[names[j - 1]].mtime <= files[name].mtime
    ensures var more := names[..j] + [name] + names[j..];
            Distinct(more) && (forall n :: n in more <==> n in names || n == name) && Sorted(files, more)
  {
    var more := names[..j] + [name] + names[j..];
    InsertedNames(names, j, name);
    forall a, b | 0 <= a < b < |more|
      ensures more[a] != more[b] && files[more[a]].mtime <= files[more[b]].mtime
    {
      InOrder(files, names, j, name, a, b);
    }
  }

  lemma InsertedNames(names: seq<string>, j: nat, name: string)
    requires j <= |names|
    ensures forall n :: n in names[..j] + [name] + names[j..] <==> n in names || n == name
  {
  }

  lemma InOrder(files: map<string, File>, names: seq<string>, j: nat, name: string, a: nat, b: nat)
    requires j <= |names| && name !in names && Distinct(names) && name in files && a < b <= |names|
    requires (forall n | n in names :: n in files) && Sorted(files, names)
    requires forall k | j <= k < |names| :: files[name].mtime <= files[names[k]].mtime
    requires j > 0 ==> files[names[j - 1]].mtime <= files[name].mtime
    ensures var more := names[..j] + [name] + names[j..];
            more[a] != more[b] && more[a] in files && more[b] in files && files[more[a]].mtime <= files[more[b]].mtime
  {
  }

  // Ejecting -----------------------------------------------------------------------------------

  /** What ejecting may leave of the files: what it removes is the oldest, and no more than it has to be. */
  ghost predicate Ejected(files: map<string, File>, left: map<string, File>, limit: int) {
    && left.Keys <= files.Keys && (forall name | name in left :: left[name] == files[name])
    && Total(left) <= limit
    && (forall gone, kept | gone in files && gone !in left && kept in left :: files[gone].mtime <= files[kept].mtime)
    && (left == files || exists last :: Needed(files, left, limit, last))
  }

  /** The last file removed is the newest of the removed, and with it the rest was still too much. */
  ghost predicate Needed(files: map<string, File>, left: map<string, File>, limit: int, last: string) {
    && last in files && last !in left && Total(left) + files[last].size > limit
    && forall gone | gone in files && gone !in left :: files[gone].mtime <= files[last].mtime
  }

  /** Nothing is removed from a cache within its limit, and then a second Eject removes nothing. */
  lemma EjectedTwice(files: map<string, File>, left: map<string, File>, again: map<string, File>, limit: int)
    requires Ejected(files, left, limit) && Ejected(left, again, limit)
    ensures again == left
  {
    if again != left {
      var last :| Needed(left, again, limit, last);
      SmallerTotal(left, again, last);
    }
  }

  lemma {:induction false} SmallerTotal(files: map<string, File>, left: map<string, File>, name: string)
    requires left.Keys <= files.Keys && (forall n | n in left :: left[n] == files[n]) && name in files && name !in left
    ensures Total(left) + files[name].size <= Total(files)
    decreases |files|
  {
    TotalWithout(files, name);
    if other :| other in files && other != name && other !in left {
      TotalWithout(files, other);
      SmallerTotal(files - {other}, left, name);
    } else {
      assert files - {name} == left;
    }
  }

  class Cache {
    var files: map<string, File>
    const limitMB: int

    constructor (limitMB: int)
      ensures files == map[] && this.limitMB == limitMB
    {
      files, this.limitMB := map[], limitMB;
    }

    method WalkDir() returns (names: seq<string>, total: nat)
      ensures Lists(files, names) && total == Total(files)
    {
      names, total := [], 0;
      var left := files.Keys;
      NothingWalked(files);
      while left != {}
        invariant Walking(files, names, left, total)
        decreases |left|
      {
        var name :| name in left;
        WalkMore(files, names, left, total, name);
        left := left - {name};
        names := names + [name];
        total := total + files[name].size;
      }
      assert files - {} == files;
    }

    /**
     * Eject. For a limit that is not negative it never takes from an empty list; for a negative one it
     * always ends up doing that, with everything removed.
     */
    method Eject() returns (outOfRange: bool)
      modifies `files
      ensures outOfRange <==> limitMB < 0
      ensures !outOfRange ==> Ejected(old(files), files, limitMB * 1024 * 1024)
      ensures outOfRange ==> files == map[]
    {
      hide Total, Ejecting, Lists, Sorted, Ejected;
      var names, total := WalkDir();
      names := SortByTime(files, names);
      ghost var before := files;
      ghost var all := names;
      ghost var i := 0;
      NothingEjected(before, all, limitMB * 1024 * 1024);
      assert all[0..] == all;
      while total > limitMB * 1024 * 1024
        invariant total == Total(files) && i <= |all| && names == all[i..]
        invariant Ejecting(before, files, all, i, limitMB * 1024 * 1024)
        decreases |names|
      {
        if names == [] {
          NothingLeft(before, files, all, i, limitMB * 1024 * 1024);
          return true;
        }
        EjectOne(before, files, all, i, limitMB * 1024 * 1024);
        var name := names[0];
        names := names[1..];
        total := total - files[name].size;
        files := files - {name};
        i := i + 1;
      }
      RemovesOldest(before, files, all, i, limitMB * 1024 * 1024);
      outOfRange := false;
    }
  }

  ghost predicate Walking(files: map<string, File>, names: seq<string>, left: set<string>, total: nat) {
    && left <= files.Keys && Distinct(names)
    && (forall name :: name in names <==> name in files && name !in left)
    && total == Total(files - left)
  }

  lemma NothingWalked(files: map<string, File>)
    ensures Walking(files, [], files.Keys, 0)
  {
  }

  lemma WalkMore(files: map<string, File>, names: seq<string>, left: set<string>, total: nat, name: string)
    requires Walking(files, names, left, total) && name in left
    ensures Walking(files, names + [name], left - {name}, total + files[name].size)
  {
    hide Total;
    TotalWith(files - left, name, files[name]);
    assert (files - left)[name := files[name]] == files - (left - {name});
  }

  /** Where the loop stands when it has removed the first `i` of the files. */
  ghost predicate Ejecting(before: map<string, File>, files: map<string, File>, all: seq<string>, i: nat, limit: int) {
    && Lists(before, all) && Sorted(before, all) && i <= |all|
    && (forall name | name in files :: name in before && files[name] == before[name])
    && (forall name :: name in files <==> name in all[i..])
    && (i > 0 ==> Total(files) + before[all[i - 1]].size > limit)
  }

  lemma NothingEjected(files: map<string, File>, all: seq<string>, limit: int)
    requires Lists(files, all) && Sorted(files, all)
    ensures Ejecting(files, files, all, 0, limit)
  {
  }

  lemma NothingLeft(before: map<string, File>, files: map<string, File>, all: seq<string>, i: nat, limit: int)
    requires Ejecting(before, files, all, i, limit) && all[i..] == []
    ensures files == map[] && Total(files) == 0
  {
  }

  lemma EjectOne(before: map<string, File>, files: map<string, File>, all: seq<string>, i: nat, limit: int)
    requires Ejecting(before, files, all, i, limit) && i < |all| && Total(files) > limit
    ensures all[i] in files && all[i..][0] == all[i] && all[i..][1..] == all[i + 1..]
    ensures Total(files) == files[all[i]].size + Total(files - {all[i]})
    ensures Ejecting(before, files - {all[i]}, all, i + 1, limit)
  {
    hide Total;
    assert all[i] in all[i..];
    TotalWithout(files, all[i]);
    Popped(all, i);
  }

  lemma Popped(all: seq<string>, i: nat)
    requires Distinct(all) && i < |all|
    ensures forall name :: name in all[i + 1..] <==> name in all[i..] && name != all[i]
  {
  }

  lemma OlderThanKept(before: map<string, File>, all: seq<string>, i: nat, gone: string, kept: string)
    requires Lists(before, all) && Sorted(before, all) && i <= |all| && gone in all[..i] && kept in all[i..]
    ensures gone in before && kept in before && before[gone].mtime <= before[kept].mtime
  {
  }

  lemma GoneAreFirst(before: map<string, File>, files: map<string, File>, all: seq<string>, i: nat, limit: int)
    requires Ejecting(before, files, all, i, limit)
    ensures forall gone | gone in before && gone !in files :: gone in all[..i]
  {
    hide Total, Sorted, Distinct;
    assert all == all[..i] + all[i..];
    forall gone | gone in before && gone !in files ensures gone in all[..i] {
      assert gone in all;
    }
  }

  lemma RemovesOldest(before: map<string, File>, files: map<string, File>, all: seq<string>, i: nat, limit: int)
    requires Ejecting(before, files, all, i, limit) && Total(files) <= limit
    ensures Ejected(before, files, limit)
  {
    GoneAreFirst(before, files, all, i, limit);
    hide Total, Sorted, Distinct;
    forall gone, kept | gone in before && gone !in files && kept in files ensures before[gone].mtime <= before[kept].mtime {
      OlderThanKept(before, all, i, gone, kept);
    }
    if i == 0 {
      assert all[..0] == [];
      assert files == before;
    } else {
      LastRemoved(before, files, all, i, limit);
    }
  }

  lemma LastRemoved(before: map<string, File>, files: map<string, File>, all: seq<string>, i: nat, limit: int)
    requires Ejecting(before, files, all, i, limit) && 0 < i
    requires forall gone | gone in before && gone !in files :: gone in all[..i]
    ensures Needed(before, files, limit, all[i - 1])
  {
  }
}
