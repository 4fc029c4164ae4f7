/**
 * The cover cache's file names. A purge picks files by the start and the end of their names; that picks
 * exactly the files of the purged ids, so the names can be read as the triples that CoverCache works with.
 */
module CoverNames {
  import L = Lines
  import opened Options
  import opened CoverCache

  function Digit(n: nat): char
    requires n < 10
  {
    "0123456789"[n]
  }

  function Decimal(n: nat): string {
    (if n < 10 then "" else Decimal(n / 10)) + [Digit(n % 10)]
  }

  predicate IsDigit(c: char) {
    '0' <= c <= '9'
  }

  lemma {:induction false} DecimalDigits(n: nat)
    ensures Decimal(n) != "" && forall c | c in Decimal(n) :: IsDigit(c)
  {
    if n >= 10 { DecimalDigits(n / 10); }
  }

  lemma {:induction false} DecimalInjective(m: nat, n: nat)
    requires Decimal(m) == Decimal(n)
    ensures m == n
  {
    var s, t := Decimal(m), Decimal(n);
    assert s[|s| - 1] == Digit(m % 10) && t[|t| - 1] == Digit(n % 10);
    assert s[..|s| - 1] == if m < 10 then "" else Decimal(m / 10);
    assert t[..|t| - 1] == if n < 10 then "" else Decimal(n / 10);
    if m >= 10 { DecimalDigits(m / 10); }
    if n >= 10 { DecimalDigits(n / 10); }
    if m >= 10 && n >= 10 { DecimalInjective(m / 10, n / 10); }
  }

  /** The number that a string of digits stands for. */
  function Value(s: string): nat
    requires forall c | c in s :: IsDigit(c)
  {
    if s == "" then 0
    else
      var last := s[|s| - 1];
      assert IsDigit(last);
      10 * Value(s[..|s| - 1]) + (last as nat - '0' as nat)
  }

  /** Decimal writes the number without leading zeros. */
  lemma {:induction false} DecimalIsValue(n: nat)
    ensures (forall c | c in Decimal(n) :: IsDigit(c)) && Value(Decimal(n)) == n
    ensures n > 0 ==> Decimal(n)[0] != '0'
  {
    DecimalDigits(n);
    var s := Decimal(n);
    assert s[|s| - 1] == Digit(n % 10) && s[..|s| - 1] == if n < 10 then "" else Decimal(n / 10);
    if n >= 10 {
      DecimalIsValue(n / 10);
      assert s[0] == Decimal(n / 10)[0];
    }
  }

  /** Row ids start at one. */
  predicate IsRowId(id: CoverId) {
    id.id > 0
  }

  function Kind(id: CoverId): string {
    if id.Album? then "al-" else "co-"
  }

  function IdString(id: CoverId): string {
    if id.id == 0 then "-1" else Kind(id) + Decimal(id.id)
  }

  /** An id's string says what it is the id of, and which. */
  lemma IdStringSays(id: CoverId)
    requires IsRowId(id)
    ensures id.Album? ==> "al-" <= IdString(id)
    ensures id.Collection? ==> "co-" <= IdString(id)
    ensures |IdString(id)| > 3 && forall c | c in IdString(id)[3..] :: IsDigit(c)
    ensures Value(IdString(id)[3..]) == id.id
  {
    assert IdString(id)[3..] == Decimal(id.id);
    DecimalIsValue(id.id);
  }

  /** coverCacheFilename. */
  function FileName(name: Name): string {
    IdString(name.id) + "-" + Decimal(name.size) + "." + name.format
  }

  function Prefix(id: CoverId): string {
    IdString(id) + "-"
  }

  predicate HasSuffix(s: string, suffix: string) {
    |suffix| <= |s| && s[|s| - |suffix|..] == suffix
  }

  /** What a purge of `ids` removes. */
  predicate Matches(ids: seq<CoverId>, file: string) {
    && (exists i :: 0 <= i < |ids| && Prefix(ids[i]) <= file)
    && exists f :: 0 <= f < |Formats| && HasSuffix(file, "." + Formats[f])
  }

  predicate NameOk(name: Name) {
    IsRowId(name.id) && name.format in Formats
  }

  /** A number, a dash and a rest come apart again at the dash. */
  lemma NumberThenDash(m: nat, n: nat, rest: string)
    requires Decimal(m) + "-" <= Decimal(n) + "-" + rest
    ensures m == n
  {
    hide Decimal;
    var s := Decimal(n) + "-" + rest;
    var more := s[|Decimal(m)| + 1..];
    DecimalDigits(m);
    DecimalDigits(n);
    assert s == Decimal(m) + "-" + more;
    L.CutAfter(Decimal(m), more, '-');
    L.CutAfter(Decimal(n), rest, '-');
    assert ['-'] == "-";
    DecimalInjective(m, n);
  }

  lemma SameKind(kind: string, a: string, own: string, b: string)
    requires |kind| == |own| && kind + a <= own + b
    ensures kind == own && a <= b
  {
    assert kind == (kind + a)[..|kind|] && own == (own + b)[..|own|];
    assert a == (kind + a)[|kind|..] && b == (own + b)[|own|..];
  }

  lemma KindsDiffer(a: CoverId, b: CoverId)
    requires Kind(a) == Kind(b)
    ensures a.Album? == b.Album?
  {
  }

  /** A file starts with an id and a dash only if it is that id's. */
  lemma PrefixIsOwn(id: CoverId, name: Name)
    requires IsRowId(id) && IsRowId(name.id)
    ensures Prefix(id) <= FileName(name) <==> id == name.id
  {
    hide Decimal, Kind;
    var rest := Decimal(name.size) + "." + name.format;
    assert Prefix(id) == Kind(id) + (Decimal(id.id) + "-");
    assert FileName(name) == Kind(name.id) + (Decimal(name.id.id) + "-" + rest);
    KindLength(id);
    KindLength(name.id);
    if Prefix(id) <= FileName(name) {
      SameKind(Kind(id), Decimal(id.id) + "-", Kind(name.id), Decimal(name.id.id) + "-" + rest);
      KindsDiffer(id, name.id);
      NumberThenDash(id.id, name.id.id, rest);
    } else {
      assert id == name.id ==> FileName(name) == Prefix(id) + rest;
    }
  }

  lemma KindLength(id: CoverId)
    ensures |Kind(id)| == 3
  {
  }

  lemma EndsInFormat(name: Name)
    requires NameOk(name)
    ensures exists f :: 0 <= f < |Formats| && HasSuffix(FileName(name), "." + Formats[f])
  {
  }

  /** A purge removes a cover's file exactly when it names the cover's id. */
  lemma MatchesIsMembership(ids: seq<CoverId>, name: Name)
    requires NameOk(name) && forall id | id in ids :: IsRowId(id)
    ensures Matches(ids, FileName(name)) <==> name.id in ids
  {
    EndsInFormat(name);
    forall i | 0 <= i < |ids| ensures Prefix(ids[i]) <= FileName(name) <==> ids[i] == name.id {
      assert ids[i] in ids;
      PrefixIsOwn(ids[i], name);
    }
  }

  lemma NumberThenDot(m: nat, x: string, n: nat, y: string)
    requires Decimal(m) + "." + x == Decimal(n) + "." + y
    ensures m == n && x == y
  {
    hide Decimal;
    DecimalDigits(m);
    DecimalDigits(n);
    L.CutAfter(Decimal(m), x, '.');
    L.CutAfter(Decimal(n), y, '.');
    assert ['.'] == ".";
    DecimalInjective(m, n);
  }

  /** Two covers never share a file. */
  lemma FileNameInjective(a: Name, b: Name)
    requires NameOk(a) && NameOk(b) && FileName(a) == FileName(b)
    ensures a == b
  {
    hide Decimal, IdString;
    var restA, restB := Decimal(a.size) + "." + a.format, Decimal(b.size) + "." + b.format;
    assert FileName(a) == Prefix(a.id) + restA && FileName(b) == Prefix(b.id) + restB;
    PrefixIsOwn(a.id, b);
    assert restA == FileName(a)[|Prefix(a.id)|..] && restB == FileName(b)[|Prefix(b.id)|..];
    NumberThenDot(a.size, a.format, b.size, b.format);
  }

  lemma NothingMatches()
    ensures forall file :: !Matches([], file)
  {
  }

  lemma MatchesByPrefixes(ids: seq<CoverId>, prefixes: seq<string>, file: string)
    requires |prefixes| == |ids| && forall i | 0 <= i < |ids| :: prefixes[i] == Prefix(ids[i])
    ensures Matches(ids, file) <==> && (exists i :: 0 <= i < |prefixes| && prefixes[i] <= file)
                                    && exists f :: 0 <= f < |Formats| && HasSuffix(file, "." + Formats[f])
  {
  }

  /** An id's string has no dot. */
  lemma NoDot(id: CoverId)
    ensures '.' !in Prefix(id)
  {
    DecimalDigits(id.id);
  }

  /** The file is an id, a dash, anything, a dot and a format. */
  ghost predicate IsCoverOf(id: CoverId, format: string, file: string) {
    exists rest :: file == IdString(id) + "-" + rest + "." + format
  }

  lemma PartsAreApart(id: CoverId, format: string, file: string)
    ensures Prefix(id) <= file && HasSuffix(file, "." + format) <==> IsCoverOf(id, format, file)
  {
    hide IdString;
    var prefix, suffix := Prefix(id), "." + format;
    if prefix <= file && HasSuffix(file, suffix) {
      NoDot(id);
      var m, n := |prefix|, |file| - |suffix|;
      assert file[n] == suffix[0] == '.';
      assert forall x | 0 <= x < m :: file[x] == prefix[x] && prefix[x] in prefix;
      assert m <= n;
      var rest := file[m..n];
      assert file == prefix + rest + suffix;
      assert file == IdString(id) + "-" + rest + "." + format;
    }
    if rest :| file == IdString(id) + "-" + rest + "." + format {
      assert file == prefix + (rest + "." + format);
      assert file == (prefix + rest) + suffix;
    }
  }

  /** A purge takes whatever is named like a cover of its ids, whoever made it, and nothing else. */
  lemma MatchesIs(ids: seq<CoverId>, file: string)
    ensures Matches(ids, file) <==> exists id, format :: id in ids && format in Formats && IsCoverOf(id, format, file)
  {
    hide IdString, HasSuffix, Prefix, IsCoverOf;
    if i, f :| 0 <= i < |ids| && 0 <= f < |Formats| && Prefix(ids[i]) <= file && HasSuffix(file, "." + Formats[f]) {
      PartsAreApart(ids[i], Formats[f], file);
      assert ids[i] in ids && Formats[f] in Formats;
    }
    if id, format :| id in ids && format in Formats && IsCoverOf(id, format, file) {
      PartsAreApart(id, format, file);
      var i :| 0 <= i < |ids| && ids[i] == id;
      var f :| 0 <= f < |Formats| && Formats[f] == format;
    }
  }

  function FileNames(names: set<Name>): set<string> {
    set name | name in names :: FileName(name)
  }

  class CoverDir {
    var files: set<string>

    constructor ()
      ensures files == {}
    {
      files := {};
    }

    method PurgeCachedCovers(ids: seq<CoverId>)
      modifies this
      ensures files == set file | file in old(files) && !Matches(ids, file)
    {
      hide Matches;
      NothingMatches();
      if ids == [] {
        return;
      }
      var prefixes: seq<string> := [];
      for i := 0 to |ids|
        invariant |prefixes| == i && forall j | 0 <= j < i :: prefixes[j] == Prefix(ids[j])
      {
        prefixes := prefixes + [IdString(ids[i]) + "-"];
      }
      var todo := files;
      while todo != {}
        invariant todo <= old(files)
        invariant forall file :: file in files <==> file in old(files) && (file in todo || !Matches(ids, file))
        decreases |todo|
      {
        var name :| name in todo;
        MatchesByPrefixes(ids, prefixes, name);
        todo := todo - {name};
        if !exists i :: 0 <= i < |prefixes| && prefixes[i] <= name { continue; }
        if !exists f :: 0 <= f < |Formats| && HasSuffix(name, "." + Formats[f]) { continue; }
        files := files - {name};
      }
    }

    /** findCachedCover: the first format, in their order, that there is a file for. */
    method FindCachedCover(id: CoverId, size: nat) returns (format: Option<string>)
      ensures format.None? ==> forall f | f in Formats :: FileName(Name(id, size, f)) !in files
      ensures format.Some? ==>
                exists i :: 0 <= i < |Formats| && Formats[i] == format.value && FileName(Name(id, size, Formats[i])) in files &&
                  forall j | 0 <= j < i :: FileName(Name(id, size, Formats[j])) !in files
    {
      for i := 0 to |Formats|
        invariant forall j | 0 <= j < i :: FileName(Name(id, size, Formats[j])) !in files
      {
        if FileName(Name(id, size, Formats[i])) in files {
          return Some(Formats[i]);
        }
      }
      format := None;
    }
  }

  /** On the files of any covers, a purge does what CoverCache's purge step does on their names. */
  lemma PurgeIsPurge(names: set<Name>, ids: seq<CoverId>)
    requires (forall name | name in names :: NameOk(name)) && forall id | id in ids :: IsRowId(id)
    ensures (set file | file in FileNames(names) && !Matches(ids, file)) == FileNames(set name | name in names && name.id !in ids)
  {
    forall name | name in names ensures Matches(ids, FileName(name)) <==> name.id in ids {
      MatchesIsMembership(ids, name);
    }
  }
}
