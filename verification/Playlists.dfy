/** M3U playlists: what is written for a playlist, and what is read back. */
module Playlists {
  import opened Options
  import opened Lines
  import opened Strconv
  import P = Paths

  datatype Playlist = Playlist(name: string, comment: string, isPublic: bool, items: seq<string>)

  // Attributes -----------------------------------------------------------------------------

  const AttrPrefix := "#GONIC-"
  const NameAttr := "NAME"
  const CommentAttr := "COMMENT"
  const PublicAttr := "IS-PUBLIC"

  function EncodeAttr(name: string, value: string, printable: set<char>): string {
    AttrPrefix + name + ":" + Quote(value, printable)
  }

  function DecodeAttr(line: string): (string, string) {
    if !(AttrPrefix <= line) then ("", "")
    else
      var cut := Cut(line, ':');
      var head := if cut.Some? then cut.value.0 else line;
      var value := if cut.Some? then Unquote(cut.value.1) else Unquote("");
      (if AttrPrefix <= head then head[|AttrPrefix|..] else head, if value.Some? then value.value else "")
  }

  /** strconv.ParseBool, with errors as false. */
  predicate ParseBool(s: string) {
    s in ["1", "t", "T", "true", "TRUE", "True"]
  }

  function FormatBool(b: bool): string {
    if b then "true" else "false"
  }

  predicate IsAttrName(name: string) {
    name == NameAttr || name == CommentAttr || name == PublicAttr
  }

  lemma DecodeEncode(name: string, value: string, printable: set<char>)
    requires NoControls(printable) && IsAttrName(name)
    ensures DecodeAttr(EncodeAttr(name, value, printable)) == (name, value)
  {
    var head := AttrPrefix + name;
    assert ':' !in AttrPrefix && ':' !in name;
    CutAfter(head, Quote(value, printable), ':');
    UnquoteQuote(value, printable);
    assert EncodeAttr(name, value, printable) == head + [':'] + Quote(value, printable);
    assert head[|AttrPrefix|..] == name;
  }

  // Reading --------------------------------------------------------------------------------

  function SetAttr(p: Playlist, attr: (string, string)): Playlist {
    if attr.0 == NameAttr then p.(name := attr.1)
    else if attr.0 == CommentAttr then p.(comment := attr.1)
    else if attr.0 == PublicAttr then p.(isPublic := ParseBool(attr.1))
    else p
  }

  function ItemOf(dir: seq<string>, line: string): string {
    if P.IsAbs(line) then line else P.Join([P.AbsPath(dir), line])
  }

  /** The playlist after one more line. */
  function ReadLine(p: Playlist, dir: seq<string>, text: string): Playlist {
    var line := TrimSpace(text);
    if line == "" then p
    else
      var p' := SetAttr(p, DecodeAttr(line));
      if line[0] == '#' then p' else p'.(items := p'.items + [ItemOf(dir, line)])
  }

  function ReadLines(p: Playlist, dir: seq<string>, lines: seq<string>): Playlist {
    if lines == [] then p else ReadLine(ReadLines(p, dir, lines[..|lines| - 1]), dir, lines[|lines| - 1])
  }

  /** The playlist that a file's text holds; without a name of its own it is called after the file. */
  function ReadText(dir: seq<string>, stem: string, text: string): Playlist {
    ReadLines(Playlist(stem, "", false, []), dir, Scan(text).lines)
  }

  // Writing --------------------------------------------------------------------------------

  /** A comment line that Write keeps. */
  predicate IsForeign(text: string) {
    var line := TrimSpace(text);
    line != "" && line[0] == '#' && !(AttrPrefix <= line)
  }

  function Foreign(lines: seq<string>): seq<string> {
    if lines == [] then []
    else Foreign(lines[..|lines| - 1]) + if IsForeign(lines[|lines| - 1]) then [lines[|lines| - 1]] else []
  }

  function Attrs(p: Playlist, printable: set<char>): seq<string> {
    [EncodeAttr(NameAttr, p.name, printable), EncodeAttr(CommentAttr, p.comment, printable),
     EncodeAttr(PublicAttr, FormatBool(p.isPublic), printable)]
  }

  /** An item as it is written: relative to the playlist's directory if it can be. */
  function ItemLine(dir: seq<string>, item: string): string {
    var rel := P.Rel(P.AbsPath(dir), item);
    if rel.Some? then rel.value else item
  }

  function ItemLines(dir: seq<string>, items: seq<string>): (lines: seq<string>)
    ensures |lines| == |items| && forall i | 0 <= i < |items| :: lines[i] == ItemLine(dir, items[i])
  {
    seq(|items|, i requires 0 <= i < |items| => ItemLine(dir, items[i]))
  }

  /** The lines of the attributes and the items. */
  function Own(dir: seq<string>, p: Playlist, printable: set<char>): seq<string> {
    Attrs(p, printable) + ItemLines(dir, p.items)
  }

  function WrittenLines(dir: seq<string>, existing: string, p: Playlist, printable: set<char>): seq<string> {
    Foreign(Scan(existing).lines) + Own(dir, p, printable)
  }

  function WriteText(dir: seq<string>, existing: string, p: Playlist, printable: set<char>): string {
    Printed(WrittenLines(dir, existing, p, printable))
  }

  /** The store's files, by directory and file name. */
  class Store {
    var files: map<(seq<string>, string), string>

    constructor ()
      ensures files == map[]
    {
      files := map[];
    }

    method Read(dir: seq<string>, file: string, stem: string) returns (p: Option<Playlist>)
      ensures p == if (dir, file) in files then Some(ReadText(dir, stem, files[(dir, file)])) else None
    {
      hide TrimSpace, DecodeAttr, P.Join, Scan;
      if (dir, file) !in files {
        return None;
      }
      var lines := Scan(files[(dir, file)]).lines;
      var playlist := Playlist(stem, "", false, []);
      for i := 0 to |lines|
        invariant playlist == ReadLines(Playlist(stem, "", false, []), dir, lines[..i])
      {
        assert lines[..i + 1][..i] == lines[..i];
        var line := TrimSpace(lines[i]);
        if line == "" { continue; }
        var (name, value) := DecodeAttr(line);
        if name == NameAttr {
          playlist := playlist.(name := value);
        } else if name == CommentAttr {
          playlist := playlist.(comment := value);
        } else if name == PublicAttr {
          playlist := playlist.(isPublic := ParseBool(value));
        }
        if line[0] == '#' { continue; }
        if !P.IsAbs(line) {
          line := P.Join([P.AbsPath(dir), line]);
        }
        playlist := playlist.(items := playlist.items + [line]);
      }
      assert lines[..|lines|] == lines;
      return Some(playlist);
    }

    method Write(dir: seq<string>, file: string, p: Playlist, printable: set<char>)
      modifies this
      ensures var existing := if (dir, file) in old(files) then old(files)[(dir, file)] else "";
              files == old(files)[(dir, file) := WriteText(dir, existing, p, printable)]
    {
      hide TrimSpace, EncodeAttr, P.Rel, Scan;
      var existing := if (dir, file) in files then files[(dir, file)] else "";
      var lines := Scan(existing).lines;
      var out: seq<string> := [];
      for i := 0 to |lines|
        invariant out == Foreign(lines[..i])
      {
        assert lines[..i + 1][..i] == lines[..i];
        var line := TrimSpace(lines[i]);
        if AttrPrefix <= line { continue; }
        if "#" <= line { out := out + [lines[i]]; }
      }
      assert lines[..|lines|] == lines;
      out := out + [EncodeAttr(NameAttr, p.name, printable)];
      out := out + [EncodeAttr(CommentAttr, p.comment, printable)];
      out := out + [EncodeAttr(PublicAttr, FormatBool(p.isPublic), printable)];
      ghost var before := out;
      assert before == Foreign(lines) + Attrs(p, printable);
      for i := 0 to |p.items|
        invariant out == before + ItemLines(dir, p.items)[..i]
      {
        var line := p.items[i];
        var rel := P.Rel(P.AbsPath(dir), line);
        if rel.Some? {
          line := rel.value;
        }
        assert ItemLines(dir, p.items)[..i + 1] == ItemLines(dir, p.items)[..i] + [line];
        out := out + [line];
      }
      assert ItemLines(dir, p.items)[..|p.items|] == ItemLines(dir, p.items);
      assert out == Foreign(lines) + Own(dir, p, printable);
      files := files[(dir, file) := Printed(out)];
    }
  }

  // Reading what was written ------------------------------------------------------------------

  /** The line is not taken for a comment and has nothing to trim. */
  predicate LineOk(line: string) {
    line != "" && line[0] != '#' && TrimSpace(line) == line && '\n' !in line
  }

  predicate LinesOk(dir: seq<string>, items: seq<string>) {
    P.Names(dir) && forall item | item in items :: LineOk(ItemLine(dir, item))
  }

  ghost predicate IsCleanPath(item: string) {
    exists names :: P.Names(names) && item == P.AbsPath(names)
  }

  /** The item that an item's line is read as. */
  function ReadItem(dir: seq<string>, item: string): string {
    ItemOf(dir, ItemLine(dir, item))
  }

  lemma LineIsItem(dir: seq<string>, line: string, p: Playlist)
    requires LineOk(line)
    ensures ReadLine(p, dir, line) == p.(items := p.items + [ItemOf(dir, line)])
  {
    hide TrimSpace, P.Join, Cut, Unquote;
    assert AttrPrefix[0] == '#' && !(AttrPrefix <= line);
  }

  /** An absolute line is the item it says, and a relative one is read from the playlist's directory. */
  lemma PathsAreRead(dir: seq<string>, names: seq<string>, p: Playlist)
    requires P.Names(dir) && P.Names(names)
    ensures LineOk(P.AbsPath(names)) ==> ReadLine(p, dir, P.AbsPath(names)) == p.(items := p.items + [P.AbsPath(names)])
    ensures names != [] && LineOk(P.Slashed(names)) ==>
              ReadLine(p, dir, P.Slashed(names)) == p.(items := p.items + [P.AbsPath(dir + names)])
  {
    hide TrimSpace, DecodeAttr, ReadLine, P.Join, P.Reduce, P.Parts;
    if LineOk(P.AbsPath(names)) { LineIsItem(dir, P.AbsPath(names), p); }
    if names != [] && LineOk(P.Slashed(names)) {
      LineIsItem(dir, P.Slashed(names), p);
      P.JoinReads(dir, P.Slashed(names));
      P.PartsOfSlashed(names);
      P.ReduceNames(true, dir, names);
      assert P.IsName(names[0]) && names[0][0] in names[0] && P.Slashed(names)[0] == names[0][0];
    }
  }

  /**
   * An item is read back as it was exactly when it is a clean absolute path. In particular the address of an internet
   * radio stream never is: it comes back as a path below the playlist's directory.
   */
  lemma ItemReadsBack(dir: seq<string>, item: string, p: Playlist)
    requires P.Names(dir) && LineOk(ItemLine(dir, item))
    ensures ReadLine(p, dir, ItemLine(dir, item)) == p.(items := p.items + [ReadItem(dir, item)])
    ensures ReadItem(dir, item) == item <==> IsCleanPath(item)
    ensures !P.IsAbs(item) ==> P.IsAbs(ReadItem(dir, item))
  {
    hide P.Join, P.Rel, TrimSpace, DecodeAttr;
    LineIsItem(dir, ItemLine(dir, item), p);
    P.RelIsNotAbs(dir, item);
    var line := ItemLine(dir, item);
    var joined := P.JoinIsClean(dir, line);
    assert !P.IsAbs(line);
    if names :| P.Names(names) && item == P.AbsPath(names) { P.JoinRel(dir, names); }
  }

  lemma PartsOfUrl(host: string)
    requires P.IsName(host)
    ensures P.Parts("http://" + host) == ["http:", "", host] && !P.IsAbs("http://" + host)
  {
    assert "http://" + host == "http:" + "/" + ("" + "/" + host);
    P.PartsConcat("http:", "" + "/" + host);
    P.PartsConcat("", host);
    P.PartsOfOne("http:");
    P.PartsOfOne(host);
  }

  /** So a stream in a playlist comes back as a path of the file system. */
  lemma StreamIsLost(dir: seq<string>, host: string)
    requires P.Names(dir) && P.IsName(host)
    ensures ItemLine(dir, "http://" + host) == "http://" + host
    ensures ReadItem(dir, "http://" + host) == P.AbsPath(dir + ["http:", host])
  {
    hide P.Parts, P.Reduce, P.Join;
    var url, elements := "http://" + host, ["http:", host];
    PartsOfUrl(host);
    HttpReduces(false, [], host);
    HttpReduces(true, dir, host);
    P.ElementsOfAbs(dir);
    assert P.Elements(url) == [] + elements == elements;
    assert P.Slashed(elements)[0] == 'h' && P.AbsPath(dir)[0] == '/';
    assert P.Clean(url) != P.Clean(P.AbsPath(dir));
    P.JoinReads(dir, url);
  }

  lemma HttpReduces(rooted: bool, acc: seq<string>, host: string)
    requires P.IsName(host)
    ensures P.Reduce(rooted, acc, ["http:", "", host]) == acc + ["http:", host]
  {
    P.ReduceConcat(rooted, acc, ["http:", ""], [host]);
    P.ReduceConcat(rooted, acc, ["http:"], [""]);
    assert ["http:"] + [""] == ["http:", ""] && ["http:", ""] + [host] == ["http:", "", host];
    P.ReduceNames(rooted, acc, ["http:"]);
    assert P.Reduce(rooted, acc + ["http:"], [""]) == P.Reduce(rooted, acc + ["http:"], []);
    P.ReduceNames(rooted, acc + ["http:"], [host]);
  }

  lemma {:induction false} ReadConcat(p: Playlist, dir: seq<string>, a: seq<string>, b: seq<string>)
    ensures ReadLines(p, dir, a + b) == ReadLines(ReadLines(p, dir, a), dir, b)
  {
    hide ReadLine;
    if b == [] {
      assert a + b == a;
    } else {
      assert (a + b)[..|a + b| - 1] == a + b[..|b| - 1];
      ReadConcat(p, dir, a, b[..|b| - 1]);
    }
  }

  lemma ForeignReads(p: Playlist, dir: seq<string>, line: string)
    requires IsForeign(line)
    ensures ReadLine(p, dir, line) == p && IsForeign(DropCr(line))
  {
    TrimDropCr(line);
  }

  lemma {:induction false} ReadForeign(p: Playlist, dir: seq<string>, lines: seq<string>)
    requires forall line | line in lines :: IsForeign(line)
    ensures ReadLines(p, dir, lines) == p
  {
    hide ReadLine, IsForeign;
    if lines != [] {
      ReadForeign(p, dir, lines[..|lines| - 1]);
      ForeignReads(p, dir, lines[|lines| - 1]);
    }
  }

  lemma {:induction false} InForeign(lines: seq<string>)
    ensures forall line | line in Foreign(lines) :: line in lines && IsForeign(line)
  {
    hide IsForeign;
    if lines != [] { InForeign(lines[..|lines| - 1]); }
  }

  lemma {:induction false} AllForeign(lines: seq<string>)
    requires forall line | line in lines :: IsForeign(line)
    ensures Foreign(lines) == lines
  {
    hide IsForeign;
    if lines != [] {
      AllForeign(lines[..|lines| - 1]);
      assert lines == lines[..|lines| - 1] + [lines[|lines| - 1]];
    }
  }

  lemma {:induction false} NoneForeign(lines: seq<string>)
    requires forall line | line in lines :: !IsForeign(line)
    ensures Foreign(lines) == []
  {
    hide IsForeign;
    if lines != [] { NoneForeign(lines[..|lines| - 1]); }
  }

  lemma {:induction false} ForeignConcat(a: seq<string>, b: seq<string>)
    ensures Foreign(a + b) == Foreign(a) + Foreign(b)
  {
    hide IsForeign;
    if b == [] {
      assert a + b == a;
    } else {
      assert (a + b)[..|a + b| - 1] == a + b[..|b| - 1];
      ForeignConcat(a, b[..|b| - 1]);
    }
  }

  lemma AttrIsLine(name: string, value: string, printable: set<char>)
    requires NoControls(printable) && IsAttrName(name)
    ensures var line := EncodeAttr(name, value, printable);
            TrimSpace(line) == line && DropCr(line) == line && '\n' !in line && AttrPrefix <= line
  {
    hide Body;
    var line := EncodeAttr(name, value, printable);
    BodyHasNoNewline(value, printable);
    assert line[0] == '#' && line[|line| - 1] == '"';
    assert '\n' !in AttrPrefix && '\n' !in name;
    TrimNothing(line);
  }

  lemma TrimNothing(s: string)
    requires s != "" && !IsSpace(s[0]) && !IsSpace(s[|s| - 1])
    ensures TrimSpace(s) == s
  {
  }

  /** What such a line is, apart from what it says. */
  predicate CleanLine(line: string) {
    DropCr(line) == line && '\n' !in line && !IsForeign(line)
  }

  lemma TrimmedHasNoCr(s: string)
    requires TrimSpace(s) == s
    ensures DropCr(s) == s
  {
    if s != "" {
      assert s == TrimRight(TrimLeft(s));
      assert !IsSpace(s[|s| - 1]);
    }
  }

  lemma OwnIsClean(dir: seq<string>, p: Playlist, printable: set<char>, i: nat)
    requires NoControls(printable) && LinesOk(dir, p.items) && i < |Own(dir, p, printable)|
    ensures CleanLine(Own(dir, p, printable)[i])
  {
    hide EncodeAttr, ItemLine, TrimSpace, DropCr, ReadLine;
    AttrIsLine(NameAttr, p.name, printable);
    AttrIsLine(CommentAttr, p.comment, printable);
    AttrIsLine(PublicAttr, FormatBool(p.isPublic), printable);
    if i >= 3 {
      assert p.items[i - 3] in p.items && LineOk(ItemLine(dir, p.items[i - 3]));
      TrimmedHasNoCr(ItemLine(dir, p.items[i - 3]));
    }
  }

  function ReadItems(dir: seq<string>, items: seq<string>): (read: seq<string>)
    ensures |read| == |items| && forall i | 0 <= i < |items| :: read[i] == ReadItem(dir, items[i])
  {
    seq(|items|, i requires 0 <= i < |items| => ReadItem(dir, items[i]))
  }

  /** The playlist, as far as lines that fit go. */
  function AsRead(dir: seq<string>, p: Playlist): Playlist {
    p.(items := ReadItems(dir, p.items))
  }

  /** What has been read after `k` of them. */
  function Partly(stem: string, p: Playlist, k: nat): Playlist {
    Playlist(if k >= 1 then p.name else stem, if k >= 2 then p.comment else "", k >= 3 && p.isPublic,
             if k <= 3 then [] else if k - 3 <= |p.items| then p.items[..k - 3] else p.items)
  }

  lemma ReadAttr(q: Playlist, dir: seq<string>, name: string, value: string, printable: set<char>)
    requires NoControls(printable) && IsAttrName(name)
    ensures ReadLine(q, dir, EncodeAttr(name, value, printable)) == SetAttr(q, (name, value))
  {
    hide TrimSpace, DecodeAttr, Quote;
    AttrIsLine(name, value, printable);
    DecodeEncode(name, value, printable);
    assert EncodeAttr(name, value, printable)[0] == '#';
  }

  lemma ReadOwnLine(dir: seq<string>, stem: string, p: Playlist, printable: set<char>, k: nat)
    requires NoControls(printable) && LinesOk(dir, p.items) && k < |Own(dir, p, printable)|
    ensures ReadLine(Partly(stem, AsRead(dir, p), k), dir, Own(dir, p, printable)[k]) == Partly(stem, AsRead(dir, p), k + 1)
  {
    hide ReadLine, EncodeAttr, ItemLine, LineOk, ReadItem;
    var read := ReadItems(dir, p.items);
    var q := Partly(stem, AsRead(dir, p), k);
    assert ParseBool(FormatBool(p.isPublic)) == p.isPublic;
    if k == 0 { ReadAttr(q, dir, NameAttr, p.name, printable); }
    else if k == 1 { ReadAttr(q, dir, CommentAttr, p.comment, printable); }
    else if k == 2 { ReadAttr(q, dir, PublicAttr, FormatBool(p.isPublic), printable); }
    else {
      assert p.items[k - 3] in p.items;
      ItemReadsBack(dir, p.items[k - 3], q);
      assert read[..k - 2] == read[..k - 3] + [read[k - 3]];
    }
  }

  lemma {:induction false} ReadOwn(dir: seq<string>, stem: string, p: Playlist, printable: set<char>, k: nat)
    requires NoControls(printable) && LinesOk(dir, p.items) && k <= |Own(dir, p, printable)|
    ensures ReadLines(Playlist(stem, "", false, []), dir, Own(dir, p, printable)[..k]) == Partly(stem, AsRead(dir, p), k)
  {
    hide ReadLine, EncodeAttr, ItemLine, AsRead;
    if k > 0 {
      assert Own(dir, p, printable)[..k][..k - 1] == Own(dir, p, printable)[..k - 1];
      ReadOwn(dir, stem, p, printable, k - 1);
      ReadOwnLine(dir, stem, p, printable, k - 1);
    }
  }

  lemma ReadableOfClean(lines: seq<string>)
    requires forall line | line in lines :: DropCr(line) == line
    ensures Readable(lines) <= lines
  {
    hide DropCr;
    ReadableIsPrefix(lines);
  }

  lemma ReadableOfFitting(lines: seq<string>)
    requires AllFit(lines)
    ensures Readable(lines) == DropCrs(lines)
  {
    hide DropCr;
    ReadableIsPrefix(lines);
    ReadableShorter(lines);
  }

  lemma {:induction false} Utf8Concat(a: string, b: string)
    ensures Utf8Len(a + b) == Utf8Len(a) + Utf8Len(b)
  {
    if a == "" {
      assert a + b == b;
    } else {
      assert (a + b)[1..] == a[1..] + b;
      Utf8Concat(a[1..], b);
    }
  }

  lemma DropCrFits(line: string)
    requires Fits(line)
    ensures Fits(DropCr(line))
  {
    if DropCr(line) != line {
      assert line == DropCr(line) + ['\r'];
      Utf8Concat(DropCr(line), ['\r']);
    }
  }

  lemma {:induction false} ScannedLines(text: string)
    ensures AllFit(Scan(text).lines) && NoBreaks(Scan(text).lines)
    decreases |text|
  {
    if text != "" {
      var cut := Cut(text, '\n');
      if cut.Some? { ScannedLines(cut.value.1); }
      var line := if cut.Some? then cut.value.0 else text;
      if Fits(line) { DropCrFits(line); }
    }
  }

  /** The lines of the file that Read sees after a Write. */
  lemma ScanWritten(dir: seq<string>, existing: string, p: Playlist, printable: set<char>)
    requires NoControls(printable) && LinesOk(dir, p.items)
    ensures var kept, own := Foreign(Scan(existing).lines), Own(dir, p, printable);
            && |Readable(own)| <= |own| && (|Readable(own)| == |own| <==> AllFit(own))
            && Scan(WriteText(dir, existing, p, printable)).lines == DropCrs(kept) + own[..|Readable(own)|]
            && AllFit(kept) && (forall line | line in kept :: IsForeign(line))
            && forall line | line in own :: CleanLine(line)
  {
    hide Scan, IsForeign, EncodeAttr, ItemLine, DropCr, LineOk, LinesOk, Readable;
    var kept, own := Foreign(Scan(existing).lines), Own(dir, p, printable);
    ScannedLines(existing);
    InForeign(Scan(existing).lines);
    forall line | line in own ensures CleanLine(line) {
      var i: nat :| i < |own| && own[i] == line;
      OwnIsClean(dir, p, printable, i);
    }
    ScanPrinted(kept + own);
    ReadableConcat(kept, own);
    ReadableOfFitting(kept);
    ReadableOfClean(own);
    ReadableShorter(own);
  }

  lemma {:induction false} ShortFits(s: string)
    ensures Utf8Len(s) <= 4 * |s|
  {
    if s != "" { ShortFits(s[1..]); }
  }

  lemma {:induction false} BodyIsShort(s: string, printable: set<char>)
    ensures |Body(s, printable)| <= 10 * |s|
  {
    if s != "" { BodyIsShort(s[1..], printable); }
  }

  lemma ShortAttrFits(name: string, value: string, printable: set<char>)
    requires IsAttrName(name) && |value| <= 5
    ensures Fits(EncodeAttr(name, value, printable))
  {
    BodyIsShort(value, printable);
    ShortFits(EncodeAttr(name, value, printable));
  }

  /** Reading gives less or something else exactly when a line did not fit or an item is not read back. */
  lemma PartlyIsWhole(dir: seq<string>, stem: string, p: Playlist, printable: set<char>)
    requires Fits(EncodeAttr(NameAttr, stem, printable))
    ensures Partly(stem, AsRead(dir, p), |Readable(Own(dir, p, printable))|) == p <==>
            AllFit(Own(dir, p, printable)) && ReadItems(dir, p.items) == p.items
  {
    hide EncodeAttr, ItemLine, ReadItem;
    var read := ReadItems(dir, p.items);
    var own := Own(dir, p, printable);
    var k := |Readable(own)|;
    ReadableShorter(own);
    ShortAttrFits(CommentAttr, "", printable);
    ShortAttrFits(PublicAttr, FormatBool(p.isPublic), printable);
    if k == |own| {
      assert read[..|read|] == read;
    } else {
      ReadableIsPrefix(own);
    }
  }

  lemma ItemsReadBack(dir: seq<string>, items: seq<string>)
    requires LinesOk(dir, items)
    ensures ReadItems(dir, items) == items <==> forall item | item in items :: IsCleanPath(item)
  {
    hide ItemLine, ReadItem, IsCleanPath, LineOk;
    var p := Playlist("", "", false, []);
    forall i | 0 <= i < |items| ensures ReadItem(dir, items[i]) == items[i] <==> IsCleanPath(items[i]) {
      assert items[i] in items;
      ItemReadsBack(dir, items[i], p);
    }
    var read := ReadItems(dir, items);
    if forall item | item in items :: IsCleanPath(item) {
      assert forall i | 0 <= i < |items| :: items[i] in items && read[i] == items[i];
    } else {
      var item :| item in items && !IsCleanPath(item);
      var i :| 0 <= i < |items| && items[i] == item;
      assert read[i] != items[i];
    }
  }

  /**
   * Read after Write gives the same playlist back exactly when every line fits the line scanner's buffer and every
   * item is a clean absolute path: from the first line of more than 65535 bytes on, everything is dropped without an
   * error, and what is not a path is read as one.
   */
  lemma ReadAfterWrite(dir: seq<string>, stem: string, existing: string, p: Playlist, printable: set<char>)
    requires NoControls(printable) && LinesOk(dir, p.items) && Fits(EncodeAttr(NameAttr, stem, printable))
    ensures ReadText(dir, stem, WriteText(dir, existing, p, printable)) == p <==>
            AllFit(Own(dir, p, printable)) && forall item | item in p.items :: IsCleanPath(item)
  {
    hide Scan, IsForeign, EncodeAttr, ItemLine, WriteText, DropCr, ReadLine, IsCleanPath, AsRead, LineOk;
    var kept, own := Foreign(Scan(existing).lines), Own(dir, p, printable);
    var start := Playlist(stem, "", false, []);
    ScanWritten(dir, existing, p, printable);
    DroppedAreForeign(kept);
    ReadConcat(start, dir, DropCrs(kept), own[..|Readable(own)|]);
    ReadForeign(start, dir, DropCrs(kept));
    ReadOwn(dir, stem, p, printable, |Readable(own)|);
    PartlyIsWhole(dir, stem, p, printable);
    ItemsReadBack(dir, p.items);
  }

  lemma DroppedAreForeign(kept: seq<string>)
    requires forall line | line in kept :: IsForeign(line)
    ensures forall line | line in DropCrs(kept) :: IsForeign(line)
  {
    forall i | 0 <= i < |kept| ensures IsForeign(DropCrs(kept)[i]) {
      assert kept[i] in kept;
      TrimDropCr(kept[i]);
    }
  }

  // What happens to the rest of the file ------------------------------------------------------

  /** The line is one line, and not one that is taken for a comment. */
  predicate IsPlain(line: string) {
    '\n' !in line && !("#" <= TrimSpace(line))
  }

  /** Every item's line is plain, be the item a file anywhere or an internet radio stream. */
  predicate PlainItems(dir: seq<string>, items: seq<string>) {
    forall item | item in items :: IsPlain(ItemLine(dir, item))
  }

  /** All lines of a file, however long. */
  function AllLines(text: string): seq<string> {
    DropCrs(RawLines(text))
  }

  /** The comments of other programs in a file. */
  function Comments(text: string): seq<string> {
    Foreign(AllLines(text))
  }

  lemma OwnIsPlain(dir: seq<string>, p: Playlist, printable: set<char>, i: nat)
    requires NoControls(printable) && PlainItems(dir, p.items) && i < |Own(dir, p, printable)|
    ensures '\n' !in Own(dir, p, printable)[i] && !IsForeign(DropCr(Own(dir, p, printable)[i]))
    ensures AttrPrefix <= TrimSpace(DropCr(Own(dir, p, printable)[i])) <==> i < 3
  {
    hide EncodeAttr, ItemLine, TrimSpace, DropCr;
    AttrIsLine(NameAttr, p.name, printable);
    AttrIsLine(CommentAttr, p.comment, printable);
    AttrIsLine(PublicAttr, FormatBool(p.isPublic), printable);
    TrimDropCr(Own(dir, p, printable)[i]);
    if i >= 3 { assert p.items[i - 3] in p.items; }
  }

  lemma AllLinesWritten(dir: seq<string>, existing: string, p: Playlist, printable: set<char>)
    requires NoControls(printable) && PlainItems(dir, p.items)
    ensures var kept := Foreign(Readable(RawLines(existing)));
            && AllLines(WriteText(dir, existing, p, printable)) == DropCrs(kept) + DropCrs(Own(dir, p, printable))
            && forall line | line in DropCrs(kept) :: IsForeign(line)
  {
    hide Scan, Readable, RawLines, IsForeign, Own, DropCr;
    var kept, own := Foreign(Scan(existing).lines), Own(dir, p, printable);
    ScanIsReadable(existing);
    ScannedLines(existing);
    InForeign(Scan(existing).lines);
    DroppedAreForeign(kept);
    forall line | line in own ensures '\n' !in line {
      var i: nat :| i < |own| && own[i] == line;
      OwnIsPlain(dir, p, printable, i);
    }
    RawPrinted(kept + own);
  }

  /** A rewritten file has, in order, exactly the comments that came before the first line that is too long. */
  lemma ForeignCommentsStay(dir: seq<string>, existing: string, p: Playlist, printable: set<char>)
    requires NoControls(printable) && PlainItems(dir, p.items)
    ensures Comments(WriteText(dir, existing, p, printable)) == DropCrs(Foreign(Readable(RawLines(existing))))
  {
    hide WriteText, AllLines, Readable, RawLines, IsForeign, Own, DropCr;
    var kept, own := Foreign(Readable(RawLines(existing))), Own(dir, p, printable);
    AllLinesWritten(dir, existing, p, printable);
    ForeignConcat(DropCrs(kept), DropCrs(own));
    AllForeign(DropCrs(kept));
    forall i | 0 <= i < |own| ensures !IsForeign(DropCrs(own)[i]) {
      OwnIsPlain(dir, p, printable, i);
    }
    NoneForeign(DropCrs(own));
  }

  /** These are the positions of the lines kept: those that start with # but not with #GONIC-, in their order. */
  ghost predicate CommentsAt(lines: seq<string>, kept: seq<string>, ks: seq<nat>) {
    && |ks| == |kept| && (forall j | 0 <= j < |ks| :: ks[j] < |lines| && lines[ks[j]] == kept[j])
    && (forall j, l | 0 <= j < l < |ks| :: ks[j] < ks[l])
    && (forall x | 0 <= x < |lines| :: x in ks <==> "#" <= TrimSpace(lines[x]) && !("#GONIC-" <= TrimSpace(lines[x])))
  }

  lemma CommentsMore(lines: seq<string>, kept: seq<string>, ks: seq<nat>, line: string)
    requires CommentsAt(lines, kept, ks)
    ensures if "#" <= TrimSpace(line) && !("#GONIC-" <= TrimSpace(line)) then CommentsAt(lines + [line], kept + [line], ks + [|lines|])
            else CommentsAt(lines + [line], kept, ks)
  {
    hide TrimSpace;
    var ks' := ks + [|lines|];
    assert ks'[|ks|] == |lines| && forall k | k in ks' :: k in ks || k == |lines|;
    assert forall k | k in ks :: k in ks';
  }

  lemma {:induction false} ForeignAreComments(lines: seq<string>) returns (ks: seq<nat>)
    ensures CommentsAt(lines, Foreign(lines), ks)
  {
    hide TrimSpace;
    ks := [];
    if lines != [] {
      var init, line := lines[..|lines| - 1], lines[|lines| - 1];
      ks := ForeignAreComments(init);
      CommentsMore(init, Foreign(init), ks, line);
      assert lines == init + [line];
      assert IsForeign(line) <==> "#" <= TrimSpace(line) && !("#GONIC-" <= TrimSpace(line));
      if IsForeign(line) { ks := ks + [|init|]; }
    }
  }

  /**
   * A rewritten file begins with the lines of the old one, up to the first that is too long, that start with # but not
   * with #GONIC-, and goes on with the playlist's own lines.
   */
  lemma CommentsComeFirst(dir: seq<string>, existing: string, p: Playlist, printable: set<char>) returns (kept: seq<string>, ks: seq<nat>)
    requires NoControls(printable) && PlainItems(dir, p.items)
    ensures AllLines(WriteText(dir, existing, p, printable)) == DropCrs(kept) + DropCrs(Own(dir, p, printable))
    ensures var read := Readable(RawLines(existing)); CommentsAt(read, kept, ks)
  {
    hide WriteText, AllLines, Readable, RawLines, IsForeign, Own, DropCr, CommentsAt;
    AllLinesWritten(dir, existing, p, printable);
    kept := Foreign(Readable(RawLines(existing)));
    ks := ForeignAreComments(Readable(RawLines(existing)));
  }

  /** No comment of another program is, or comes after, a line that is too long. */
  predicate NoneCutOff(lines: seq<string>) {
    forall i, j | 0 <= i <= j < |lines| :: Fits(lines[i]) || !IsForeign(lines[j])
  }

  lemma {:induction false} StaysForeign(lines: seq<string>, j: nat)
    requires j < |lines| && IsForeign(lines[j])
    ensures Foreign(lines) != []
  {
    hide IsForeign;
    if j < |lines| - 1 { StaysForeign(lines[..|lines| - 1], j); }
  }

  lemma DropCrKeepsForeign(line: string)
    ensures IsForeign(DropCr(line)) <==> IsForeign(line)
  {
    TrimDropCr(line);
  }

  lemma NoForeignFrom(lines: seq<string>, n: nat)
    requires n <= |lines|
    ensures Foreign(DropCrs(lines)[n..]) == [] <==> forall j | n <= j < |lines| :: !IsForeign(lines[j])
  {
    hide IsForeign, Foreign, DropCr;
    var rest := DropCrs(lines)[n..];
    forall j | 0 <= j < |rest| ensures IsForeign(rest[j]) <==> IsForeign(lines[n + j]) {
      DropCrKeepsForeign(lines[n + j]);
    }
    if forall j | n <= j < |lines| :: !IsForeign(lines[j]) {
      NoneForeign(rest);
    } else {
      var j :| n <= j < |lines| && IsForeign(lines[j]);
      assert IsForeign(rest[j - n]);
      StaysForeign(rest, j - n);
    }
  }

  /** No line from the first on that is too long is a comment, if none is cut off, and the other way round. */
  lemma CutOffFrom(lines: seq<string>)
    ensures var n := |Readable(lines)|;
            n <= |lines| && (NoneCutOff(lines) <==> forall j | n <= j < |lines| :: !IsForeign(lines[j]))
  {
    hide IsForeign, Fits, DropCr, Readable;
    ReadableIsPrefix(lines);
  }

  /** The comments of a text are those the scanner gives, if and only if none is cut off. */
  lemma NoneCutOffIff(text: string)
    ensures var kept := Foreign(Readable(RawLines(text)));
            && kept <= Comments(text)
            && (|kept| == |Comments(text)| <==> NoneCutOff(RawLines(text)))
  {
    hide Readable, RawLines, IsForeign, NoneCutOff, Foreign, Fits, DropCr;
    var raw, all := RawLines(text), AllLines(text);
    var n := |Readable(raw)|;
    ReadableIsPrefix(raw);
    assert Readable(raw) == all[..n] && all == all[..n] + all[n..];
    ForeignConcat(all[..n], all[n..]);
    NoForeignFrom(raw, n);
    CutOffFrom(raw);
  }

  /**
   * A rewrite keeps all comments of other programs, each without a final carriage return at most, exactly when none
   * is cut off by a line of more than 65535 bytes.
   */
  lemma CommentsSurviveIff(dir: seq<string>, existing: string, p: Playlist, printable: set<char>)
    requires NoControls(printable) && PlainItems(dir, p.items)
    ensures Comments(WriteText(dir, existing, p, printable)) == DropCrs(Comments(existing))
            <==> NoneCutOff(RawLines(existing))
  {
    hide WriteText, Comments, Foreign, Readable, RawLines, NoneCutOff, DropCr;
    ForeignCommentsStay(dir, existing, p, printable);
    NoneCutOffIff(existing);
  }

  /** What a rewrite leaves, every later rewrite keeps. */
  lemma CommentsAreLostOnce(dir: seq<string>, existing: string, p: Playlist, q: Playlist, printable: set<char>)
    requires NoControls(printable) && PlainItems(dir, p.items) && PlainItems(dir, q.items)
    ensures var once := WriteText(dir, existing, p, printable);
            Comments(WriteText(dir, once, q, printable)) == DropCrs(Comments(once))
  {
    hide Scan, Own, IsForeign, Foreign, Fits, EncodeAttr, ItemLine, DropCr;
    var kept, own := Foreign(Scan(existing).lines), Own(dir, p, printable);
    ScannedLines(existing);
    InForeign(Scan(existing).lines);
    forall line | line in own ensures '\n' !in line && !IsForeign(line) {
      var i: nat :| i < |own| && own[i] == line;
      OwnIsPlain(dir, p, printable, i);
      DropCrKeepsForeign(line);
    }
    RawPrinted(kept + own);
    assert NoneCutOff(kept + own);
    CommentsSurviveIff(dir, WriteText(dir, existing, p, printable), q, printable);
  }

  function Xs(n: nat): string {
    if n == 0 then "" else "x" + Xs(n - 1)
  }

  lemma {:induction false} XsLen(n: nat)
    ensures Utf8Len(Xs(n)) == n && '\n' !in Xs(n)
    ensures Fits(Xs(n)) <==> n <= MaxLine
  {
    if n > 0 { XsLen(n - 1); }
  }

  const Header := "#EXTM3U"

  lemma HeaderIsForeign()
    ensures IsForeign(DropCr(Header)) && '\n' !in Header
  {
    hide TrimSpace, DropCr;
    assert Header[0] == '#' && Header[1] == 'E' && Header[|Header| - 1] == 'U' && AttrPrefix[1] == 'G';
    TrimNothing(Header);
    DropCrKeepsForeign(Header);
  }

  /** A comment that is lost: the line before it has 65536 bytes. */
  lemma LongLineLosesComment(dir: seq<string>, p: Playlist, printable: set<char>)
    requires NoControls(printable) && PlainItems(dir, p.items)
    ensures var existing := Printed([Xs(MaxLine + 1), Header]);
            Comments(existing) != [] && Comments(WriteText(dir, existing, p, printable)) == []
  {
    hide WriteText, TrimSpace, Xs, Fits, IsForeign, Foreign, DropCr, Printed;
    var lines := [Xs(MaxLine + 1), Header];
    XsLen(MaxLine + 1);
    HeaderIsForeign();
    RawPrinted(lines);
    ForeignCommentsStay(dir, Printed(lines), p, printable);
    NoneForeign([]);
    StaysForeign(AllLines(Printed(lines)), 1);
  }

  /** The lines that carry one of the program's own attributes. */
  function AttrLines(lines: seq<string>): seq<string> {
    if lines == [] then []
    else AttrLines(lines[..|lines| - 1]) + if AttrPrefix <= TrimSpace(lines[|lines| - 1]) then [lines[|lines| - 1]] else []
  }

  lemma {:induction false} AttrConcat(a: seq<string>, b: seq<string>)
    ensures AttrLines(a + b) == AttrLines(a) + AttrLines(b)
  {
    hide TrimSpace;
    if b == [] {
      assert a + b == a;
    } else {
      assert (a + b)[..|a + b| - 1] == a + b[..|b| - 1];
      AttrConcat(a, b[..|b| - 1]);
    }
  }

  lemma {:induction false} NoAttrs(lines: seq<string>)
    requires forall line | line in lines :: !(AttrPrefix <= TrimSpace(line))
    ensures AttrLines(lines) == []
  {
    hide TrimSpace;
    if lines != [] { NoAttrs(lines[..|lines| - 1]); }
  }

  lemma {:induction false} AllAttrs(lines: seq<string>)
    requires forall line | line in lines :: AttrPrefix <= TrimSpace(line)
    ensures AttrLines(lines) == lines
  {
    hide TrimSpace;
    if lines != [] {
      AllAttrs(lines[..|lines| - 1]);
      assert lines == lines[..|lines| - 1] + [lines[|lines| - 1]];
    }
  }

  /** A rewritten file has each attribute once, whatever attributes it had before. */
  lemma AttrsAreNotRepeated(dir: seq<string>, existing: string, p: Playlist, printable: set<char>)
    requires NoControls(printable) && PlainItems(dir, p.items)
    ensures AttrLines(AllLines(WriteText(dir, existing, p, printable))) == Attrs(p, printable)
  {
    hide WriteText, AllLines, Readable, RawLines, EncodeAttr, ItemLine, TrimSpace, DropCr;
    var kept, own := DropCrs(Foreign(Readable(RawLines(existing)))), Own(dir, p, printable);
    var dropped := DropCrs(own);
    AllLinesWritten(dir, existing, p, printable);
    forall i | 0 <= i < |own| ensures AttrPrefix <= TrimSpace(dropped[i]) <==> i < 3 {
      OwnIsPlain(dir, p, printable, i);
    }
    AttrConcat(kept, dropped);
    NoAttrs(kept);
    assert dropped == dropped[..3] + dropped[3..];
    AttrConcat(dropped[..3], dropped[3..]);
    AllAttrs(dropped[..3]);
    NoAttrs(dropped[3..]);
    AttrIsLine(NameAttr, p.name, printable);
    AttrIsLine(CommentAttr, p.comment, printable);
    AttrIsLine(PublicAttr, FormatBool(p.isPublic), printable);
    assert dropped[..3] == Attrs(p, printable);
  }
}
