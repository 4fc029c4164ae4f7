/** Reading text by lines: Go's bufio.Scanner with its default split function, strings.TrimSpace and strings.Cut. */
module Lines {
  import opened Options

  /** unicode.IsSpace. */
  predicate IsSpace(c: char) {
    c in "\t\n \r" || c as int in {0x0B, 0x0C, 0x85, 0xA0, 0x1680, 0x2028, 0x2029, 0x202F, 0x205F, 0x3000}
    || 0x2000 <= c as int <= 0x200A
  }

  function TrimLeft(s: string): (t: string)
    ensures t == "" || !IsSpace(t[0])
    ensures |t| <= |s| && t == s[|s| - |t|..]
  {
    if s != "" && IsSpace(s[0]) then TrimLeft(s[1..]) else s
  }

  function TrimRight(s: string): (t: string)
    ensures t == "" || !IsSpace(t[|t| - 1])
    ensures t <= s
  {
    if s != "" && IsSpace(s[|s| - 1]) then TrimRight(s[..|s| - 1]) else s
  }

  function TrimSpace(s: string): string {
    TrimRight(TrimLeft(s))
  }

  /** strings.Cut at the first `sep`. */
  function Cut(s: string, sep: char): (parts: Option<(string, string)>)
    ensures parts.Some? ==> s == parts.value.0 + [sep] + parts.value.1 && sep !in parts.value.0
    ensures parts.None? ==> sep !in s
  {
    if s == "" then None
    else if s[0] == sep then Some(("", s[1..]))
    else match Cut(s[1..], sep)
      case None => None
      case Some(p) => Some(([s[0]] + p.0, p.1))
  }

  function Utf8Len(s: string): nat {
    if s == "" then 0 else CharLen(s[0]) + Utf8Len(s[1..])
  }

  function CharLen(c: char): nat {
    var n := c as int;
    if n < 0x80 then 1 else if n < 0x800 then 2 else if n < 0x1_0000 then 3 else 4
  }

  /** The bytes of a character in UTF-8 (section 3 of RFC 3629): the number of them, then six bits in all but the first. */
  function Utf8(n: nat): seq<int> {
    if n < 0x80 then [n]
    else if n < 0x800 then [0xC0 + n / 64, 0x80 + n % 64]
    else if n < 0x1_0000 then [0xE0 + n / 64 / 64, 0x80 + n / 64 % 64, 0x80 + n % 64]
    else [0xF0 + n / 64 / 64 / 64, 0x80 + n / 64 / 64 % 64, 0x80 + n / 64 % 64, 0x80 + n % 64]
  }

  /** `bytes` stand for `n`, and no shorter sequence does. */
  predicate IsUtf8(bytes: seq<int>, n: int) {
    && 1 <= |bytes| <= 4 && (forall i | 1 <= i < |bytes| :: 0x80 <= bytes[i] < 0xC0)
    && match |bytes|
       case 1 => 0 <= bytes[0] < 0x80 && n == bytes[0]
       case 2 => 0xC2 <= bytes[0] < 0xE0 && n == (bytes[0] - 0xC0) * 64 + (bytes[1] - 0x80)
       case 3 =>
         && 0xE0 <= bytes[0] < 0xF0 && (bytes[0] == 0xE0 ==> bytes[1] >= 0xA0)
         && n == ((bytes[0] - 0xE0) * 64 + (bytes[1] - 0x80)) * 64 + (bytes[2] - 0x80)
       case _ =>
         && 0xF0 <= bytes[0] < 0xF5 && (bytes[0] == 0xF0 ==> bytes[1] >= 0x90)
         && n == (((bytes[0] - 0xF0) * 64 + (bytes[1] - 0x80)) * 64 + (bytes[2] - 0x80)) * 64 + (bytes[3] - 0x80)
  }

  /** A line's bytes are counted: a character takes as many as stand for it. */
  lemma CharLenIsUtf8(c: char)
    ensures IsUtf8(Utf8(c as nat), c as nat) && |Utf8(c as nat)| == CharLen(c)
  {
  }

  /** The lines up to the first that does not fit the scanner's buffer, and whether there is one. */
  datatype Scanned = Scanned(lines: seq<string>, tooLong: bool)

  const MaxLine: nat := 65535

  predicate Fits(line: string) {
    Utf8Len(line) <= MaxLine
  }

  function DropCr(line: string): string {
    if line != "" && line[|line| - 1] == '\r' then line[..|line| - 1] else line
  }

  function DropCrs(lines: seq<string>): (dropped: seq<string>)
    ensures |dropped| == |lines| && forall i | 0 <= i < |lines| :: dropped[i] == DropCr(lines[i])
  {
    seq(|lines|, i requires 0 <= i < |lines| => DropCr(lines[i]))
  }

  function Scan(text: string): Scanned
    decreases |text|
  {
    if text == "" then Scanned([], false)
    else
      var cut := Cut(text, '\n');
      var line := if cut.Some? then cut.value.0 else text;
      if !Fits(line) then Scanned([], true)
      else
        var rest := if cut.Some? then Scan(cut.value.1) else Scanned([], false);
        Scanned([DropCr(line)] + rest.lines, rest.tooLong)
  }

  // What is written line by line and read back ------------------------------------------

  function Printed(lines: seq<string>): string {
    if lines == [] then "" else lines[0] + "\n" + Printed(lines[1..])
  }

  /** The lines that newlines separate, however long; a newline at the end starts no further line. */
  function RawLines(text: string): seq<string>
    decreases |text|
  {
    if text == "" then []
    else match Cut(text, '\n')
      case None => [text]
      case Some(p) => [p.0] + RawLines(p.1)
  }

  predicate NoBreaks(lines: seq<string>) {
    forall line | line in lines :: '\n' !in line
  }

  /** The lines before the first that is too long, as the scanner gives them. */
  function Readable(lines: seq<string>): seq<string> {
    if lines == [] || !Fits(lines[0]) then [] else [DropCr(lines[0])] + Readable(lines[1..])
  }

  predicate AllFit(lines: seq<string>) {
    forall line | line in lines :: Fits(line)
  }

  lemma {:induction false} CutAfter(line: string, rest: string, sep: char)
    requires sep !in line
    ensures Cut(line + [sep] + rest, sep) == Some((line, rest))
  {
    var s := line + [sep] + rest;
    if line == "" {
      assert s[1..] == rest;
    } else {
      assert line[0] in line && [line[0]] + line[1..] == line;
      assert s[1..] == line[1..] + [sep] + rest;
      CutAfter(line[1..], rest, sep);
    }
  }

  /** The scanner gives the lines of the text up to the first that is too long; the rest of the text is dropped. */
  lemma {:induction false} ScanIsReadable(text: string)
    ensures Scan(text) == Scanned(Readable(RawLines(text)), !AllFit(RawLines(text)))
    decreases |text|
  {
    var raw := RawLines(text);
    if text != "" {
      assert raw == [raw[0]] + raw[1..];
      var cut := Cut(text, '\n');
      if cut.Some? {
        assert raw[1..] == RawLines(cut.value.1);
        ScanIsReadable(cut.value.1);
      }
    }
  }

  lemma {:induction false} RawPrinted(lines: seq<string>)
    requires NoBreaks(lines)
    ensures RawLines(Printed(lines)) == lines
  {
    if lines != [] {
      assert '\n' !in lines[0] by { assert lines[0] in lines; }
      CutAfter(lines[0], Printed(lines[1..]), '\n');
      RawPrinted(lines[1..]);
      assert lines == [lines[0]] + lines[1..];
    }
  }

  /** Printed lines are read back up to the first that is too long; the rest of the text is dropped. */
  lemma ScanPrinted(lines: seq<string>)
    requires NoBreaks(lines)
    ensures Scan(Printed(lines)) == Scanned(Readable(lines), !AllFit(lines))
  {
    RawPrinted(lines);
    ScanIsReadable(Printed(lines));
  }

  function WithCrs(lines: seq<string>): seq<string> {
    seq(|lines|, i requires 0 <= i < |lines| => lines[i] + "\r")
  }

  /** Lines that end in a carriage return and a line feed are read like lines that end in a line feed. */
  lemma {:induction false} CrsAreDropped(lines: seq<string>)
    requires NoBreaks(WithCrs(lines)) && AllFit(WithCrs(lines))
    ensures Scan(Printed(WithCrs(lines))) == Scanned(lines, false)
  {
    hide Fits, NoBreaks, Scan, Printed;
    ScanPrinted(WithCrs(lines));
    ReadableShorter(WithCrs(lines));
    ReadableIsPrefix(WithCrs(lines));
    assert Readable(WithCrs(lines)) == lines;
  }

  /** The lines read are the lines of the text, each without a final carriage return, up to the first too long. */
  lemma {:induction false} ReadableIsPrefix(lines: seq<string>)
    ensures |Readable(lines)| <= |lines|
    ensures forall i | 0 <= i < |Readable(lines)| :: Fits(lines[i]) && Readable(lines)[i] == DropCr(lines[i])
    ensures |Readable(lines)| < |lines| ==> !Fits(lines[|Readable(lines)|])
  {
    hide Fits, DropCr;
    if lines != [] && Fits(lines[0]) {
      var rest := lines[1..];
      ReadableIsPrefix(rest);
      forall i | 0 <= i < |Readable(lines)| ensures Fits(lines[i]) && Readable(lines)[i] == DropCr(lines[i]) {
        if i > 0 { assert lines[i] == rest[i - 1] && Readable(lines)[i] == Readable(rest)[i - 1]; }
      }
    }
  }

  lemma {:induction false} ReadableConcat(a: seq<string>, b: seq<string>)
    requires AllFit(a)
    ensures Readable(a + b) == Readable(a) + Readable(b) && |Readable(a)| == |a|
  {
    if a == [] {
      assert a + b == b;
    } else {
      assert (a + b)[1..] == a[1..] + b && a[0] in a;
      ReadableConcat(a[1..], b);
    }
  }

  lemma ReadableShorter(lines: seq<string>)
    ensures |Readable(lines)| <= |lines|
    ensures |Readable(lines)| == |lines| <==> AllFit(lines)
  {
    ReadableIsPrefix(lines);
  }

  // What trimming does to the ends ---------------------------------------------------------

  lemma {:induction false} TrimLeftSnoc(s: string, c: char)
    requires IsSpace(c)
    ensures TrimLeft(s + [c]) == if TrimLeft(s) == "" then "" else TrimLeft(s) + [c]
  {
    if s == "" {
      assert s + [c] == [c];
    } else {
      assert (s + [c])[1..] == s[1..] + [c];
      if IsSpace(s[0]) { TrimLeftSnoc(s[1..], c); }
    }
  }

  /** A space at the end of a line does not matter. */
  lemma TrimSpaceSnoc(s: string, c: char)
    requires IsSpace(c)
    ensures TrimSpace(s + [c]) == TrimSpace(s)
  {
    TrimLeftSnoc(s, c);
    var t := TrimLeft(s);
    if t != "" { assert (t + [c])[..|t|] == t; }
  }

  predicate AllSpace(s: string) {
    forall c | c in s :: IsSpace(c)
  }

  /** Nothing to trim, and something left. */
  predicate IsTrimmed(s: string) {
    s != "" && !IsSpace(s[0]) && !IsSpace(s[|s| - 1])
  }

  lemma {:induction false} TrimLeftSpaces(a: string, s: string)
    requires AllSpace(a)
    ensures TrimLeft(a + s) == TrimLeft(s)
  {
    if a == "" {
      assert a + s == s;
    } else {
      assert (a + s)[1..] == a[1..] + s;
      TrimLeftSpaces(a[1..], s);
    }
  }

  lemma {:induction false} TrimRightSpaces(s: string, b: string)
    requires AllSpace(b)
    ensures TrimRight(s + b) == TrimRight(s)
  {
    if b == "" {
      assert s + b == s;
    } else {
      assert (s + b)[..|s + b| - 1] == s + b[..|b| - 1];
      TrimRightSpaces(s, b[..|b| - 1]);
    }
  }

  /** TrimSpace takes exactly the white space at both ends. */
  lemma TrimSpaceBetween(a: string, s: string, b: string)
    requires AllSpace(a) && AllSpace(b) && IsTrimmed(s)
    ensures TrimSpace(a + s + b) == s
  {
    assert a + s + b == a + (s + b);
    TrimLeftSpaces(a, s + b);
    assert (s + b)[0] == s[0];
    TrimRightSpaces(s, b);
  }

  lemma TrimAllSpace(a: string)
    requires AllSpace(a)
    ensures TrimSpace(a) == ""
  {
    TrimLeftSpaces(a, "");
    assert a + "" == a;
  }

  lemma TrimDropCr(s: string)
    ensures TrimSpace(DropCr(s)) == TrimSpace(s)
  {
    hide TrimSpace;
    if DropCr(s) != s {
      var t := s[..|s| - 1];
      assert s == t + ['\r'] && IsSpace('\r');
      TrimSpaceSnoc(t, '\r');
    }
  }
}
