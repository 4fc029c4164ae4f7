/** Go's strconv.Quote and strconv.Unquote, on valid UTF-8. What counts as printable is a parameter. */
module Strconv {
  import opened Options

  /** unicode.IsPrint is false of the control characters. */
  predicate NoControls(printable: set<char>) {
    forall c | c in printable :: ' ' <= c != '\U{7F}'
  }

  function HexDigit(n: nat): char
    requires n < 16
  {
    "0123456789abcdef"[n]
  }

  function HexValue(c: char): Option<nat> {
    if '0' <= c <= '9' then Some(c as nat - '0' as nat)
    else if 'a' <= c <= 'f' then Some(c as nat - 'a' as nat + 10)
    else if 'A' <= c <= 'F' then Some(c as nat - 'A' as nat + 10)
    else None
  }

  /** The last `digits` hexadecimal digits of `v`. */
  function Hex(v: nat, digits: nat): (s: string)
    ensures |s| == digits
  {
    if digits == 0 then "" else Hex(v / 16, digits - 1) + [HexDigit(v % 16)]
  }

  function Unhex(s: string): Option<nat> {
    if s == "" then Some(0)
    else
      var before, last := Unhex(s[..|s| - 1]), HexValue(s[|s| - 1]);
      if before.None? || last.None? then None else Some(before.value * 16 + last.value)
  }

  function Power16(n: nat): nat {
    if n == 0 then 1 else 16 * Power16(n - 1)
  }

  lemma DigitValue(n: nat)
    requires n < 16
    ensures HexValue(HexDigit(n)) == Some(n)
  {
  }

  lemma {:induction false} UnhexHex(v: nat, digits: nat)
    requires v < Power16(digits)
    ensures Unhex(Hex(v, digits)) == Some(v)
  {
    hide HexValue, HexDigit;
    if digits > 0 {
      UnhexHex(v / 16, digits - 1);
      DigitValue(v % 16);
      var before, last := Hex(v / 16, digits - 1), HexDigit(v % 16);
      assert Hex(v, digits) == before + [last] && (before + [last])[..digits - 1] == before;
    }
  }

  const Named := "abfnrtv"

  /** The control characters that the letters of `Named` stand for. */
  const Meant := "\U{7}\U{8}\U{C}\n\r\t\U{B}"

  function IndexOf(s: string, c: char): (i: nat)
    ensures i <= |s| && (i < |s| ==> s[i] == c) && c !in s[..i]
  {
    if s == "" || s[0] == c then 0 else 1 + IndexOf(s[1..], c)
  }

  function Escaped(c: char, printable: set<char>): string {
    if c == '"' || c == '\\' then ['\\', c]
    else if c in printable then [c]
    else if IndexOf(Meant, c) < |Meant| then ['\\', Named[IndexOf(Meant, c)]]
    else if c < ' ' || c == '\U{7F}' then "\\x" + Hex(c as nat, 2)
    else if c as nat < 0x1_0000 then "\\u" + Hex(c as nat, 4)
    else "\\U" + Hex(c as nat, 8)
  }

  function Body(s: string, printable: set<char>): string {
    if s == "" then "" else Escaped(s[0], printable) + Body(s[1..], printable)
  }

  function Quote(s: string, printable: set<char>): string {
    "\"" + Body(s, printable) + "\""
  }

  predicate ValidRune(v: nat) {
    v < 0xD800 || 0xE000 <= v < 0x11_0000
  }

  /** The character that `digits` hexadecimal digits at the start of `s` stand for. */
  function HexChar(s: string, digits: nat): (r: Option<(char, string)>)
    ensures r.Some? ==> |r.value.1| <= |s|
  {
    if |s| < digits then None
    else
      var v := Unhex(s[..digits]);
      if v.None? || !ValidRune(v.value) then None else Some((v.value as char, s[digits..]))
  }

  function Octal(s: string): (r: Option<(char, string)>)
    ensures r.Some? ==> |r.value.1| < |s|
  {
    if |s| >= 3 && forall i | 0 <= i < 3 :: '0' <= s[i] <= '7' then
      var v := (s[0] as nat - '0' as nat) * 64 + (s[1] as nat - '0' as nat) * 8 + (s[2] as nat - '0' as nat);
      if v > 255 then None else Some((v as char, s[3..]))
    else None
  }

  function UnquoteChar(s: string, quote: char): (r: Option<(char, string)>)
    requires s != ""
    ensures r.Some? ==> |r.value.1| < |s|
  {
    if s[0] == quote then None
    else if s[0] != '\\' then Some((s[0], s[1..]))
    else if |s| == 1 then None
    else
      var c, rest := s[1], s[2..];
      if IndexOf(Named, c) < |Named| then Some((Meant[IndexOf(Named, c)], rest))
      else if c == 'x' then HexChar(rest, 2)
      else if c == 'u' then HexChar(rest, 4)
      else if c == 'U' then HexChar(rest, 8)
      else if '0' <= c <= '7' then Octal(s[1..])
      else if c == '\\' || ((c == '\'' || c == '"') && c == quote) then Some((c, rest))
      else None
  }

  /** What is quoted up to the closing quote, and what follows that. */
  function UnquoteBody(s: string): Option<(string, string)>
    decreases |s|
  {
    if s == "" || s[0] == '\n' then None
    else if s[0] == '"' then Some(("", s[1..]))
    else match UnquoteChar(s, '"')
      case None => None
      case Some(r) =>
        match UnquoteBody(r.1)
        case None => None
        case Some(more) => Some(([r.0] + more.0, more.1))
  }

  function WithoutCr(s: string): string {
    if s == "" then "" else (if s[0] == '\r' then "" else [s[0]]) + WithoutCr(s[1..])
  }

  function Unquote(s: string): Option<string> {
    if |s| < 2 then None
    else if s[0] == '"' then
      var r := UnquoteBody(s[1..]);
      if r.Some? && r.value.1 == "" then Some(r.value.0) else None
    else if s[0] == '`' then
      if IndexOf(s[1..], '`') == |s| - 2 then Some(WithoutCr(s[1..|s| - 1])) else None
    else if s[0] == '\'' && s[1] != '\n' then
      var r := UnquoteChar(s[1..], '\'');
      if r.Some? && r.value.1 == "'" then Some([r.value.0]) else None
    else None
  }

  lemma UnquoteHex(c: char, rest: string, digits: nat)
    requires c as nat < Power16(digits)
    ensures HexChar(Hex(c as nat, digits) + rest, digits) == Some((c, rest))
  {
    UnhexHex(c as nat, digits);
    var s := Hex(c as nat, digits) + rest;
    assert s[..digits] == Hex(c as nat, digits) && s[digits..] == rest;
  }

  lemma Powers()
    ensures Power16(2) == 0x100 && Power16(4) == 0x1_0000 && Power16(8) == 0x1_0000_0000
  {
  }

  lemma EscapedShape(c: char, printable: set<char>)
    requires NoControls(printable)
    ensures Escaped(c, printable) != "" && Escaped(c, printable)[0] != '"' && Escaped(c, printable)[0] != '\n'
  {
  }

  lemma UnquoteNamed(i: nat, rest: string)
    requires i < |Meant|
    ensures UnquoteChar(['\\', Named[i]] + rest, '"') == Some((Meant[i], rest))
  {
  }

  lemma UnquoteLetter(letter: char, c: char, rest: string, digits: nat)
    requires (letter, digits) in {('x', 2), ('u', 4), ('U', 8)} && c as nat < Power16(digits)
    ensures UnquoteChar("\\" + [letter] + Hex(c as nat, digits) + rest, '"') == Some((c, rest))
  {
    hide Hex, Power16, HexChar, Octal, IndexOf;
    UnquoteHex(c, rest, digits);
    var s := "\\" + [letter] + Hex(c as nat, digits) + rest;
    assert s[0] == '\\' && s[1] == letter && s[2..] == Hex(c as nat, digits) + rest;
    assert forall k | 0 <= k < |Named| :: Named[k] != letter;
  }

  lemma UnquoteSelf(c: char, rest: string)
    requires c == '"' || c == '\\'
    ensures UnquoteChar(['\\', c] + rest, '"') == Some((c, rest))
  {
    var s := ['\\', c] + rest;
    assert s[0] == '\\' && s[1] == c && s[2..] == rest;
    assert forall k | 0 <= k < |Named| :: Named[k] != c;
  }

  lemma UnquotePlain(c: char, rest: string)
    requires c != '"' && c != '\\'
    ensures UnquoteChar([c] + rest, '"') == Some((c, rest))
  {
  }

  /** The letter and the number of digits that a character without a name is escaped with. */
  function Letter(c: char): (char, nat) {
    if c < ' ' || c == '\U{7F}' then ('x', 2) else if c as nat < 0x1_0000 then ('u', 4) else ('U', 8)
  }

  lemma EscapedByLetter(c: char, printable: set<char>)
    requires c != '"' && c != '\\' && c !in printable && IndexOf(Meant, c) == |Meant|
    ensures Escaped(c, printable) == "\\" + [Letter(c).0] + Hex(c as nat, Letter(c).1)
  {
  }

  lemma UnquoteEscaped(c: char, rest: string, printable: set<char>)
    ensures UnquoteChar(Escaped(c, printable) + rest, '"') == Some((c, rest))
  {
    var i := IndexOf(Meant, c);
    if c == '"' || c == '\\' {
      UnquoteSelf(c, rest);
    } else if c in printable {
      UnquotePlain(c, rest);
    } else if i < |Meant| {
      UnquoteNamed(i, rest);
    } else {
      Powers();
      EscapedByLetter(c, printable);
      UnquoteLetter(Letter(c).0, c, rest, Letter(c).1);
    }
  }

  lemma {:induction false} UnquoteOfBody(s: string, rest: string, printable: set<char>)
    requires NoControls(printable)
    ensures UnquoteBody(Body(s, printable) + "\"" + rest) == Some((s, rest))
  {
    var all := Body(s, printable) + "\"" + rest;
    if s == "" {
      assert all[1..] == rest;
    } else {
      var after := Body(s[1..], printable) + "\"" + rest;
      assert all == Escaped(s[0], printable) + after;
      EscapedShape(s[0], printable);
      UnquoteEscaped(s[0], after, printable);
      UnquoteOfBody(s[1..], rest, printable);
      assert [s[0]] + s[1..] == s;
    }
  }

  /** Any string comes back from its quoted form. */
  lemma UnquoteQuote(s: string, printable: set<char>)
    requires NoControls(printable)
    ensures Unquote(Quote(s, printable)) == Some(s)
  {
    UnquoteOfBody(s, "", printable);
    var q := Quote(s, printable);
    assert q[1..] == Body(s, printable) + "\"" + "";
  }

  lemma {:induction false} HexIsHex(v: nat, digits: nat)
    ensures forall c | c in Hex(v, digits) :: c in "0123456789abcdef"
  {
    if digits > 0 { HexIsHex(v / 16, digits - 1); }
  }

  lemma EscapedHasNoNewline(c: char, printable: set<char>)
    requires NoControls(printable)
    ensures '\n' !in Escaped(c, printable)
  {
    HexIsHex(c as nat, 2);
    HexIsHex(c as nat, 4);
    HexIsHex(c as nat, 8);
    assert forall i | 0 <= i < |Named| :: Named[i] != '\n';
  }

  lemma {:induction false} BodyHasNoNewline(s: string, printable: set<char>)
    requires NoControls(printable)
    ensures '\n' !in Body(s, printable)
  {
    if s != "" {
      EscapedHasNoNewline(s[0], printable);
      BodyHasNoNewline(s[1..], printable);
    }
  }

  predicate IsPlain(s: string, printable: set<char>) {
    forall c | c in s :: c in printable && c != '"' && c != '\\'
  }

  lemma {:induction false} PlainBody(s: string, printable: set<char>)
    requires IsPlain(s, printable)
    ensures Body(s, printable) == s
  {
    if s != "" {
      assert s[0] in s && s == [s[0]] + s[1..];
      PlainBody(s[1..], printable);
    }
  }

  /** What is printable stays as it is between the quotes, but for quotes and backslashes, which get a backslash. */
  lemma QuotePlain(s: string, c: char, printable: set<char>)
    requires IsPlain(s, printable) && (c == '"' || c == '\\')
    ensures Quote(s, printable) == "\"" + s + "\""
    ensures Quote([c], printable) == "\"" + "\\" + [c] + "\""
  {
    PlainBody(s, printable);
    assert [c][1..] == "" && Body([c], printable) == ['\\', c] + Body("", printable);
  }

  lemma {:induction false} NoBackquote(s: string)
    requires '`' !in s
    ensures IndexOf(s + "`", '`') == |s|
  {
    if s != "" {
      assert s[0] in s && (s + "`")[1..] == s[1..] + "`";
      NoBackquote(s[1..]);
    }
  }

  /** A line written by hand may use backquotes: all between them is meant, but for carriage returns. */
  lemma UnquoteRaw(s: string)
    requires '`' !in s
    ensures Unquote("`" + s + "`") == Some(WithoutCr(s))
    ensures '\r' !in s ==> Unquote("`" + s + "`") == Some(s)
  {
    NoBackquote(s);
    var quoted := "`" + s + "`";
    assert quoted[1..] == s + "`" && quoted[1..|quoted| - 1] == s;
    if '\r' !in s { NoCrs(s); }
  }

  /** A hexadecimal digit is read in either case. */
  lemma HexValueIs(c: char, n: nat)
    ensures HexValue(c) == Some(n) <==> n < 16 && (c == "0123456789abcdef"[n] || c == "0123456789ABCDEF"[n])
  {
  }

  function OctalDigit(n: nat): (c: char)
    requires n < 8
    ensures '0' <= c <= '7' && c as nat == '0' as nat + n
  {
    ('0' as nat + n) as char
  }

  function OctalDigits(a: nat, b: nat, c: nat): string
    requires a < 8 && b < 8 && c < 8
  {
    [OctalDigit(a), OctalDigit(b), OctalDigit(c)]
  }

  lemma OctalValue(a: nat, b: nat, c: nat, rest: string)
    requires a < 8 && b < 8 && c < 8
    ensures Octal(OctalDigits(a, b, c) + rest) == if a < 4 then Some(((a * 64 + b * 8 + c) as char, rest)) else None
  {
    hide OctalDigit;
    var s := OctalDigits(a, b, c) + rest;
    assert s[0] == OctalDigit(a) && s[1] == OctalDigit(b) && s[2] == OctalDigit(c) && s[3..] == rest;
  }

  lemma OctalIsRead(a: nat, b: nat, c: nat, rest: string)
    requires a < 8 && b < 8 && c < 8
    ensures UnquoteChar("\\" + (OctalDigits(a, b, c) + rest), '"') == if a < 4 then Some(((a * 64 + b * 8 + c) as char, rest)) else None
  {
    hide Octal;
    OctalValue(a, b, c, rest);
    var s := "\\" + (OctalDigits(a, b, c) + rest);
    assert s[0] == '\\' && s[1] == OctalDigit(a) && s[1..] == OctalDigits(a, b, c) + rest;
    assert forall k | 0 <= k < |Named| :: Named[k] != OctalDigit(a);
  }

  /** An escape written by hand may be octal: three digits, of a value up to 255. */
  lemma UnquoteOctal(a: nat, b: nat, c: nat, s: string, printable: set<char>)
    requires a < 8 && b < 8 && c < 8 && NoControls(printable)
    ensures Unquote("\"\\" + OctalDigits(a, b, c) + Body(s, printable) + "\"") ==
            if a < 4 then Some([(a * 64 + b * 8 + c) as char] + s) else None
  {
    hide OctalDigits, UnquoteChar, Body;
    var after := Body(s, printable) + "\"" + "";
    var quoted := "\"\\" + OctalDigits(a, b, c) + Body(s, printable) + "\"";
    assert quoted[1..] == "\\" + (OctalDigits(a, b, c) + after);
    OctalIsRead(a, b, c, after);
    UnquoteOfBody(s, "", printable);
  }

  /** Between single quotes there is one character. */
  lemma UnquoteSingle(c: char, s: string)
    requires s != ""
    ensures Unquote("'" + [c] + "'") == if c in "'\\\n" then None else Some([c])
    ensures c != '\\' ==> Unquote("'" + [c] + s + "'") == None
  {
    assert ("'" + [c] + "'")[1..] == [c] + "'" && ("'" + [c] + s + "'")[1..] == [c] + (s + "'");
    assert |s + "'"| > 1;
  }

  lemma {:induction false} NoCrs(s: string)
    requires '\r' !in s
    ensures WithoutCr(s) == s
  {
    if s != "" {
      assert s[0] in s && s == [s[0]] + s[1..];
      NoCrs(s[1..]);
    }
  }
}
