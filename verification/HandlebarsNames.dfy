/** The text in which generated code names a property, and what JavaScript reads there (section 7.8.4 and annex B.1.2 of ECMA-262, 5th edition). */
module HandlebarsNames {
  import opened Wrappers

  // ----- writing

  predicate IsLetter(c: char) { 'a' <= c <= 'z' || 'A' <= c <= 'Z' || c == '_' || c == '$' }

  predicate IsIdentifier(name: string) {
    name != "" && IsLetter(name[0]) && forall k :: 0 <= k < |name| ==> IsLetter(name[k]) || '0' <= name[k] <= '9'
  }

  /** The words the compiler does not use as identifiers; the last ones are what an empty object inherits. */
  const RESERVED := {
    "break", "else", "new", "var", "case", "finally", "return", "void", "catch", "for", "switch", "while", "continue", "function",
    "this", "with", "default", "if", "throw", "delete", "in", "try", "do", "instanceof", "typeof", "abstract", "enum", "int", "short",
    "boolean", "export", "interface", "static", "byte", "extends", "long", "super", "char", "final", "native", "synchronized",
    "class", "float", "package", "throws", "const", "goto", "private", "transient", "debugger", "implements", "protected",
    "volatile", "double", "import", "public", "let", "yield", "await", "null", "true", "false",
    "constructor", "toString", "toLocaleString", "valueOf", "hasOwnProperty", "isPrototypeOf", "propertyIsEnumerable",
    "__proto__", "__defineGetter__", "__defineSetter__", "__lookupGetter__", "__lookupSetter__" }

  predicate IsVariableName(name: string) { name !in RESERVED && IsIdentifier(name) }

  /** `nameLookup`: what follows the parent. */
  function LookupText(name: string): string {
    if IsVariableName(name) then "." + name else "['" + (name + "']")
  }

  /** `quotedString`, but for the quotes. */
  function Quoted(s: string): string { if s == "" then "" else QuoteChar(s[0]) + Quoted(s[1..]) }

  function QuoteChar(c: char): string {
    if c == '\\' then "\\\\" else if c == '"' then "\\\"" else if c == '\n' then "\\n" else if c == '\r' then "\\r"
    else if c == '\U{2028}' then "\\u2028" else if c == '\U{2029}' then "\\u2029" else [c]
  }

  // ----- reading

  predicate IsLineEnd(c: char) { c == '\n' || c == '\r' || c == '\U{2028}' || c == '\U{2029}' }

  function HexDigit(c: char): Option<nat> {
    if '0' <= c <= '9' then Some(c as int - '0' as int)
    else if 'a' <= c <= 'f' then Some(c as int - 'a' as int + 10)
    else if 'A' <= c <= 'F' then Some(c as int - 'A' as int + 10)
    else None
  }

  function Hex(s: string): (n: Option<nat>) {
    if s == "" then Some(0)
    else match (Hex(s[..|s| - 1]), HexDigit(s[|s| - 1]))
         case (Some(a), Some(b)) => Some(16 * a + b)
         case _ => None
  }

  /** The character a hexadecimal escape stands for; halves of surrogate pairs are left aside. */
  function HexEscape(s: string): Option<string> {
    match Hex(s)
    case None => None
    case Some(n) => if n < 0xD800 || 0xE000 <= n < 0x11_0000 then Some([n as char]) else None
  }

  predicate IsOctal(c: char) { '0' <= c <= '7' }

  /** How many digits an octal escape has. */
  function OctalLength(s: string): (n: nat)
    requires s != "" && IsOctal(s[0])
    ensures 1 <= n <= |s|
  {
    if |s| == 1 || !IsOctal(s[1]) then 1 else if |s| == 2 || !IsOctal(s[2]) || s[0] > '3' then 2 else 3
  }

  function Octal(s: string): nat
    requires forall k :: 0 <= k < |s| ==> IsOctal(s[k])
  {
    if s == "" then 0
    else
      assert IsOctal(s[|s| - 1]);
      8 * Octal(s[..|s| - 1]) + (s[|s| - 1] as int - '0' as int)
  }

  /** What stands behind a backslash: the text it means, and how many characters it takes. */
  function Escape(s: string): (r: Option<(string, nat)>)
    ensures r.Some? ==> 1 <= r.value.1 <= |s| && |r.value.0| <= 1
  {
    if s == "" then None
    else if s[0] == '\r' && |s| > 1 && s[1] == '\n' then Some(("", 2))
    else if IsLineEnd(s[0]) then Some(("", 1))
    else if s[0] == 'u' then EscapeHex(s, 5)
    else if s[0] == 'x' then EscapeHex(s, 3)
    else if IsOctal(s[0]) then EscapeOctal(s)
    else Some(([Single(s[0])], 1))
  }

  function EscapeHex(s: string, n: nat): (r: Option<(string, nat)>)
    requires n > 0
    ensures r.Some? ==> r.value.1 == n <= |s| && |r.value.0| <= 1
  {
    if |s| < n then None else match HexEscape(s[1..n]) case Some(c) => Some((c, n)) case None => None
  }

  function EscapeOctal(s: string): (r: Option<(string, nat)>)
    requires s != "" && IsOctal(s[0])
    ensures r.Some? ==> 1 <= r.value.1 <= |s| && |r.value.0| <= 1
  {
    var n := OctalLength(s);
    var v := Octal(s[..n]);
    if v < 0x100 then Some(([v as char], n)) else None
  }

  function Single(c: char): char {
    if c == 'n' then '\n' else if c == 'r' then '\r' else if c == 't' then '\t'
    else if c == 'b' then 8 as char else if c == 'v' then 11 as char else if c == 'f' then 12 as char else c
  }

  /** A string literal from behind its opening quote: its value, and the text behind the closing one. */
  function ReadString(q: char, s: string): (r: Option<(string, string)>)
    ensures r.Some? ==> |r.value.0| + 1 + |r.value.1| <= |s|
    decreases |s|
  {
    if s == "" || IsLineEnd(s[0]) then None
    else if s[0] == q then Some(("", s[1..]))
    else if s[0] == '\\' then
      match Escape(s[1..])
      case None => None
      case Some((c, n)) => Prepend(c, ReadString(q, s[1 + n..]))
    else Prepend(s[..1], ReadString(q, s[1..]))
  }

  function Prepend(c: string, r: Option<(string, string)>): Option<(string, string)> {
    match r case None => None case Some((v, rest)) => Some((c + v, rest))
  }

  /** The name of the property a text looks up, if it is the text of one lookup. */
  function ReadLookup(text: string): Option<string> {
    if |text| >= 1 && text[0] == '.' && IsIdentifier(text[1..]) then Some(text[1..])
    else if |text| >= 2 && text[..2] == "['" then
      match ReadString('\'', text[2..])
      case Some((name, rest)) => if rest == "]" then Some(name) else None
      case None => None
    else None
  }

  /** What is read where a name was written. */
  function Named(name: string): Option<string> { ReadLookup(LookupText(name)) }

  // ----- what is read back

  /** A character that may stand in a literal as it is. */
  predicate IsPlain(c: char, q: char) { c != q && c != '\\' && !IsLineEnd(c) }

  predicate Plain(s: string, q: char) { forall k :: 0 <= k < |s| ==> IsPlain(s[k], q) }

  /** An unreserved identifier, or a text without quote, backslash and line end. */
  predicate Readable(name: string) { IsVariableName(name) || Plain(name, '\'') }

  lemma {:induction false} PlainReads(q: char, s: string, rest: string)
    requires Plain(s, q) && q != '\\' && !IsLineEnd(q)
    ensures ReadString(q, s + ([q] + rest)) == Some((s, rest))
    decreases |s|
  {
    var all := s + ([q] + rest);
    if s == "" {
      assert all == [q] + rest && all[1..] == rest;
    } else {
      assert all[1..] == s[1..] + ([q] + rest);
      assert IsPlain(s[0], q) && all[0] == s[0];
      PlainReads(q, s[1..], rest);
      assert all[..1] + s[1..] == s;
    }
  }

  /** Only a text without escapes is as long as its value. */
  lemma {:induction false} ReadsWhole(q: char, s: string)
    requires ReadString(q, s).Some?
    requires var (v, rest) := ReadString(q, s).value; |v| + 1 + |rest| == |s|
    ensures Plain(ReadString(q, s).value.0, q)
    decreases |s|
  {
    var v := ReadString(q, s).value.0;
    if s[0] != q && s[0] != '\\' {
      var w := ReadString(q, s[1..]).value.0;
      assert v == s[..1] + w;
      ReadsWhole(q, s[1..]);
      forall k | 0 <= k < |v| ensures IsPlain(v[k], q) { assert v[k] == if k == 0 then s[0] else w[k - 1]; }
    }
  }

  /** A name is read back if and only if it is an unreserved identifier or has no quote, backslash or line end. */
  lemma NameReadBack(name: string)
    ensures Named(name) == Some(name) <==> Readable(name)
  {
    hide ReadString;
    if IsVariableName(name) {
      assert LookupText(name)[1..] == name;
    } else {
      var text := name + "']";
      assert LookupText(name)[..2] == "['" && LookupText(name)[2..] == text;
      if Plain(name, '\'') {
        assert text == name + (['\''] + "]");
        PlainReads('\'', name, "]");
      } else if Named(name) == Some(name) {
        ReadsWhole('\'', text);
      }
    }
  }

  /** The names the compiler writes of its own accord. */
  lemma OwnNames()
    ensures Readable("helperMissing") && Readable("blockHelperMissing")
  {
  }

  /** `{{[it's]}}` looks up nothing that JavaScript can read, and a backslash makes another name. */
  lemma NamesMisread()
    ensures Named("it's") == None && Named("a\\b") == Some("a" + [8 as char])
  {
    hide ReadString;
    var t := "it's']";
    assert LookupText("it's")[..2] == "['" && LookupText("it's")[2..] == t by { assert "it's"[2] == '\''; }
    PlainReads('\'', "it", "s']");
    assert t == "it" + (['\''] + "s']");
    BackslashRead();
    assert LookupText("a\\b")[..2] == "['" && LookupText("a\\b")[2..] == "a\\b']" by { assert "a\\b"[1] == '\\'; }
  }

  lemma BackslashRead()
    ensures ReadString('\'', "a\\b']") == Some(("a" + [8 as char], "]"))
  {
    assert "a\\b']"[1..] == "\\b']" && "\\b']"[1..] == "b']" && "b']"[1..] == "']" && "']"[1..] == "]";
    assert ReadString('\'', "']") == Some(("", "]"));
    assert Escape("b']") == Some(([8 as char], 1));
    assert ReadString('\'', "\\b']") == Prepend([8 as char], ReadString('\'', "']"));
    assert [8 as char] + "" == [8 as char];
    assert "a\\b']"[..1] == "a";
  }

  /** A quoted string, unlike a name, is always read back. */
  lemma {:induction false} QuotedReadBack(s: string, rest: string)
    ensures ReadString('"', Quoted(s) + ("\"" + rest)) == Some((s, rest))
    decreases |s|
  {
    hide ReadString;
    if s == "" {
      PlainReads('"', "", rest);
      assert "" + (['"'] + rest) == Quoted(s) + ("\"" + rest);
    } else {
      var more := Quoted(s[1..]) + ("\"" + rest);
      QuotedReadBack(s[1..], rest);
      QuotedChar(s[0], more);
      assert Quoted(s) + ("\"" + rest) == QuoteChar(s[0]) + more;
      assert [s[0]] + s[1..] == s;
    }
  }

  lemma QuotedChar(c: char, more: string)
    ensures ReadString('"', QuoteChar(c) + more) == Prepend([c], ReadString('"', more))
  {
    var s := QuoteChar(c) + more;
    if c == '\U{2028}' || c == '\U{2029}' {
      HexChar(c);
      assert s[1..] == QuoteChar(c)[1..] + more && s[1..][1..5] == QuoteChar(c)[2..6] && s[6..] == more;
    } else if |QuoteChar(c)| == 2 {
      assert s[1..][0] == QuoteChar(c)[1] && s[2..] == more;
      assert Escape(s[1..]) == Some(([c], 1));
    } else {
      assert s[..1] == [c] && s[1..] == more;
    }
  }

  lemma HexChar(c: char)
    requires c == '\U{2028}' || c == '\U{2029}'
    ensures |QuoteChar(c)| == 6 && HexEscape(QuoteChar(c)[2..6]) == Some([c])
  {
    var h := QuoteChar(c)[2..6];
    assert h == if c == '\U{2028}' then "2028" else "2029";
    assert h[..3] == "202" && h[..3][..2] == "20" && h[..3][..2][..1] == "2" && h[..3][..2][..1][..0] == "";
    assert Hex("2") == Some(2);
    assert Hex("20") == Some(0x20);
    assert Hex("202") == Some(0x202);
  }
}
