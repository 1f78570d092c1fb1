/** Go's double-quoted string literals: printing them and reading them back. */
module GoQuoting {
  import opened Wrappers

  // --------------------------------------------------------------------- hex

  function HexChar(d: nat): char
    requires d < 16
  {
    if d < 10 then '0' + d as char else 'a' + (d - 10) as char
  }

  function HexDigit(c: char): Option<nat> {
    if '0' <= c <= '9' then Some((c - '0') as nat)
    else if 'a' <= c <= 'f' then Some((c - 'a') as nat + 10)
    else if 'A' <= c <= 'F' then Some((c - 'A') as nat + 10)
    else None
  }

  function HexText(n: nat, width: nat): (s: string)
    ensures |s| == width
  {
    if width == 0 then "" else HexText(n / 16, width - 1) + [HexChar(n % 16)]
  }

  function HexValue(s: string): Option<nat> {
    if s == "" then Some(0)
    else
      var front, digit := HexValue(s[..|s| - 1]), HexDigit(s[|s| - 1]);
      if front.None? || digit.None? then None else Some(16 * front.value + digit.value)
  }

  function Pow16(width: nat): nat {
    if width == 0 then 1 else 16 * Pow16(width - 1)
  }

  lemma {:induction false} HexTextHasValue(n: nat, width: nat)
    requires n < Pow16(width)
    ensures HexValue(HexText(n, width)) == Some(n)
  {
    if width > 0 {
      HexTextHasValue(n / 16, width - 1);
      assert HexText(n, width)[..width - 1] == HexText(n / 16, width - 1);
      assert HexDigit(HexChar(n % 16)) == Some(n % 16);
    }
  }

  lemma {:induction false} HexTextIsHex(n: nat, width: nat)
    ensures forall c | c in HexText(n, width) :: HexDigit(c).Some? && c != '"' && c != '\\' && c != '#'
  {
    if width > 0 { HexTextIsHex(n / 16, width - 1); }
  }

  // ------------------------------------------------------------------- quote

  /** The printable characters: of ASCII those from blank to tilde. */
  ghost predicate Printing(printable: char -> bool) {
    forall c | c < '\U{80}' :: printable(c) <==> ' ' <= c <= '~'
  }

  predicate Named(c: char) {
    '\U{7}' <= c <= '\U{d}'
  }

  /** The letter of a named control character, from alert to carriage return. */
  function Letter(c: char): char
    requires Named(c)
  {
    if c == '\U{7}' then 'a' else if c == '\U{8}' then 'b' else if c == '\U{9}' then 't' else if c == '\U{a}' then 'n'
    else if c == '\U{b}' then 'v' else if c == '\U{c}' then 'f' else 'r'
  }

  function Escape(printable: char -> bool, c: char): string {
    if c == '"' || c == '\\' then ['\\', c]
    else if printable(c) then [c]
    else if Named(c) then ['\\', Letter(c)]
    else if c < ' ' || c == '\U{7f}' then ['\\', 'x'] + HexText(c as nat, 2)
    else if (c as nat) < 0x10000 then ['\\', 'u'] + HexText(c as nat, 4)
    else ['\\', 'U'] + HexText(c as nat, 8)
  }

  function EscapeAll(printable: char -> bool, s: string): string {
    if s == "" then "" else Escape(printable, s[0]) + EscapeAll(printable, s[1..])
  }

  function Quote(printable: char -> bool, s: string): string {
    "\"" + EscapeAll(printable, s) + "\""
  }

  // ----------------------------------------------------------------- unquote

  predicate IsScalar(n: nat) {
    n < 0xD800 || 0xE000 <= n < 0x110000
  }

  function NamedBy(letter: char): Option<char> {
    if letter == 'a' then Some('\U{7}') else if letter == 'b' then Some('\U{8}') else if letter == 't' then Some('\U{9}')
    else if letter == 'n' then Some('\U{a}') else if letter == 'v' then Some('\U{b}') else if letter == 'f' then Some('\U{c}')
    else if letter == 'r' then Some('\U{d}') else if letter == '\\' || letter == '"' then Some(letter)
    else None
  }

  /** How many hex digits an escape letter is followed by. */
  function Width(letter: char): nat {
    if letter == 'x' then 2 else if letter == 'u' then 4 else if letter == 'U' then 8 else 0
  }

  function Octal(s: string): Option<nat> {
    if |s| == 3 && forall i | 0 <= i < 3 :: '0' <= s[i] <= '7'
    then Some((s[0] - '0') as nat * 64 + (s[1] - '0') as nat * 8 + (s[2] - '0') as nat)
    else None
  }

  /** The first character that a literal stands for, and what is left of it.
      Escapes of single bytes count below 0x80 only. */
  function UnquoteOne(t: string): Option<(char, string)>
    requires t != ""
  {
    if t[0] == '"' || t[0] == '\n' then None
    else if t[0] != '\\' then Some((t[0], t[1..]))
    else if |t| == 1 then None
    else if NamedBy(t[1]).Some? then Some((NamedBy(t[1]).value, t[2..]))
    else if Width(t[1]) > 0 then
      var width := Width(t[1]);
      if |t| < 2 + width || HexValue(t[2..2 + width]).None? then None
      else
        var n := HexValue(t[2..2 + width]).value;
        if !IsScalar(n) || (width == 2 && n >= 0x80) then None else Some((n as char, t[2 + width..]))
    else if |t| < 4 || Octal(t[1..4]).None? || Octal(t[1..4]).value >= 0x80 then None
    else Some((Octal(t[1..4]).value as char, t[4..]))
  }

  function UnquoteAll(t: string): Option<string>
    decreases |t|
  {
    if t == "" then Some("")
    else
      var one := UnquoteOne(t);
      if one.None? || |one.value.1| >= |t| then None
      else
        var rest := UnquoteAll(one.value.1);
        if rest.None? then None else Some([one.value.0] + rest.value)
  }

  /** The value of a double-quoted literal. */
  function Unquote(s: string): Option<string>
    requires |s| >= 2 && s[0] == s[|s| - 1] == '"'
  {
    UnquoteAll(s[1..|s| - 1])
  }

  // -------------------------------------------------------------- round trip

  lemma HexEscapeUnquotes(c: char, letter: char, rest: string)
    requires Width(letter) > 0 && (c as nat) < Pow16(Width(letter)) && (Width(letter) == 2 ==> c < '\U{80}')
    ensures UnquoteOne(['\\', letter] + HexText(c as nat, Width(letter)) + rest) == Some((c, rest))
  {
    var width := Width(letter);
    var t := ['\\', letter] + HexText(c as nat, width) + rest;
    HexTextHasValue(c as nat, width);
    assert t[2..2 + width] == HexText(c as nat, width) && t[2 + width..] == rest;
    assert NamedBy(letter).None?;
  }

  lemma EscapeUnquotes(printable: char -> bool, c: char, rest: string)
    requires Printing(printable)
    ensures UnquoteOne(Escape(printable, c) + rest) == Some((c, rest))
  {
    assert Pow16(2) == 0x100 && Pow16(4) == 0x10000 && Pow16(8) == 0x1_0000_0000;
    var t := Escape(printable, c) + rest;
    if c == '"' || c == '\\' || (!printable(c) && Named(c)) {
      assert t[2..] == rest;
    } else if printable(c) {
      assert t[1..] == rest;
    } else if c < ' ' || c == '\U{7f}' {
      HexEscapeUnquotes(c, 'x', rest);
    } else if (c as nat) < 0x10000 {
      HexEscapeUnquotes(c, 'u', rest);
    } else {
      HexEscapeUnquotes(c, 'U', rest);
    }
  }

  lemma {:induction false} EscapedTextUnquotes(printable: char -> bool, s: string)
    requires Printing(printable)
    ensures UnquoteAll(EscapeAll(printable, s)) == Some(s)
  {
    if s != "" {
      EscapedTextUnquotes(printable, s[1..]);
      EscapeUnquotes(printable, s[0], EscapeAll(printable, s[1..]));
      assert s == [s[0]] + s[1..];
    }
  }

  /** Every text is read back from its literal. */
  lemma QuoteUnquotes(printable: char -> bool, s: string)
    requires Printing(printable)
    ensures Unquote(Quote(printable, s)) == Some(s)
  {
    EscapedTextUnquotes(printable, s);
    assert Quote(printable, s)[1..|Quote(printable, s)| - 1] == EscapeAll(printable, s);
  }

  lemma EscapeShape(printable: char -> bool, c: char)
    requires Printing(printable)
    ensures var u := Escape(printable, c);
            && u != "" && '\n' !in u && '\r' !in u
            && (forall i | 0 <= i < |u| && u[i] == '"' :: i == 1 && u[0] == '\\' && c == '"')
            && (u == [c] || u[0] == '\\')
  {
    HexTextIsHex(c as nat, 2);
    HexTextIsHex(c as nat, 4);
    HexTextIsHex(c as nat, 8);
    var u := Escape(printable, c);
    forall i | 2 <= i < |u| ensures u[i] != '"' && u[i] != '\n' && u[i] != '\r' {
      assert u[i] in u[2..];
    }
  }

  /** A literal holds no line break, and a quote only where the text has one. */
  lemma {:induction false} LiteralShape(printable: char -> bool, s: string)
    requires Printing(printable)
    ensures '\n' !in EscapeAll(printable, s) && '\r' !in EscapeAll(printable, s)
    ensures '"' !in s ==> '"' !in EscapeAll(printable, s)
  {
    if s != "" {
      LiteralShape(printable, s[1..]);
      EscapeShape(printable, s[0]);
      assert s == [s[0]] + s[1..];
    }
  }

  /** A literal that is cut right after a quote inside it no longer reads. */
  lemma {:induction false} CutLiteralFails(printable: char -> bool, s: string, t: string, after: string)
    requires Printing(printable) && EscapeAll(printable, s) == t + "\"" + after
    ensures UnquoteAll(t).None?
    decreases |s|
  {
    var whole := t + "\"" + after;
    assert |whole| > 0;
    if s != "" {
      var u, more := Escape(printable, s[0]), EscapeAll(printable, s[1..]);
      EscapeShape(printable, s[0]);
      assert whole == u + more && whole[..|t|] == t && whole[..|u|] == u;
      if |t| < |u| {
        assert u[|t|] == whole[|t|] == '"';
        assert whole[..|u|][..|t|] == whole[..|t|];
        assert t == "\\";
      } else {
        var rest := t[|u|..];
        assert t[..|u|] == whole[..|u|];
        assert t == t[..|u|] + rest;
        assert more == rest + "\"" + after by {
          assert more == whole[|u|..];
        }
        CutLiteralFails(printable, s[1..], rest, after);
        EscapeUnquotes(printable, s[0], rest);
      }
    }
  }

  function Hashes(s: string): nat {
    multiset(s)['#']
  }

  lemma HashesOfSum(a: string, b: string)
    ensures Hashes(a + b) == Hashes(a) + Hashes(b)
  {
  }

  lemma EscapeKeepsHashes(printable: char -> bool, c: char)
    requires Printing(printable)
    ensures Hashes(Escape(printable, c)) == if c == '#' then 1 else 0
  {
    if c != '"' && c != '\\' && !printable(c) && !Named(c) {
      HexTextIsHex(c as nat, 2);
      HexTextIsHex(c as nat, 4);
      HexTextIsHex(c as nat, 8);
    }
    if c != '#' {
      assert '#' !in Escape(printable, c);
    }
  }

  /** A literal has as many '#' as its text. */
  lemma {:induction false} LiteralKeepsHashes(printable: char -> bool, s: string)
    requires Printing(printable)
    ensures Hashes(EscapeAll(printable, s)) == Hashes(s)
  {
    if s != "" {
      EscapeKeepsHashes(printable, s[0]);
      LiteralKeepsHashes(printable, s[1..]);
      HashesOfSum(Escape(printable, s[0]), EscapeAll(printable, s[1..]));
      HashesOfSum([s[0]], s[1..]);
      assert s == [s[0]] + s[1..];
    }
  }
}
