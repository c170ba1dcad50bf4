/** Rust's `Debug` rendering of a string and of an optional string, as the
    error messages print them with `{:?}`. */
module DebugFormat {
  import opened Wrappers

  /** The characters `str::escape_debug` writes as a backslash escape, and the
      letter that follows the backslash. */
  function EscapeLetter(c: char): Option<char> {
    if c == '\t' then Some('t')
    else if c == '\r' then Some('r')
    else if c == '\n' then Some('n')
    else if c == '\\' then Some('\\')
    else if c == '"' then Some('"')
    else if c == '\0' then Some('0')
    else None
  }

  /** The inverse of `EscapeLetter` on the letters it produces. */
  function UnescapeLetter(l: char): Option<char> {
    if l == 't' then Some('\t')
    else if l == 'r' then Some('\r')
    else if l == 'n' then Some('\n')
    else if l == '\\' then Some('\\')
    else if l == '"' then Some('"')
    else if l == '0' then Some('\0')
    else None
  }

  lemma EscapeLetterInverse(c: char)
    ensures EscapeLetter(c).Some? ==> UnescapeLetter(EscapeLetter(c).value) == Some(c)
  {
  }

  /** The C0 and C1 control characters, which `escape_debug` writes as
      `\u{…}` unless they have a letter escape. */
  predicate IsControl(c: char) {
    c as int < 0x20 || 0x7f <= c as int < 0xa0
  }

  /** A lower-case hexadecimal digit. */
  function HexDigit(d: nat): char
    requires d < 16
  {
    if d < 10 then ('0' as int + d) as char else ('a' as int + d - 10) as char
  }

  /** The value of a lower-case hexadecimal digit. */
  function HexValue(h: char): (r: Option<nat>)
    ensures r.Some? ==> r.value < 16
  {
    if '0' <= h <= '9' then Some(h as int - '0' as int)
    else if 'a' <= h <= 'f' then Some(h as int - 'a' as int + 10)
    else None
  }

  lemma HexValueOfDigit(d: nat)
    requires d < 16
    ensures HexValue(HexDigit(d)) == Some(d)
  {
  }

  /** The hexadecimal digits of a code point below 256, without leading zeros. */
  function Hex(n: nat): (r: string)
    requires n < 256
    ensures 1 <= |r| <= 2 && (|r| == 2 ==> r[0] != '0')
  {
    if n < 16 then [HexDigit(n)] else [HexDigit(n / 16), HexDigit(n % 16)]
  }

  /** `\u{…}`, the escape of a character with no letter escape. */
  function UnicodeEscape(c: char): string
    requires c as int < 256
  {
    "\\u{" + Hex(c as int) + "}"
  }

  /** Reads a `\u{…}` escape of one or two digits at the front of `e`: the
      character and the width of the escape. */
  function UnescapeUnicode(e: string): (r: Option<(char, nat)>)
    ensures r.Some? ==> 2 <= r.value.1 <= |e|
  {
    if |e| >= 5 && e[..3] == "\\u{" && e[4] == '}' && HexValue(e[3]).Some? then
      Some((HexValue(e[3]).value as char, 5))
    else if |e| >= 6 && e[..3] == "\\u{" && e[5] == '}' && HexValue(e[3]).Some? && HexValue(e[4]).Some? then
      Some(((16 * HexValue(e[3]).value + HexValue(e[4]).value) as char, 6))
    else None
  }

  /** A `\u{…}` escape reads back as its character, whatever follows it. */
  lemma UnicodeEscapeReads(c: char, tail: string)
    requires c as int < 256
    ensures UnescapeUnicode(UnicodeEscape(c) + tail) == Some((c, |UnicodeEscape(c)|))
  {
    var n := c as int;
    var e := UnicodeEscape(c) + tail;
    assert e[..3] == "\\u{";
    if n < 16 {
      HexValueOfDigit(n);
      assert e[3] == HexDigit(n) && e[4] == '}';
    } else {
      HexValueOfDigit(n / 16);
      HexValueOfDigit(n % 16);
      assert e[3] == HexDigit(n / 16) && e[4] == HexDigit(n % 16) && e[5] == '}';
    }
  }

  /** The body of a `Debug`-rendered string, without its quotes. */
  function Escape(s: string): (r: string)
    ensures |r| >= |s|
  {
    if s == [] then []
    else
      match EscapeLetter(s[0])
      case Some(l) => ['\\', l] + Escape(s[1..])
      case None =>
        if IsControl(s[0]) then UnicodeEscape(s[0]) + Escape(s[1..])
        else [s[0]] + Escape(s[1..])
  }

  /** Reads an escaped body back; a dangling or unknown escape is an error. */
  function Unescape(e: string): Option<string>
    decreases |e|
  {
    if e == [] then Some([])
    else if e[0] == '\\' then
      if |e| < 2 then None
      else if e[1] == 'u' then
        match UnescapeUnicode(e)
        case None => None
        case Some(cw) =>
          match Unescape(e[cw.1..])
          case None => None
          case Some(rest) => Some([cw.0] + rest)
      else
        match UnescapeLetter(e[1])
        case None => None
        case Some(c) =>
          match Unescape(e[2..])
          case None => None
          case Some(rest) => Some([c] + rest)
    else
      match Unescape(e[1..])
      case None => None
      case Some(rest) => Some([e[0]] + rest)
  }

  /** Escaping loses nothing: the escaped body reads back as the string. */
  lemma {:induction false} UnescapeEscape(s: string)
    ensures Unescape(Escape(s)) == Some(s)
  {
    if s != [] {
      UnescapeEscape(s[1..]);
      EscapeLetterInverse(s[0]);
      var e := Escape(s);
      assert [s[0]] + s[1..] == s;
      match EscapeLetter(s[0])
      case Some(l) =>
        assert e[2..] == Escape(s[1..]);
      case None =>
        if IsControl(s[0]) {
          UnicodeEscapeReads(s[0], Escape(s[1..]));
          assert e[|UnicodeEscape(s[0])|..] == Escape(s[1..]);
        } else {
          assert e[0] == s[0] != '\\';
          assert e[1..] == Escape(s[1..]);
        }
    }
  }

  /** Different strings are rendered differently. */
  lemma EscapeInjective(s: string, t: string)
    ensures Escape(s) == Escape(t) <==> s == t
  {
    UnescapeEscape(s);
    UnescapeEscape(t);
  }

  /** The bell and escape characters are written as `\u{7}` and `\u{1b}`. */
  lemma ControlEscapeExample()
    ensures Escape("\U{7}") == "\\u{7}"
    ensures Escape("\U{1b}") == "\\u{1b}"
  {
  }

  /** `<String as Debug>`: the escaped body between double quotes. */
  function QuotedString(s: string): (r: string)
    ensures |r| >= |s| + 2 && r[0] == '"' && r[|r| - 1] == '"'
  {
    "\"" + Escape(s) + "\""
  }

  /** `<Option<String> as Debug>`. */
  function DebugOption(o: Option<string>): (r: string)
    ensures o.None? <==> r == "None"
  {
    match o
    case None => "None"
    case Some(s) => "Some(" + QuotedString(s) + ")"
  }

  /** The `Debug` text of an optional string determines it. */
  lemma DebugOptionInjective(a: Option<string>, b: Option<string>)
    ensures DebugOption(a) == DebugOption(b) <==> a == b
  {
    if a.Some? && b.Some? && DebugOption(a) == DebugOption(b) {
      var qa := QuotedString(a.value);
      var qb := QuotedString(b.value);
      assert qa == DebugOption(a)[5..|DebugOption(a)| - 1];
      assert qb == DebugOption(b)[5..|DebugOption(b)| - 1];
      assert Escape(a.value) == qa[1..|qa| - 1];
      assert Escape(b.value) == qb[1..|qb| - 1];
      EscapeInjective(a.value, b.value);
    }
  }

  /** The test vector `Some("hello")`. */
  lemma DebugOptionExample()
    ensures DebugOption(Some("hello")) == "Some(\"hello\")"
  {
    assert forall i :: 0 <= i < |"hello"| ==> Plain("hello"[i]);
    EscapePlain("hello");
  }

  /** A character `Escape` copies unchanged. */
  predicate Plain(c: char) {
    EscapeLetter(c).None? && !IsControl(c)
  }

  /** Text without quotes, backslashes or control characters escapes to itself. */
  lemma {:induction false} EscapePlain(s: string)
    requires forall i :: 0 <= i < |s| ==> Plain(s[i])
    ensures Escape(s) == s
  {
    if s != [] {
      EscapePlain(s[1..]);
    }
  }
}
