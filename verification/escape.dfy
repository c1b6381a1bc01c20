/**
 * Escaping of the message and code strings spliced into the proxy's JSON
 * error bodies (`escape_json`, used by `json_error`), and a decoder for the
 * body of a JSON string literal as section 7 of RFC 8259 defines it, which
 * serves as the reference the escaper is measured against.
 */
module Escape {
  import opened Common

  /** A character RFC 8259 forbids unescaped inside a string: U+0000 through U+001F. */
  predicate IsControl(c: char) {
    c < ' '
  }

  /** The single-character escapes of RFC 8259 section 7: `\"`, `\\`, `\/`, `\b`, `\f`, `\n`, `\r`, `\t`. */
  function SimpleEscape(c: char): (r: Option<char>)
    ensures r.Some? ==> r.value == '"' || r.value == '\\' || r.value == '/' || IsControl(r.value)
  {
    match c
    case '"' => Some('"')
    case '\\' => Some('\\')
    case '/' => Some('/')
    case 'b' => Some('\U{8}')
    case 'f' => Some('\U{C}')
    case 'n' => Some('\n')
    case 'r' => Some('\r')
    case 't' => Some('\t')
    case _ => None
  }

  function HexDigit(n: nat): (r: char)
    requires n < 16
  {
    if n < 10 then ('0' as int + n) as char else ('a' as int + n - 10) as char
  }

  function HexValue(c: char): (r: Option<nat>)
    ensures r.Some? ==> r.value < 16
  {
    if '0' <= c <= '9' then Some(c as int - '0' as int)
    else if 'a' <= c <= 'f' then Some(c as int - 'a' as int + 10)
    else if 'A' <= c <= 'F' then Some(c as int - 'A' as int + 10)
    else None
  }

  lemma HexValueOfDigit(n: nat)
    requires n < 16
    ensures HexValue(HexDigit(n)) == Some(n)
  {
  }

  /** The code unit a `\uXXXX` escape denotes, if the four characters are hex digits. */
  function Hex4(h: string): (r: Option<nat>)
    requires |h| == 4
    ensures r.Some? ==> r.value < 0x1_0000
  {
    match (HexValue(h[0]), HexValue(h[1]), HexValue(h[2]), HexValue(h[3]))
    case (Some(a), Some(b), Some(c), Some(d)) => Some(((a * 16 + b) * 16 + c) * 16 + d)
    case _ => None
  }

  function Prepend(c: char, r: Option<string>): (o: Option<string>)
    ensures o.Some? <==> r.Some?
    ensures o.Some? ==> o.value == [c] + r.value
  {
    match r
    case Some(t) => Some([c] + t)
    case None => None
  }

  /**
   * Decodes the text between the quotes of a JSON string literal; `None` when
   * it is not a valid string body under RFC 8259 section 7 (an unescaped
   * quote or control character, a dangling or unknown escape). Surrogate
   * `\u` escapes are rejected rather than paired.
   */
  function Unescape(s: string): (r: Option<string>)
    decreases |s|
  {
    if |s| == 0 then Some("")
    else if s[0] == '\\' then
      if |s| < 2 then None
      else if SimpleEscape(s[1]).Some? then Prepend(SimpleEscape(s[1]).value, Unescape(s[2..]))
      else if s[1] == 'u' && |s| >= 6 then
        match Hex4(s[2..6])
        case Some(n) =>
          if 0xD800 <= n < 0xE000 then None else Prepend(n as char, Unescape(s[6..]))
        case None => None
      else None
    else if IsControl(s[0]) || s[0] == '"' then None
    else Prepend(s[0], Unescape(s[1..]))
  }

  /** A string that may stand between the quotes of a JSON string literal. */
  predicate ValidStringBody(s: string) {
    Unescape(s).Some?
  }

  /** `escape_json` on one character. */
  function EscapeCharAsWritten(c: char): string {
    match c
    case '\\' => "\\\\"
    case '"' => "\\\""
    case '\n' => "\\n"
    case '\r' => "\\r"
    case '\t' => "\\t"
    case _ => [c]
  }

  /** `escape_json` as the source writes it: other control characters pass through raw. */
  function EscapeJsonAsWritten(s: string): (r: string)
    ensures |r| >= |s|
  {
    if |s| == 0 then "" else EscapeCharAsWritten(s[0]) + EscapeJsonAsWritten(s[1..])
  }

  /** The evidently intended escape of one character: every control character escaped. */
  function EscapeChar(c: char): (r: string)
    ensures |r| > 0
  {
    if c == '\\' || c == '"' || c == '\n' || c == '\r' || c == '\t' then EscapeCharAsWritten(c)
    else if IsControl(c) then "\\u00" + [HexDigit(c as int / 16), HexDigit(c as int % 16)]
    else [c]
  }

  /** The corrected `escape_json`. */
  function EscapeJson(s: string): (r: string)
    ensures |r| >= |s|
  {
    if |s| == 0 then "" else EscapeChar(s[0]) + EscapeJson(s[1..])
  }

  /** Decoding an escaped character followed by anything yields that character first. */
  lemma UnescapeEscapeChar(c: char, t: string)
    ensures Unescape(EscapeChar(c) + t) == Prepend(c, Unescape(t))
  {
    if c == '\\' || c == '"' || c == '\n' || c == '\r' || c == '\t' {
      UnescapeTwoCharEscape(c, t);
    } else if IsControl(c) {
      UnescapeUnicodeEscape(c, t);
    } else {
      var s := [c] + t;
      assert s[1..] == t;
    }
  }

  lemma UnescapeTwoCharEscape(c: char, t: string)
    requires c == '\\' || c == '"' || c == '\n' || c == '\r' || c == '\t'
    ensures Unescape(EscapeChar(c) + t) == Prepend(c, Unescape(t))
  {
    var s := EscapeChar(c) + t;
    assert |EscapeChar(c)| == 2 && s[0] == '\\';
    assert SimpleEscape(s[1]) == Some(c);
    assert s[2..] == t;
  }

  lemma UnescapeUnicodeEscape(c: char, t: string)
    requires IsControl(c) && c != '\n' && c != '\r' && c != '\t'
    ensures Unescape(EscapeChar(c) + t) == Prepend(c, Unescape(t))
  {
    var hi := c as int / 16;
    var lo := c as int % 16;
    var s := EscapeChar(c) + t;
    assert EscapeChar(c) == "\\u00" + [HexDigit(hi), HexDigit(lo)];
    assert s[0] == '\\' && s[1] == 'u' && SimpleEscape(s[1]).None?;
    assert s[2..6] == ['0', '0', HexDigit(hi), HexDigit(lo)];
    HexValueOfDigit(hi);
    HexValueOfDigit(lo);
    assert Hex4(s[2..6]) == Some(hi * 16 + lo);
    assert (hi * 16 + lo) as char == c;
    assert s[6..] == t;
  }

  /** The corrected escaper is undone by the RFC 8259 decoder, for every input. */
  lemma {:induction false} UnescapeEscapeJson(s: string)
    ensures Unescape(EscapeJson(s)) == Some(s)
  {
    if |s| > 0 {
      UnescapeEscapeJson(s[1..]);
      UnescapeEscapeChar(s[0], EscapeJson(s[1..]));
      assert s == [s[0]] + s[1..];
    }
  }

  /** Hence the corrected escaper always yields a valid JSON string body. */
  lemma EscapeJsonValid(s: string)
    ensures ValidStringBody(EscapeJson(s))
  {
    UnescapeEscapeJson(s);
  }

  /** Without stray control characters the source's escaper and the corrected one agree. */
  lemma {:induction false} AsWrittenAgreesWithoutControls(s: string)
    requires forall i :: 0 <= i < |s| ==> !IsControl(s[i]) || s[i] in "\n\r\t"
    ensures EscapeJsonAsWritten(s) == EscapeJson(s)
  {
    if |s| > 0 {
      AsWrittenAgreesWithoutControls(s[1..]);
    }
  }

  /** The source's escaper leaves U+0001 raw, which no JSON decoder accepts inside a string. */
  lemma AsWrittenControlCharIsInvalid()
    ensures EscapeJsonAsWritten("\U{1}") == "\U{1}"
    ensures !ValidStringBody(EscapeJsonAsWritten("\U{1}"))
  {
    assert EscapeJsonAsWritten("\U{1}") == "\U{1}" + EscapeJsonAsWritten("");
  }
}
