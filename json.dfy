/** The string form `JSON.stringify` gives a text value: the value between
    double quotes, with the escapes of section 7 of RFC 8259 in the choice
    ECMAScript makes (short escapes for backspace, tab, line feed, form feed,
    carriage return, quote and backslash; `\u00xx` in lower-case hex for the
    other control characters). A decoder for that form shows nothing is
    lost. */
module Json {
  import opened Seqs

  function HexDigit(d: int): (c: char)
    requires 0 <= d < 16
  {
    if d < 10 then ('0' as int + d) as char else ('a' as int + d - 10) as char
  }

  /** The escaped form of one character. */
  function EscapeChar(c: char): (r: string)
    ensures r != [] && forall i :: 0 <= i < |r| ==> r[i] >= ' '
    ensures c >= ' ' && c != '"' && c != '\\' ==> r == [c]
  {
    if c == '"' then "\\\""
    else if c == '\\' then "\\\\"
    else if c == '\U{8}' then "\\b"
    else if c == '\t' then "\\t"
    else if c == '\n' then "\\n"
    else if c == '\U{C}' then "\\f"
    else if c == '\r' then "\\r"
    else if c < ' ' then "\\u00" + [HexDigit(c as int / 16), HexDigit(c as int % 16)]
    else [c]
  }

  function Escape(s: string): (r: string)
    ensures forall i :: 0 <= i < |r| ==> r[i] >= ' '
  {
    if s == [] then [] else EscapeChar(s[0]) + Escape(s[1..])
  }

  /** `JSON.stringify` of a text. */
  function Quote(s: string): (r: string)
    ensures |r| >= 2 && r[0] == '"' && r[|r| - 1] == '"'
    ensures forall i :: 0 <= i < |r| ==> r[i] >= ' '
  {
    "\"" + Escape(s) + "\""
  }

  /** The encoded form never holds a raw line break or other control
      character. */
  lemma QuoteHasNoLineBreak(s: string)
    ensures '\n' !in Quote(s) && '\r' !in Quote(s)
  {
  }

  function HexValue(c: char): (v: int)
    ensures -1 <= v < 16
  {
    if '0' <= c <= '9' then c as int - '0' as int
    else if 'a' <= c <= 'f' then c as int - 'a' as int + 10
    else if 'A' <= c <= 'F' then c as int - 'A' as int + 10
    else -1
  }

  function Prepend(c: char, r: Option<string>): Option<string>
  {
    if r.Some? then Some([c] + r.value) else None
  }

  /** The character a short escape `\x` stands for. */
  function ShortEscape(x: char): Option<char>
  {
    if x == '"' then Some('"')
    else if x == '\\' then Some('\\')
    else if x == '/' then Some('/')
    else if x == 'b' then Some('\U{8}')
    else if x == 't' then Some('\t')
    else if x == 'n' then Some('\n')
    else if x == 'f' then Some('\U{C}')
    else if x == 'r' then Some('\r')
    else None
  }

  /** Reads the inside of a JSON string: escapes are undone, and a raw
      quote or control character is an error. */
  function Unescape(t: string): Option<string>
    decreases |t|
  {
    if t == [] then Some([])
    else if t[0] == '\\' then
      if |t| >= 2 && ShortEscape(t[1]).Some? then Prepend(ShortEscape(t[1]).value, Unescape(t[2..]))
      else if |t| >= 6 && t[1] == 'u' && HexValue(t[2]) >= 0 && HexValue(t[3]) >= 0 && HexValue(t[4]) >= 0 && HexValue(t[5]) >= 0 then
        var v := ((HexValue(t[2]) * 16 + HexValue(t[3])) * 16 + HexValue(t[4])) * 16 + HexValue(t[5]);
        if 0xD800 <= v < 0xE000 then None else Prepend(v as char, Unescape(t[6..]))
      else None
    else if t[0] == '"' || t[0] < ' ' then None
    else Prepend(t[0], Unescape(t[1..]))
  }

  /** Reads a JSON string. */
  function Unquote(q: string): Option<string>
  {
    if |q| >= 2 && q[0] == '"' && q[|q| - 1] == '"' then Unescape(q[1..|q| - 1]) else None
  }

  lemma UnescapeChar(c: char, rest: string)
    ensures Unescape(EscapeChar(c) + rest) == Prepend(c, Unescape(rest))
  {
    var e := EscapeChar(c);
    if |e| == 6 {
      UnescapeControl(c, rest);
    } else if |e| == 2 {
      assert (e + rest)[2..] == rest;
      assert ShortEscape(e[1]) == Some(c);
    } else {
      assert (e + rest)[1..] == rest;
    }
  }

  /** A control character without a short escape comes back from `\u00xx`. */
  lemma UnescapeControl(c: char, rest: string)
    requires |EscapeChar(c)| == 6
    ensures Unescape(EscapeChar(c) + rest) == Prepend(c, Unescape(rest))
  {
    var hi, lo := c as int / 16, c as int % 16;
    var t := EscapeChar(c) + rest;
    assert EscapeChar(c) == "\\u00" + [HexDigit(hi), HexDigit(lo)];
    assert t[0] == '\\' && t[1] == 'u' && t[2] == '0' && t[3] == '0';
    assert t[4] == HexDigit(hi) && t[5] == HexDigit(lo);
    assert HexValue(t[4]) == hi && HexValue(t[5]) == lo;
    assert t[6..] == rest;
  }

  lemma {:induction false} EscapeRoundTrip(s: string)
    ensures Unescape(Escape(s)) == Some(s)
  {
    if s != [] {
      EscapeRoundTrip(s[1..]);
      UnescapeChar(s[0], Escape(s[1..]));
      assert [s[0]] + s[1..] == s;
    }
  }

  /** Decoding the encoded text gives the text back. */
  lemma QuoteRoundTrip(s: string)
    ensures Unquote(Quote(s)) == Some(s)
  {
    var q := Quote(s);
    assert q[1..|q| - 1] == Escape(s);
    EscapeRoundTrip(s);
  }
}
