/** JSON string quoting and unquoting (section 7 of RFC 8259), the part of
    the JSON library that the description line goes through. */
module Json {
  import opened Common

  predicate IsControl(c: char)
  {
    c < '\U{0020}'
  }

  /** JSON insignificant white space (section 2 of RFC 8259). */
  predicate IsJsonSpace(c: char)
  {
    c == ' ' || c == '\t' || c == '\n' || c == '\r'
  }

  function HexDigit(n: int): char
    requires 0 <= n < 16
  {
    if n < 10 then ('0' as int + n) as char else ('a' as int + n - 10) as char
  }

  /** The value of a hexadecimal digit of either case. */
  function HexValue(c: char): (r: Option<int>)
    ensures r.Some? ==> 0 <= r.value < 16
  {
    if '0' <= c <= '9' then Some(c as int - '0' as int)
    else if 'a' <= c <= 'f' then Some(c as int - 'a' as int + 10)
    else if 'A' <= c <= 'F' then Some(c as int - 'A' as int + 10)
    else None
  }

  /** Four hexadecimal digits, as in `\uXXXX`. */
  function Hex4(t: string): (r: Option<int>)
    requires |t| == 4
    ensures r.Some? ==> 0 <= r.value < 0x1_0000
  {
    match (HexValue(t[0]), HexValue(t[1]), HexValue(t[2]), HexValue(t[3]))
    case (Some(a), Some(b), Some(c), Some(d)) => Some(((a * 16 + b) * 16 + c) * 16 + d)
    case _ => None
  }

  /** The escape sequence written for one character: the two-character forms
      where JSON has one, `\u00XX` for the other control characters. */
  function EscapeChar(c: char): (r: string)
    ensures 1 <= |r| && (|r| == 1 <==> r == [c])
    ensures forall k :: 0 <= k < |r| ==> !IsControl(r[k])
    ensures |r| > 1 ==> r[0] == '\\'
  {
    if c == '"' then "\\\""
    else if c == '\\' then "\\\\"
    else if c == '\U{0008}' then "\\b"
    else if c == '\U{000C}' then "\\f"
    else if c == '\n' then "\\n"
    else if c == '\r' then "\\r"
    else if c == '\t' then "\\t"
    else if IsControl(c) then "\\u00" + [HexDigit(c as int / 16), HexDigit(c as int % 16)]
    else [c]
  }

  /** The body of a JSON string: never a control character (so never a line
      break) and never an unescaped quote. */
  function Escape(s: string): (r: string)
    ensures forall k :: 0 <= k < |r| ==> !IsControl(r[k])
    ensures |r| >= |s|
  {
    if s == [] then [] else EscapeChar(s[0]) + Escape(s[1..])
  }

  /** Text without quotes, backslashes or control characters is written as
      it is. */
  lemma {:induction false} EscapePlain(s: string)
    requires forall k :: 0 <= k < |s| ==> s[k] != '"' && s[k] != '\\' && !IsControl(s[k])
    ensures Escape(s) == s
  {
    if s != [] {
      EscapePlain(s[1..]);
      assert [s[0]] + s[1..] == s;
    }
  }

  /** `SerializeObject` of a string: a JSON string token. */
  function Quote(s: string): (r: string)
    ensures |r| >= 2 + |s| && r[0] == '"' && r[|r| - 1] == '"'
    ensures forall k :: 0 <= k < |r| ==> !IsControl(r[k])
  {
    "\"" + Escape(s) + "\""
  }

  /** Decodes the escape sequence that follows a backslash; returns the
      character and the text after the sequence. A `\u` escape that names a
      surrogate must be the high half of a pair that a second `\u` escape
      completes. */
  function Unescape(t: string): (r: Option<(char, string)>)
    ensures r.Some? ==> |r.value.1| < |t| && r.value.1 == t[|t| - |r.value.1|..]
  {
    if t == [] then None
    else if t[0] == '"' then Some(('"', t[1..]))
    else if t[0] == '\\' then Some(('\\', t[1..]))
    else if t[0] == '/' then Some(('/', t[1..]))
    else if t[0] == 'b' then Some(('\U{0008}', t[1..]))
    else if t[0] == 'f' then Some(('\U{000C}', t[1..]))
    else if t[0] == 'n' then Some(('\n', t[1..]))
    else if t[0] == 'r' then Some(('\r', t[1..]))
    else if t[0] == 't' then Some(('\t', t[1..]))
    else if t[0] == 'u' && |t| >= 5 then
      match Hex4(t[1..5])
      case None => None
      case Some(u) =>
        if 0xD800 <= u < 0xDC00 then
          if |t| >= 11 && t[5] == '\\' && t[6] == 'u' then
            match Hex4(t[7..11])
            case Some(l) =>
              if 0xDC00 <= l < 0xE000 then
                Some(((0x1_0000 + (u - 0xD800) * 0x400 + (l - 0xDC00)) as char, t[11..]))
              else None
            case None => None
          else None
        else if 0xDC00 <= u < 0xE000 then None
        else Some((u as char, t[5..]))
    else None
  }

  /** Decodes the characters of a string token up to its closing quote;
      returns them and the text after the quote. */
  function Body(t: string): (r: Option<(string, string)>)
    ensures r.Some? ==> |r.value.1| < |t|
    decreases |t|
  {
    if t == [] then None
    else if t[0] == '"' then Some(([], t[1..]))
    else if t[0] == '\\' then
      match Unescape(t[1..])
      case None => None
      case Some((c, rest)) =>
        match Body(rest)
        case None => None
        case Some((s, after)) => Some(([c] + s, after))
    else
      match Body(t[1..])
      case None => None
      case Some((s, after)) => Some(([t[0]] + s, after))
  }

  /** `DeserializeObject<string>`: the text must be one string token,
      optionally followed by white space. */
  function Unquote(t: string): (r: Option<string>)
    ensures r.Some? ==> |t| >= 2 && t[0] == '"'
  {
    if t == [] || t[0] != '"' then None
    else
      match Body(t[1..])
      case None => None
      case Some((s, after)) =>
        if forall k :: 0 <= k < |after| ==> IsJsonSpace(after[k]) then Some(s) else None
  }

  lemma HexRoundTrip(n: int)
    requires 0 <= n < 16
    ensures HexValue(HexDigit(n)) == Some(n)
  {
  }

  /** An escape sequence written by `EscapeChar` decodes to its character. */
  lemma UnescapeEscapeChar(c: char, tail: string)
    requires |EscapeChar(c)| > 1
    ensures Unescape(EscapeChar(c)[1..] + tail) == Some((c, tail))
  {
    var e := EscapeChar(c);
    var t := e[1..] + tail;
    if IsControl(c) && c != '\U{0008}' && c != '\U{000C}' && c != '\n' && c != '\r' && c != '\t' {
      var hi, lo := c as int / 16, c as int % 16;
      HexRoundTrip(hi);
      HexRoundTrip(lo);
      assert t[1..5] == ['0', '0', HexDigit(hi), HexDigit(lo)];
      assert Hex4(t[1..5]) == Some(c as int);
      assert t[5..] == tail;
    }
  }

  lemma {:induction false} BodyEscape(s: string, rest: string)
    ensures Body(Escape(s) + "\"" + rest) == Some((s, rest))
  {
    if s == [] {
      assert Escape(s) + "\"" + rest == "\"" + rest;
    } else {
      var e := EscapeChar(s[0]);
      var tail := Escape(s[1..]) + "\"" + rest;
      assert Escape(s) + "\"" + rest == e + tail;
      BodyEscape(s[1..], rest);
      if |e| == 1 {
        assert (e + tail)[1..] == tail;
      } else {
        assert (e + tail)[1..] == e[1..] + tail;
        UnescapeEscapeChar(s[0], tail);
      }
      assert [s[0]] + s[1..] == s;
    }
  }

  /** Unquoting inverts quoting, for every string. */
  lemma UnquoteQuote(s: string)
    ensures Unquote(Quote(s)) == Some(s)
  {
    BodyEscape(s, "");
    assert Quote(s)[1..] == Escape(s) + "\"" + "";
  }
}
