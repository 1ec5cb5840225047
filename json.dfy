/**
 * The part of ECMAScript `JSON.stringify` (RFC 8259 text) that the handlers use:
 * string quoting, a flat object of string members, the cache-key record
 * `{path, param}`, and a one-member object indented by two spaces.
 * Each serialiser comes with a parser that inverts it, so that equal texts
 * are shown to come from equal values.
 */
module Json {
  import opened Common

  const Backspace: char := 8 as char
  const FormFeed: char := 12 as char

  /** Lower-case hexadecimal digit, as `JSON.stringify` writes in `\u00XX`. */
  function HexDigit(d: int): (c: char)
    requires 0 <= d < 16
    ensures HexValue(c) == Some(d)
  {
    if d < 10 then ('0' as int + d) as char else ('a' as int + (d - 10)) as char
  }

  function HexValue(c: char): (r: Option<int>)
    ensures r.Some? ==> 0 <= r.value < 16
  {
    if '0' <= c <= '9' then Some(c as int - '0' as int)
    else if 'a' <= c <= 'f' then Some(c as int - 'a' as int + 10)
    else None
  }

  /** The escape of one character inside a JSON string literal (QuoteJSONString). */
  function EscapeChar(c: char): (s: string)
    ensures 1 <= |s| <= 6
    ensures |s| == 1 <==> s[0] != '\\'
    ensures |s| == 1 ==> s == [c] && c != '"' && c as int >= 0x20
  {
    if c == '"' then "\\\""
    else if c == '\\' then "\\\\"
    else if c == Backspace then "\\b"
    else if c == '\t' then "\\t"
    else if c == '\n' then "\\n"
    else if c == FormFeed then "\\f"
    else if c == '\r' then "\\r"
    else if c as int < 0x20 then "\\u00" + [HexDigit(c as int / 16), HexDigit(c as int % 16)]
    else [c]
  }

  /** The body of a string literal: every character escaped, in order. */
  function Escape(s: string): (r: string)
    ensures |r| >= |s|
  {
    if s == [] then [] else EscapeChar(s[0]) + Escape(s[1..])
  }

  /** A string as a JSON string literal. */
  function Quote(s: string): (r: string)
    ensures |r| >= |s| + 2 && r[0] == '"' && r[|r| - 1] == '"'
  {
    "\"" + Escape(s) + "\""
  }

  /** The character a two-character escape `\d` stands for. */
  function ShortEscape(d: char): Option<char> {
    if d == '"' then Some('"')
    else if d == '\\' then Some('\\')
    else if d == 'b' then Some(Backspace)
    else if d == 't' then Some('\t')
    else if d == 'n' then Some('\n')
    else if d == 'f' then Some(FormFeed)
    else if d == 'r' then Some('\r')
    else None
  }

  function Cons(c: char, r: Option<(string, string)>): Option<(string, string)> {
    match r
    case None => None
    case Some((t, rest)) => Some(([c] + t, rest))
  }

  /**
   * Reads the rest of a string literal whose opening quote is already consumed:
   * the decoded string and the text after the closing quote.
   */
  function Unescape(s: string): (r: Option<(string, string)>)
    ensures r.Some? ==> |r.value.1| < |s|
    decreases |s|
  {
    if |s| == 0 then None
    else if s[0] == '"' then Some(([], s[1..]))
    else if s[0] == '\\' then
      if |s| < 2 then None
      else if ShortEscape(s[1]).Some? then Cons(ShortEscape(s[1]).value, Unescape(s[2..]))
      else if |s| >= 6 && s[1] == 'u' && s[2] == '0' && s[3] == '0'
              && HexValue(s[4]).Some? && HexValue(s[5]).Some? then
        Cons((HexValue(s[4]).value * 16 + HexValue(s[5]).value) as char, Unescape(s[6..]))
      else None
    else if s[0] as int < 0x20 then None
    else Cons(s[0], Unescape(s[1..]))
  }

  lemma UnescapeEscapeChar(c: char, t: string)
    ensures Unescape(EscapeChar(c) + t) == Cons(c, Unescape(t))
  {
    var e := EscapeChar(c);
    var s := e + t;
    if |e| == 1 {
      assert s[1..] == t;
    } else if |e| == 2 {
      assert s[2..] == t;
    } else {
      var n := c as int;
      assert HexValue(s[4]) == Some(n / 16) && HexValue(s[5]) == Some(n % 16);
      assert s[6..] == t;
    }
  }

  /** Reading back an escaped string up to its closing quote gives the string and what follows. */
  lemma {:induction false} UnescapeEscape(s: string, rest: string)
    ensures Unescape(Escape(s) + "\"" + rest) == Some((s, rest))
  {
    if s == [] {
      assert Escape(s) + "\"" + rest == "\"" + rest;
      assert ("\"" + rest)[1..] == rest;
    } else {
      assert Escape(s) + "\"" + rest == EscapeChar(s[0]) + (Escape(s[1..]) + "\"" + rest);
      UnescapeEscapeChar(s[0], Escape(s[1..]) + "\"" + rest);
      UnescapeEscape(s[1..], rest);
      assert [s[0]] + s[1..] == s;
    }
  }

  /** Reads a string literal at the head of the text. */
  function ParseString(s: string): (r: Option<(string, string)>)
    ensures r.Some? ==> |r.value.1| < |s|
  {
    if |s| == 0 || s[0] != '"' then None else Unescape(s[1..])
  }

  lemma ParseQuote(s: string, rest: string)
    ensures ParseString(Quote(s) + rest) == Some((s, rest))
  {
    var t := Quote(s) + rest;
    assert t[1..] == Escape(s) + "\"" + rest;
    UnescapeEscape(s, rest);
  }

  /** Equal string literals come from equal strings. */
  lemma QuoteInjective(s: string, t: string)
    requires Quote(s) == Quote(t)
    ensures s == t
  {
    ParseQuote(s, []);
    ParseQuote(t, []);
    assert Quote(s) + [] == Quote(s);
    assert Quote(t) + [] == Quote(t);
  }

  // ---------------------------------------------------------------------------
  // Flat objects whose member values are strings, members in insertion order.

  function Member(m: (string, string)): string {
    Quote(m.0) + ":" + Quote(m.1)
  }

  /** The members after the first, each preceded by ',', then the closing brace. */
  function MembersTail(ms: seq<(string, string)>): string {
    if ms == [] then "}" else "," + Member(ms[0]) + MembersTail(ms[1..])
  }

  /** `JSON.stringify` of an object whose own enumerable properties are `ms`, in that order. */
  function Object(ms: seq<(string, string)>): (r: string)
    ensures |r| >= 2 && r[0] == '{'
  {
    if ms == [] then "{}" else "{" + Member(ms[0]) + MembersTail(ms[1..])
  }

  function ParseMember(s: string): (r: Option<((string, string), string)>)
    ensures r.Some? ==> |r.value.1| < |s|
  {
    match ParseString(s)
    case None => None
    case Some((k, r1)) =>
      if |r1| == 0 || r1[0] != ':' then None
      else match ParseString(r1[1..])
        case None => None
        case Some((v, r2)) => Some(((k, v), r2))
  }

  lemma ParseMemberOf(m: (string, string), rest: string)
    ensures ParseMember(Member(m) + rest) == Some((m, rest))
  {
    var q0, q1 := Quote(m.0), Quote(m.1);
    var after := ":" + (q1 + rest);
    Regroup(q0, ":", q1, rest);
    assert Member(m) + rest == q0 + after;
    ParseQuote(m.0, after);
    assert ParseString(q0 + after) == Some((m.0, after));
    assert after[0] == ':' && after[1..] == q1 + rest;
    ParseQuote(m.1, rest);
  }

  function ParseMembersTail(s: string): (r: Option<(seq<(string, string)>, string)>)
    ensures r.Some? ==> |r.value.1| < |s|
    decreases |s|
  {
    if |s| == 0 then None
    else if s[0] == '}' then Some(([], s[1..]))
    else if s[0] != ',' then None
    else match ParseMember(s[1..])
      case None => None
      case Some((m, r1)) =>
        match ParseMembersTail(r1)
        case None => None
        case Some((ms, r2)) => Some(([m] + ms, r2))
  }

  lemma {:induction false} ParseMembersTailOf(ms: seq<(string, string)>, rest: string)
    ensures ParseMembersTail(MembersTail(ms) + rest) == Some((ms, rest))
  {
    var t := MembersTail(ms) + rest;
    if ms == [] {
      assert t == "}" + rest;
      assert t[1..] == rest;
    } else {
      var after := MembersTail(ms[1..]) + rest;
      var body := Member(ms[0]) + after;
      Regroup(",", Member(ms[0]), MembersTail(ms[1..]), rest);
      assert t == "," + body;
      assert t[0] == ',' && t[1..] == body;
      ParseMemberOf(ms[0], after);
      ParseMembersTailOf(ms[1..], rest);
      assert [ms[0]] + ms[1..] == ms;
    }
  }

  function ParseObject(s: string): (r: Option<(seq<(string, string)>, string)>)
    ensures r.Some? ==> |r.value.1| < |s|
  {
    if |s| < 2 || s[0] != '{' then None
    else if s[1] == '}' then Some(([], s[2..]))
    else match ParseMember(s[1..])
      case None => None
      case Some((m, r1)) =>
        match ParseMembersTail(r1)
        case None => None
        case Some((ms, r2)) => Some(([m] + ms, r2))
  }

  lemma ParseObjectOf(ms: seq<(string, string)>, rest: string)
    ensures ParseObject(Object(ms) + rest) == Some((ms, rest))
  {
    var t := Object(ms) + rest;
    if ms == [] {
      assert t == "{}" + rest;
      assert t[2..] == rest;
    } else {
      var after := MembersTail(ms[1..]) + rest;
      var body := Member(ms[0]) + after;
      Regroup("{", Member(ms[0]), MembersTail(ms[1..]), rest);
      assert t == "{" + body;
      assert t[0] == '{' && t[1..] == body;
      assert t[1] == body[0] == Quote(ms[0].0)[0] == '"';
      ParseMemberOf(ms[0], after);
      assert ParseMember(t[1..]) == Some((ms[0], after));
      ParseMembersTailOf(ms[1..], rest);
      assert ParseMembersTail(after) == Some((ms[1..], rest));
      assert [ms[0]] + ms[1..] == ms;
    }
  }

  // ---------------------------------------------------------------------------
  // The cache-key record `{path, param}` of the image handler.

  const PathLabel := "{\"path\":"
  const ParamLabel := ",\"param\":"

  /** `JSON.stringify({path, param})` with `param` a flat string-valued object. */
  function Props(path: string, param: seq<(string, string)>): (r: string)
    ensures |r| > |path|
  {
    PathLabel + Quote(path) + ParamLabel + Object(param) + "}"
  }

  function ParseProps(s: string): (r: Option<(string, seq<(string, string)>)>) {
    if |s| < |PathLabel| || s[..|PathLabel|] != PathLabel then None
    else match ParseString(s[|PathLabel|..])
      case None => None
      case Some((path, r1)) =>
        if |r1| < |ParamLabel| || r1[..|ParamLabel|] != ParamLabel then None
        else match ParseObject(r1[|ParamLabel|..])
          case None => None
          case Some((param, r2)) => if r2 == "}" then Some((path, param)) else None
  }

  /** The record can be read back from its text. */
  lemma ParseProps_Props(path: string, param: seq<(string, string)>)
    ensures ParseProps(Props(path, param)) == Some((path, param))
  {
    var s := Props(path, param);
    var tail := Object(param) + "}";
    var afterPath := ParamLabel + tail;
    assert s == PathLabel + (Quote(path) + afterPath) by {
      Regroup(PathLabel, Quote(path), ParamLabel, tail);
      Regroup(PathLabel + Quote(path), ParamLabel, Object(param), "}");
    }
    assert s[..|PathLabel|] == PathLabel && s[|PathLabel|..] == Quote(path) + afterPath;
    ParseQuote(path, afterPath);
    assert afterPath[..|ParamLabel|] == ParamLabel && afterPath[|ParamLabel|..] == tail;
    ParseObjectOf(param, "}");
  }

  /** Different records serialise to different texts. */
  lemma PropsInjective(p1: string, q1: seq<(string, string)>, p2: string, q2: seq<(string, string)>)
    requires Props(p1, q1) == Props(p2, q2)
    ensures p1 == p2 && q1 == q2
  {
    ParseProps_Props(p1, q1);
    ParseProps_Props(p2, q2);
  }

  // ---------------------------------------------------------------------------
  // `JSON.stringify({name: value}, null, 2)`: one member on its own line, indented by two spaces.

  function Indented(name: string, value: string): (r: string)
    ensures |r| > 6 && r[..4] == "{\n  " && r[|r| - 2..] == "\n}"
  {
    "{\n  " + Quote(name) + ": " + Quote(value) + "\n}"
  }

  /** The value of the member `name` of a text written by Indented. */
  function ParseIndented(name: string, s: string): Option<string> {
    var head := "{\n  " + Quote(name) + ": ";
    if |s| < |head| || s[..|head|] != head then None
    else match ParseString(s[|head|..])
      case None => None
      case Some((v, rest)) => if rest == "\n}" then Some(v) else None
  }

  lemma ParseIndentedOf(name: string, value: string)
    ensures ParseIndented(name, Indented(name, value)) == Some(value)
  {
    var head := "{\n  " + Quote(name) + ": ";
    var s := Indented(name, value);
    assert s == head + (Quote(value) + "\n}");
    assert s[..|head|] == head;
    assert s[|head|..] == Quote(value) + "\n}";
    ParseQuote(value, "\n}");
  }
}
