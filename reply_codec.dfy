/** The JSON text of a reply list, as `JSON.stringify` writes an array of reply records
    (keys in declaration order, no white space), and the parse of that text back into
    replies. A text outside this format does not parse. */
module ReplyCodec {
  import opened Wrappers
  import opened Types

  // ---------------------------------------------------------------- strings

  /** A lower-case hexadecimal digit. */
  function HexDigit(d: nat): char
    requires d < 16
  {
    if d < 10 then ('0' as int + d) as char else ('a' as int + d - 10) as char
  }

  /** The value of a hexadecimal digit of either case. */
  function HexValue(c: char): Option<nat>
  {
    if '0' <= c <= '9' then Some(c as int - '0' as int)
    else if 'a' <= c <= 'f' then Some(c as int - 'a' as int + 10)
    else if 'A' <= c <= 'F' then Some(c as int - 'A' as int + 10)
    else None
  }

  /** The escape `JSON.stringify` writes for one character of a string. */
  function EscapeChar(c: char): string
  {
    if c == '"' then ['\\', '"']
    else if c == '\\' then ['\\', '\\']
    else if c == '\U{0008}' then ['\\', 'b']
    else if c == '\U{000C}' then ['\\', 'f']
    else if c == '\n' then ['\\', 'n']
    else if c == '\r' then ['\\', 'r']
    else if c == '\t' then ['\\', 't']
    else if c < ' ' then ['\\', 'u', '0', '0', HexDigit(c as int / 16), HexDigit(c as int % 16)]
    else [c]
  }

  /** The body of a JSON string literal for `s`, without the quotes, followed by `rest`. */
  function EscapeOnto(s: string, rest: string): string
  {
    if s == [] then rest else EscapeChar(s[0]) + EscapeOnto(s[1..], rest)
  }

  /** `\uXXXX`: the character with the code of four hexadecimal digits, if there is one. */
  function UnicodeEscape(h: string): Option<char>
    requires |h| == 4
  {
    match (HexValue(h[0]), HexValue(h[1]), HexValue(h[2]), HexValue(h[3]))
    case (Some(a), Some(b), Some(c), Some(d)) =>
      var code := ((a * 16 + b) * 16 + c) * 16 + d;
      if 0xD800 <= code < 0xE000 then None else Some(code as char)
    case _ => None
  }

  /** The character a two-character escape `\x` stands for. */
  function SimpleEscape(x: char): Option<char>
  {
    if x == '"' then Some('"')
    else if x == '\\' then Some('\\')
    else if x == '/' then Some('/')
    else if x == 'b' then Some('\U{0008}')
    else if x == 'f' then Some('\U{000C}')
    else if x == 'n' then Some('\n')
    else if x == 'r' then Some('\r')
    else if x == 't' then Some('\t')
    else None
  }

  /** Reads the rest of a string literal up to its closing quote: the decoded characters and
      the text after the quote. */
  function ParseChars(s: string): (r: Option<(string, string)>)
    ensures r.Some? ==> |r.value.1| < |s|
    decreases |s|
  {
    if s == [] then None
    else if s[0] == '"' then Some(([], s[1..]))
    else if s[0] == '\\' then
      if |s| < 2 then None
      else if s[1] == 'u' then
        if |s| < 6 then None
        else match UnicodeEscape(s[2..6]) {
          case None => None
          case Some(c) =>
            match ParseChars(s[6..]) {
              case None => None
              case Some((t, rest)) => Some(([c] + t, rest))
            }
        }
      else match SimpleEscape(s[1]) {
        case None => None
        case Some(c) =>
          match ParseChars(s[2..]) {
            case None => None
            case Some((t, rest)) => Some(([c] + t, rest))
          }
      }
    else if s[0] < ' ' then None
    else match ParseChars(s[1..]) {
      case None => None
      case Some((t, rest)) => Some(([s[0]] + t, rest))
    }
  }

  /** The JSON string literal for `s`, followed by `rest`. */
  function QuoteOnto(s: string, rest: string): string
  {
    "\"" + EscapeOnto(s, "\"" + rest)
  }

  /** Reads a string literal at the start of `s`. */
  function ParseString(s: string): (r: Option<(string, string)>)
    ensures r.Some? ==> |r.value.1| < |s|
  {
    if s != [] && s[0] == '"' then ParseChars(s[1..]) else None
  }

  /** The escape of one character reads back as that character. */
  lemma EscapeCharRoundTrip(c: char, rest: string)
    ensures ParseChars(EscapeChar(c) + rest) ==
      match ParseChars(rest) {
        case None => None
        case Some((t, r)) => Some(([c] + t, r))
      }
  {
    var e := EscapeChar(c);
    if c == '"' || c == '\\' || c == '\U{0008}' || c == '\U{000C}' || c == '\n' || c == '\r' || c == '\t' {
      assert (e + rest)[2..] == rest;
    } else if c < ' ' {
      var s := e + rest;
      assert s[2..6] == e[2..6];
      assert s[6..] == rest;
      var hi, lo := c as int / 16, c as int % 16;
      assert hi < 2;
      assert HexValue(HexDigit(hi)) == Some(hi) && HexValue(HexDigit(lo)) == Some(lo);
      assert UnicodeEscape(s[2..6]) == Some(c);
    } else {
      assert (e + rest)[1..] == rest;
    }
  }

  /** A string literal's body followed by the closing quote reads back as the string. */
  lemma {:induction false} EscapeRoundTrip(s: string, rest: string)
    ensures ParseChars(EscapeOnto(s, "\"" + rest)) == Some((s, rest))
  {
    if s == [] {
      assert ("\"" + rest)[1..] == rest;
    } else {
      EscapeRoundTrip(s[1..], rest);
      EscapeCharRoundTrip(s[0], EscapeOnto(s[1..], "\"" + rest));
      assert [s[0]] + s[1..] == s;
    }
  }

  lemma QuoteRoundTrip(s: string, rest: string)
    ensures ParseString(QuoteOnto(s, rest)) == Some((s, rest))
  {
    assert QuoteOnto(s, rest)[1..] == EscapeOnto(s, "\"" + rest);
    EscapeRoundTrip(s, rest);
  }

  // ---------------------------------------------------------------- records and lists

  /** `lit` starts `s`; what follows it. */
  function Expect(lit: string, s: string): (r: Option<string>)
    ensures r.Some? ==> |r.value| == |s| - |lit|
  {
    if |lit| <= |s| && s[..|lit|] == lit then Some(s[|lit|..]) else None
  }

  lemma ExpectPrefix(lit: string, s: string)
    ensures Expect(lit, lit + s) == Some(s)
  {
    assert (lit + s)[..|lit|] == lit;
    assert (lit + s)[|lit|..] == s;
  }

  /** Reads `lit` followed by a string literal. */
  function ParseField(lit: string, s: string): (r: Option<(string, string)>)
    ensures r.Some? ==> |r.value.1| < |s| - |lit|
  {
    match Expect(lit, s) {
      case None => None
      case Some(t) => ParseString(t)
    }
  }

  /** `lit` and the string literal for `v`, followed by `rest`. */
  function FieldOnto(lit: string, v: string, rest: string): string
  {
    lit + QuoteOnto(v, rest)
  }

  lemma ParseFieldRoundTrip(lit: string, v: string, rest: string)
    ensures ParseField(lit, FieldOnto(lit, v, rest)) == Some((v, rest))
  {
    ExpectPrefix(lit, QuoteOnto(v, rest));
    QuoteRoundTrip(v, rest);
  }

  /** The JSON object for one reply, followed by `rest`. */
  function ReplyOnto(r: Reply, rest: string): string
  {
    FieldOnto("{\"id\":", r.id,
      FieldOnto(",\"userId\":", r.userId,
        FieldOnto(",\"userName\":", r.userName,
          FieldOnto(",\"content\":", r.content,
            FieldOnto(",\"createdAt\":", r.createdAt, "}" + rest)))))
  }

  /** Reads one reply object at the start of `s`. */
  function ParseReply(s: string): (r: Option<(Reply, string)>)
    ensures r.Some? ==> |r.value.1| < |s|
  {
    match ParseField("{\"id\":", s)
    case None => None
    case Some((id, s1)) =>
      match ParseField(",\"userId\":", s1)
      case None => None
      case Some((userId, s2)) =>
        match ParseField(",\"userName\":", s2)
        case None => None
        case Some((userName, s3)) =>
          match ParseField(",\"content\":", s3)
          case None => None
          case Some((content, s4)) =>
            match ParseField(",\"createdAt\":", s4)
            case None => None
            case Some((createdAt, s5)) =>
              match Expect("}", s5)
              case None => None
              case Some(s6) => Some((Reply(id, userId, userName, content, createdAt), s6))
  }

  lemma ParseReplyRoundTrip(r: Reply, rest: string)
    ensures ParseReply(ReplyOnto(r, rest)) == Some((r, rest))
  {
    var t5 := FieldOnto(",\"createdAt\":", r.createdAt, "}" + rest);
    var t4 := FieldOnto(",\"content\":", r.content, t5);
    var t3 := FieldOnto(",\"userName\":", r.userName, t4);
    var t2 := FieldOnto(",\"userId\":", r.userId, t3);
    ParseFieldRoundTrip("{\"id\":", r.id, t2);
    ParseFieldRoundTrip(",\"userId\":", r.userId, t3);
    ParseFieldRoundTrip(",\"userName\":", r.userName, t4);
    ParseFieldRoundTrip(",\"content\":", r.content, t5);
    ParseFieldRoundTrip(",\"createdAt\":", r.createdAt, "}" + rest);
    ExpectPrefix("}", rest);
  }

  /** The objects of a non-empty list separated by commas, followed by `rest`. */
  function ItemsOnto(rs: seq<Reply>, rest: string): string
    requires rs != []
  {
    if |rs| == 1 then ReplyOnto(rs[0], rest) else ReplyOnto(rs[0], "," + ItemsOnto(rs[1..], rest))
  }

  /** `JSON.stringify(replies)`. */
  function Serialize(rs: seq<Reply>): (r: string)
    ensures r != [] && r[0] == '['
  {
    if rs == [] then "[]" else "[" + ItemsOnto(rs, "]")
  }

  /** Reads comma-separated reply objects up to the closing bracket that ends the text. */
  function ParseItems(s: string): Option<seq<Reply>>
    decreases |s|
  {
    match ParseReply(s)
    case None => None
    case Some((r, rest)) =>
      if rest == "]" then Some([r])
      else if rest != [] && rest[0] == ',' then
        match ParseItems(rest[1..])
        case None => None
        case Some(more) => Some([r] + more)
      else None
  }

  /** `JSON.parse(text) as TicketReply[]`, `None` where the parse fails. */
  function Parse(s: string): (r: Option<seq<Reply>>)
    ensures s == "[]" ==> r == Some([])
    ensures s == [] || s[0] != '[' ==> r.None?
  {
    if s == "[]" then Some([])
    else if s != [] && s[0] == '[' then ParseItems(s[1..])
    else None
  }

  lemma {:induction false} ItemsRoundTrip(rs: seq<Reply>)
    requires rs != []
    ensures ParseItems(ItemsOnto(rs, "]")) == Some(rs)
  {
    if |rs| == 1 {
      ItemsLast(rs[0]);
      assert [rs[0]] == rs;
    } else {
      var more := rs[1..];
      assert [rs[0]] + more == rs;
      var tail := ItemsOnto(more, "]");
      assert ParseItems(tail) == Some(more) by { ItemsRoundTrip(more); }
      ItemsStep(rs[0], tail, more);
    }
  }

  /** The last reply object and the closing bracket. */
  lemma ItemsLast(r: Reply)
    ensures ParseItems(ReplyOnto(r, "]")) == Some([r])
  {
    ParseReplyRoundTrip(r, "]");
  }

  /** One reply object, a comma and a list that parses. */
  lemma ItemsStep(r: Reply, tail: string, more: seq<Reply>)
    requires ParseItems(tail) == Some(more)
    ensures ParseItems(ReplyOnto(r, "," + tail)) == Some([r] + more)
  {
    var rest := "," + tail;
    var s := ReplyOnto(r, rest);
    ParseReplyRoundTrip(r, rest);
    assert rest != "]" && rest != [] && rest[0] == ',' by { assert rest[0] != "]"[0]; }
    assert rest[1..] == tail;
    assert ParseItems(s) == Some([r] + more);
  }

  /** Parsing the serialisation of a reply list gives the list back. */
  lemma RoundTrip(rs: seq<Reply>)
    ensures Parse(Serialize(rs)) == Some(rs)
  {
    if rs != [] {
      var s := Serialize(rs);
      assert s[1..] == ItemsOnto(rs, "]");
      assert s != "[]" by {
        assert s[1] == '{';
      }
      ItemsRoundTrip(rs);
    }
  }
}
