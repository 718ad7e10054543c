/**
 JSON text as RFC 8259 defines it (sections 2 to 7), read by a recursive descent parser.
 Numbers are restricted to integers; a \u escape of a surrogate is refused.
 */
module JsonText {
  import opened Common

  datatype Json =
    | JInt(n: int)
    | JStr(s: string)
    | JArr(elements: seq<Json>)
    | JObj(members: seq<(string, Json)>)   // in order, duplicates kept

  datatype Parsed<+T> = Fail | Ok(value: T, rest: string)

  predicate IsWs(c: char) { c == ' ' || c == '\n' || c == '\r' || c == '\t' }

  function SkipWs(s: string): (r: string)
    ensures |r| <= |s|
    ensures r != "" ==> !IsWs(r[0])
  {
    if s != "" && IsWs(s[0]) then SkipWs(s[1..]) else s
  }

  function HexVal(c: char): Option<nat> {
    if '0' <= c <= '9' then Some(c as int - '0' as int)
    else if 'a' <= c <= 'f' then Some(c as int - 'a' as int + 10)
    else if 'A' <= c <= 'F' then Some(c as int - 'A' as int + 10)
    else None
  }

  /** The character of a \u escape, given the four characters after the u. */
  function HexChar(s: string): Option<char>
    requires |s| == 4
  {
    var a, b, c, d := HexVal(s[0]), HexVal(s[1]), HexVal(s[2]), HexVal(s[3]);
    if a.None? || b.None? || c.None? || d.None? then None
    else
      var n := ((a.value * 16 + b.value) * 16 + c.value) * 16 + d.value;
      if n < 0xD800 || 0xE000 <= n < 0x10000 then Some(n as char) else None
  }

  function SimpleEscape(c: char): Option<char> {
    match c
    case '"' => Some('"')
    case '\\' => Some('\\')
    case '/' => Some('/')
    case 'b' => Some('\U{0008}')
    case 'f' => Some('\U{000C}')
    case 'n' => Some('\n')
    case 'r' => Some('\r')
    case 't' => Some('\t')
    case _ => None
  }

  function Prepend(c: char, p: Parsed<string>): Parsed<string> {
    if p.Fail? then Fail else Ok([c] + p.value, p.rest)
  }

  /** The characters of a string up to and including the closing quote. */
  function Chars(s: string): (r: Parsed<string>)
    ensures r.Ok? ==> |r.rest| < |s|
  {
    if s == "" then Fail
    else if s[0] == '"' then Ok("", s[1..])
    else if s[0] == '\\' then
      if |s| < 2 then Fail
      else if s[1] == 'u' then
        if |s| < 6 || HexChar(s[2..6]).None? then Fail
        else Prepend(HexChar(s[2..6]).value, Chars(s[6..]))
      else if SimpleEscape(s[1]).None? then Fail
      else Prepend(SimpleEscape(s[1]).value, Chars(s[2..]))
    else if s[0] < ' ' then Fail
    else Prepend(s[0], Chars(s[1..]))
  }

  predicate IsDigit(c: char) { '0' <= c <= '9' }

  function Digits(s: string, acc: nat): (r: Parsed<nat>)
    ensures r.Ok? && |r.rest| <= |s|
  {
    if s != "" && IsDigit(s[0]) then Digits(s[1..], acc * 10 + (s[0] as int - '0' as int)) else Ok(acc, s)
  }

  predicate ContinuesNumber(s: string) {
    s != "" && (IsDigit(s[0]) || s[0] == '.' || s[0] == 'e' || s[0] == 'E')
  }

  /** An integer without leading zeros and without fraction or exponent. */
  function Natural(s: string): (r: Parsed<nat>)
    ensures r.Ok? ==> |r.rest| < |s|
  {
    if s == "" || !IsDigit(s[0]) then Fail
    else
      var d := if s[0] == '0' then Ok(0, s[1..]) else Digits(s[1..], s[0] as int - '0' as int);
      if ContinuesNumber(d.rest) then Fail else d
  }

  function Number(s: string): (r: Parsed<Json>)
    ensures r.Ok? ==> |r.rest| < |s|
  {
    if s != "" && s[0] == '-' then
      var d := Natural(s[1..]);
      if d.Fail? then Fail else Ok(JInt(0 - d.value), d.rest)
    else
      var d := Natural(s);
      if d.Fail? then Fail else Ok(JInt(d.value), d.rest)
  }

  function Value(s: string): (r: Parsed<Json>)
    ensures r.Ok? ==> |r.rest| < |s|
    decreases |s|, 0
  {
    var t := SkipWs(s);
    if t == "" then Fail
    else if t[0] == '{' then
      var m := ObjectBody(t[1..]);
      if m.Fail? then Fail else Ok(JObj(m.value), m.rest)
    else if t[0] == '[' then
      var e := ArrayBody(t[1..]);
      if e.Fail? then Fail else Ok(JArr(e.value), e.rest)
    else if t[0] == '"' then
      var c := Chars(t[1..]);
      if c.Fail? then Fail else Ok(JStr(c.value), c.rest)
    else Number(t)
  }

  /** What follows the opening brace. */
  function ObjectBody(s: string): (r: Parsed<seq<(string, Json)>>)
    ensures r.Ok? ==> |r.rest| < |s|
    decreases |s|, 2
  {
    var t := SkipWs(s);
    if t != "" && t[0] == '}' then Ok([], t[1..]) else Members(s)
  }

  /** One member, then the rest of the object. */
  function Members(s: string): (r: Parsed<seq<(string, Json)>>)
    ensures r.Ok? ==> |r.rest| < |s|
    decreases |s|, 1
  {
    var t := SkipWs(s);
    if t == "" || t[0] != '"' then Fail
    else
      var k := Chars(t[1..]);
      if k.Fail? then Fail
      else
        var u := SkipWs(k.rest);
        if u == "" || u[0] != ':' then Fail
        else
          var v := Value(u[1..]);
          if v.Fail? then Fail
          else
            var m := MemberTail(v.rest);
            if m.Fail? then Fail else Ok([(k.value, v.value)] + m.value, m.rest)
  }

  /** A comma and more members, or the closing brace. */
  function MemberTail(s: string): (r: Parsed<seq<(string, Json)>>)
    ensures r.Ok? ==> |r.rest| < |s|
    decreases |s|, 2
  {
    var t := SkipWs(s);
    if t == "" then Fail
    else if t[0] == ',' then Members(t[1..])
    else if t[0] == '}' then Ok([], t[1..])
    else Fail
  }

  function ArrayBody(s: string): (r: Parsed<seq<Json>>)
    ensures r.Ok? ==> |r.rest| < |s|
    decreases |s|, 2
  {
    var t := SkipWs(s);
    if t != "" && t[0] == ']' then Ok([], t[1..]) else Elements(s)
  }

  function Elements(s: string): (r: Parsed<seq<Json>>)
    ensures r.Ok? ==> |r.rest| < |s|
    decreases |s|, 1
  {
    var v := Value(s);
    if v.Fail? then Fail
    else
      var e := ElementTail(v.rest);
      if e.Fail? then Fail else Ok([v.value] + e.value, e.rest)
  }

  function ElementTail(s: string): (r: Parsed<seq<Json>>)
    ensures r.Ok? ==> |r.rest| < |s|
    decreases |s|, 2
  {
    var t := SkipWs(s);
    if t == "" then Fail
    else if t[0] == ',' then Elements(t[1..])
    else if t[0] == ']' then Ok([], t[1..])
    else Fail
  }

  /** A JSON text: one value, white space around it, nothing else. */
  function Document(s: string): Option<Json> {
    var v := Value(s);
    if v.Ok? && SkipWs(v.rest) == "" then Some(v.value) else None
  }

  // ------------------------------------------------------------- white space does not matter

  predicate AllWs(w: string) { forall i :: 0 <= i < |w| ==> IsWs(w[i]) }

  lemma {:induction false} SkipWsPrefix(w: string, s: string)
    requires AllWs(w)
    ensures SkipWs(w + s) == SkipWs(s)
  {
    if w == "" {
      assert w + s == s;
    } else {
      assert (w + s)[1..] == w[1..] + s;
      SkipWsPrefix(w[1..], s);
    }
  }

  lemma {:induction false} LeadingWsIgnored(w: string, s: string)
    requires AllWs(w)
    ensures Value(w + s) == Value(s) && Members(w + s) == Members(s) && MemberTail(w + s) == MemberTail(s)
    ensures ElementTail(w + s) == ElementTail(s) && Elements(w + s) == Elements(s)
    ensures ObjectBody(w + s) == ObjectBody(s) && ArrayBody(w + s) == ArrayBody(s)
  {
    SkipWsPrefix(w, s);
  }
}
