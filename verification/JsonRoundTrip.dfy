/**
 What ffprobe prints as JSON is JSON, and says what it was told: the text of a well nested
 sequence of events parses back to the tree of displayed items.
 */
module JsonRoundTrip {
  import opened Common
  import opened Sections
  import opened JsonText
  import opened JsonWriters
  import opened JsonTrees

  /** Elements of packets_and_frames get a "type" member. */
  predicate Mixed(parent: Section) { parent.kind.Array? && parent.id.PacketsAndFrames? }

  /** Every element of packets_and_frames displays something after its type. */
  predicate Complete(cfg: Config, parent: Section, t: Node)
    decreases t, 1
  {
    t.Sect? ==> (Mixed(parent) ==> SomeDisplayed(cfg, t.sec, t.kids)) && AllComplete(cfg, t.sec, t.kids)
  }

  predicate AllComplete(cfg: Config, parent: Section, ts: seq<Node>)
    decreases ts, 0
  {
    ts != [] ==> Complete(cfg, parent, ts[0]) && AllComplete(cfg, parent, ts[1..])
  }

  // ------------------------------------------------------------- the value that is meant

  function Key(t: Node): string {
    if t.Sect? then t.sec.name else t.key
  }

  function Meaning(cfg: Config, parent: Section, t: Node): Json
    decreases t, 1
  {
    match t
    case IntItem(_, n) => JInt(n)
    case StrItem(_, v, _) => JStr(v)
    case Sect(sec, kids) =>
      if sec.kind.Array? then JArr(Elems(cfg, sec, kids))
      else if Mixed(parent) then JObj([("type", JStr(sec.name))] + Mems(cfg, sec, kids))
      else JObj(Mems(cfg, sec, kids))
  }

  function Mems(cfg: Config, parent: Section, ts: seq<Node>): seq<(string, Json)>
    decreases ts, 0
  {
    if ts == [] then []
    else if Displayed(cfg, parent, ts[0]) then [(Key(ts[0]), Meaning(cfg, parent, ts[0]))] + Mems(cfg, parent, ts[1..])
    else Mems(cfg, parent, ts[1..])
  }

  function Elems(cfg: Config, parent: Section, ts: seq<Node>): seq<Json>
    decreases ts, 0
  {
    if ts == [] then [] else [Meaning(cfg, parent, ts[0])] + Elems(cfg, parent, ts[1..])
  }

  // ---------------------------------------------------------------- reading back the pieces

  lemma {:induction false} HexReads(n: nat)
    requires n < 16
    ensures HexVal(HexDigit(n)) == Some(n)
    ensures n < 10 ==> IsDigit(HexDigit(n)) && HexDigit(n) as int - '0' as int == n
  {
  }

  lemma {:induction false} EscapeCharReads(c: char, rest: string)
    ensures Chars(EscapeChar(c) + rest) == Prepend(c, Chars(rest))
  {
    var s := EscapeChar(c) + rest;
    if Subst(c).Some? {
      assert s[2..] == rest;
    } else if c < ' ' {
      assert s[6..] == rest;
      assert s[2..6] == ['0', '0', HexDigit(c as int / 16), HexDigit(c as int % 16)];
      HexReads(c as int / 16);
      HexReads(c as int % 16);
    } else {
      assert s[1..] == rest;
    }
  }

  /** Any string survives escaping, quoting and reading. */
  lemma {:induction false} EscapeReads(v: string, k: string)
    ensures Chars(Escape(v) + ("\"" + k)) == Ok(v, k)
  {
    if v == "" {
      assert Escape(v) + ("\"" + k) == "\"" + k;
      assert ("\"" + k)[1..] == k;
    } else {
      var rest := Escape(v[1..]) + ("\"" + k);
      assert Escape(v) + ("\"" + k) == EscapeChar(v[0]) + rest;
      EscapeReads(v[1..], k);
      EscapeCharReads(v[0], rest);
      assert [v[0]] + v[1..] == v;
    }
  }

  lemma {:induction false} DecimalNonEmpty(n: nat)
    ensures Decimal(n) != "" && IsDigit(Decimal(n)[0]) && (Decimal(n)[0] == '0' <==> n == 0)
  {
    if n < 10 {
      HexReads(n);
    } else {
      DecimalNonEmpty(n / 10);
    }
  }

  lemma {:induction false} DigitsRead(n: nat, k: string)
    requires n > 0
    ensures Digits(Decimal(n) + k, 0) == Digits(k, n)
  {
    HexReads(n % 10);
    if n < 10 {
      assert (Decimal(n) + k)[1..] == k;
    } else {
      var u := [HexDigit(n % 10)] + k;
      assert Decimal(n) + k == Decimal(n / 10) + u;
      DigitsRead(n / 10, u);
      assert u[1..] == k;
    }
  }

  lemma {:induction false} NaturalReads(n: nat, k: string)
    requires !ContinuesNumber(k)
    ensures Natural(Decimal(n) + k) == Ok(n, k)
  {
    var s := Decimal(n) + k;
    DecimalNonEmpty(n);
    if n == 0 {
      assert s[1..] == k;
    } else {
      DigitsRead(n, k);
      assert Digits(s, 0) == Digits(s[1..], s[0] as int - '0' as int);
      assert Digits(k, n) == Ok(n, k);
    }
  }

  lemma {:induction false} IntReads(n: int, k: string)
    requires !ContinuesNumber(k)
    ensures Value(Lld(n) + k) == Ok(JInt(n), k)
  {
    hide Natural, Decimal;
    var s := Lld(n) + k;
    if n < 0 {
      NaturalReads(-n, k);
      assert s[1..] == Decimal(-n) + k;
      assert SkipWs(s) == s;
    } else {
      NaturalReads(n, k);
      DecimalNonEmpty(n);
      assert SkipWs(s) == s;
    }
  }

  lemma {:induction false} StrReads(v: string, k: string)
    ensures Value(Quoted(v) + k) == Ok(JStr(v), k)
  {
    hide Chars, Escape;
    var s := Quoted(v) + k;
    EscapeReads(v, k);
    assert s[1..] == Escape(v) + ("\"" + k);
    assert SkipWs(s) == s;
  }

  // ------------------------------------------------------------------ layout of the pieces

  /** A member: quoted key, colon, value. */
  function Line(key: string, body: string): string { "\"" + (Escape(key) + ("\"" + (":" + body))) }

  function Cons(key: string, v: Parsed<Json>): Parsed<seq<(string, Json)>> {
    if v.Fail? then Fail
    else
      var m := MemberTail(v.rest);
      if m.Fail? then Fail else Ok([(key, v.value)] + m.value, m.rest)
  }

  lemma {:induction false} LineReads(w: string, key: string, body: string)
    requires AllWs(w)
    ensures Members(w + Line(key, body)) == Cons(key, Value(body))
    ensures MemberTail("," + (w + Line(key, body))) == Cons(key, Value(body))
    ensures ObjectBody(w + Line(key, body)) == Cons(key, Value(body))
  {
    var s := Line(key, body);
    LeadingWsIgnored(w, s);
    assert s[1..] == Escape(key) + ("\"" + (":" + body));
    EscapeReads(key, ":" + body);
    assert (":" + body)[1..] == body;
    assert SkipWs(s) == s;
    assert SkipWs(":" + body) == ":" + body;
    var t := "," + (w + s);
    assert t[1..] == w + s && SkipWs(t) == t;
  }

  /** Value of a member in an object: what follows the colon. */
  function Body(cfg: Config, indent: nat, t: Node, k: string): string {
    match t
    case IntItem(_, n) => " " + (Lld(n) + k)
    case StrItem(_, v, _) => " " + (Quoted(v) + k)
    case Sect(sec, kids) =>
      var inner := PrintAll(cfg, sec, indent + 1, 0, kids, CloseText(cfg, false, indent + 1, sec) + k);
      if sec.kind.Array? then " " + ("[" + ("\n" + inner)) else " " + ("{" + (StartEnd(cfg) + inner))
  }

  lemma {:induction false} IndentWs(cfg: Config, n: nat)
    ensures AllWs(Indent(n)) && AllWs(Margin(cfg, n)) && AllWs(StartEnd(cfg))
  {
  }

  lemma {:induction false} RegroupObject(i: string, e: string, se: string, inner: string)
    ensures (i + "\"" + e + "\": {" + se) + inner == i + ("\"" + (e + ("\"" + (":" + (" " + ("{" + (se + inner)))))))
  {
  }

  lemma {:induction false} RegroupArray(i: string, e: string, inner: string)
    ensures (i + "\"" + e + "\": [\n") + inner == i + ("\"" + (e + ("\"" + (":" + (" " + ("[" + ("\n" + inner)))))))
  {
  }

  lemma {:induction false} RegroupItem(sep: string, m: string, e: string, v: string, k: string)
    ensures (sep + m + "\"" + e + "\": " + v) + k == sep + (m + ("\"" + (e + ("\"" + (":" + (" " + (v + k)))))))
  {
  }

  lemma {:induction false} RegroupElement(i: string, m: string, name: string, sep: string, se: string, inner: string)
    ensures (i + "{" + se + "") + inner == i + ("{" + (se + inner))
    ensures (i + "{" + se + (m + "\"type\": \"" + name + "\"" + sep)) + inner
         == i + ("{" + (se + (m + ("\"" + ("type" + ("\"" + (":" + (" " + (("\"" + name + "\"") + (sep + inner))))))))))
  {
    var tail := ("\"" + name + "\"") + (sep + inner);
    assert (m + "\"type\": \"" + name + "\"" + sep) + inner == m + ("\"" + ("type" + ("\"" + (":" + (" " + tail)))));
  }

  lemma {:induction false} WithSeparator(sep: string, w: string, rest: string, nb: nat) returns (w': string)
    requires AllWs(w) && (if nb > 0 then sep != "" && sep[0] == ',' && AllWs(sep[1..]) else sep == "")
    ensures AllWs(w') && sep + (w + rest) == (if nb > 0 then "," + (w' + rest) else w' + rest)
  {
    w' := if nb > 0 then sep[1..] + w else w;
    assert sep + (w + rest) == if nb > 0 then "," + (w' + rest) else w' + rest;
  }

  /** An entry of an object: separator, white space, member. */
  lemma {:induction false} SectionEntryLayout(cfg: Config, parent: Section, indent: nat, nb: nat, t: Node, k: string)
    returns (w: string)
    requires Nested(parent, t) && !parent.kind.Array? && t.Sect?
    ensures AllWs(w)
    ensures PrintNode(cfg, parent, indent, nb, t, k)
         == (if nb > 0 then "," + (w + Line(Key(t), Body(cfg, indent, t, k)))
             else w + Line(Key(t), Body(cfg, indent, t, k)))
  {
    IndentWs(cfg, indent);
    var i, e := Indent(indent), Escape(t.sec.name);
    var inner := PrintAll(cfg, t.sec, indent + 1, 0, t.kids, CloseText(cfg, false, indent + 1, t.sec) + k);
    var line := Line(Key(t), Body(cfg, indent, t, k));
    RegroupArray(i, e, inner);
    RegroupObject(i, e, StartEnd(cfg), inner);
    var open := OpenText(cfg, Some(parent), indent, t.sec);
    assert open + inner == i + line;
    assert (SectionSep(nb) + open) + inner == SectionSep(nb) + (open + inner);
    w := WithSeparator(SectionSep(nb), i, line, nb);
  }

  lemma {:induction false} EntryLayout(cfg: Config, parent: Section, indent: nat, nb: nat, t: Node, k: string)
    returns (w: string)
    requires Nested(parent, t) && !parent.kind.Array? && Displayed(cfg, parent, t)
    ensures AllWs(w)
    ensures PrintNode(cfg, parent, indent, nb, t, k)
         == (if nb > 0 then "," + (w + Line(Key(t), Body(cfg, indent, t, k)))
             else w + Line(Key(t), Body(cfg, indent, t, k)))
  {
    if t.Sect? {
      w := SectionEntryLayout(cfg, parent, indent, nb, t, k);
    } else {
      IndentWs(cfg, indent);
      var value := if t.IntItem? then Lld(t.num) else Quoted(t.val);
      var sep := if nb > 0 then ItemSep(cfg) else "";
      RegroupItem(sep, Margin(cfg, indent), Escape(Key(t)), value, k);
      w := WithSeparator(sep, Margin(cfg, indent), Line(Key(t), " " + (value + k)), nb);
    }
  }

  /** An element of an array, without the blanks before it. */
  function ElementText(cfg: Config, parent: Section, indent: nat, t: Node, k: string): string
    requires t.Sect?
  {
    var inner := PrintAll(cfg, t.sec, indent + 1, 0, t.kids, CloseText(cfg, false, indent + 1, t.sec) + k);
    "{" + (StartEnd(cfg) +
      (if Mixed(parent)
       then Margin(cfg, indent + 1) + Line("type", " " + (Quoted(t.sec.name) + (ItemSep(cfg) + inner)))
       else inner))
  }

  lemma {:induction false} TypeIsPlain()
    ensures Escape("type") == "type"
  {
    assert "type"[1..] == "ype" && "ype"[1..] == "pe" && "pe"[1..] == "e";
    assert Escape("e"[1..]) == "";
    assert Escape("e") == "e";
    assert Escape("pe") == "pe";
    assert Escape("ype") == "ype";
  }

  lemma {:induction false} ElementOpening(cfg: Config, parent: Section, indent: nat, t: Node, k: string)
    requires Nested(parent, t) && parent.kind.Array?
    ensures t.Sect? && OpenText(cfg, Some(parent), indent, t.sec) +
      PrintAll(cfg, t.sec, indent + 1, 0, t.kids, CloseText(cfg, false, indent + 1, t.sec) + k)
      == Indent(indent) + ElementText(cfg, parent, indent, t, k)
  {
    TypeIsPlain();
    var inner := PrintAll(cfg, t.sec, indent + 1, 0, t.kids, CloseText(cfg, false, indent + 1, t.sec) + k);
    RegroupElement(Indent(indent), Margin(cfg, indent + 1), t.sec.name, ItemSep(cfg), StartEnd(cfg), inner);
  }

  lemma {:induction false} ElementLayout(cfg: Config, parent: Section, indent: nat, nb: nat, t: Node, k: string)
    returns (w: string)
    requires Nested(parent, t) && parent.kind.Array?
    ensures AllWs(w) && t.Sect?
    ensures PrintNode(cfg, parent, indent, nb, t, k)
         == (if nb > 0 then "," + (w + ElementText(cfg, parent, indent, t, k))
             else w + ElementText(cfg, parent, indent, t, k))
  {
    IndentWs(cfg, indent);
    ElementOpening(cfg, parent, indent, t, k);
    var open := OpenText(cfg, Some(parent), indent, t.sec);
    var inner := PrintAll(cfg, t.sec, indent + 1, 0, t.kids, CloseText(cfg, false, indent + 1, t.sec) + k);
    assert (SectionSep(nb) + open) + inner == SectionSep(nb) + (open + inner);
    w := WithSeparator(SectionSep(nb), Indent(indent), ElementText(cfg, parent, indent, t, k), nb);
  }

  lemma {:induction false} CloseReads(cfg: Config, indent: nat, sec: Section, k: string)
    requires indent >= 1
    ensures var c := CloseText(cfg, false, indent, sec) + k;
      && !ContinuesNumber(c)
      && (sec.kind.Array? ==> ElementTail(c) == Ok([], k) && ArrayBody(c) == Ok([], k))
      && (!sec.kind.Array? ==> MemberTail(c) == Ok([], k) && ObjectBody(c) == Ok([], k) && Members(c) == Fail)
  {
    IndentWs(cfg, indent - 1);
    var w := if sec.kind.Array? then "\n" + Indent(indent - 1) else StartEnd(cfg) + Margin(cfg, indent - 1);
    var close := (if sec.kind.Array? then "]" else "}") + k;
    assert CloseText(cfg, false, indent, sec) + k == w + close;
    LeadingWsIgnored(w, close);
    assert SkipWs(close) == close && close[1..] == k;
  }

  // ---------------------------------------------------------------------- the whole tree

  function Want<T>(good: bool, value: T, rest: string): Parsed<T> { if good then Ok(value, rest) else Fail }

  lemma {:induction false} BraceReads(w: string, x: string)
    requires AllWs(w)
    ensures Value("{" + (w + x)) == (var m := ObjectBody(x); if m.Fail? then Fail else Ok(JObj(m.value), m.rest))
    ensures Value(" " + ("{" + (w + x))) == Value("{" + (w + x))
  {
    var s := "{" + (w + x);
    LeadingWsIgnored(w, x);
    LeadingWsIgnored(" ", s);
    assert s[1..] == w + x && SkipWs(s) == s;
  }

  lemma {:induction false} BracketReads(w: string, x: string)
    requires AllWs(w)
    ensures Value("[" + (w + x)) == (var e := ArrayBody(x); if e.Fail? then Fail else Ok(JArr(e.value), e.rest))
    ensures Value(" " + ("[" + (w + x))) == Value("[" + (w + x))
  {
    var s := "[" + (w + x);
    LeadingWsIgnored(w, x);
    LeadingWsIgnored(" ", s);
    assert s[1..] == w + x && SkipWs(s) == s;
  }

  function Contents(cfg: Config, indent: nat, t: Node, k: string): string
    requires t.Sect?
  {
    PrintAll(cfg, t.sec, indent + 1, 0, t.kids, CloseText(cfg, false, indent + 1, t.sec) + k)
  }

  /** The value of a member of an object. */
  lemma {:induction false} BodyReads(cfg: Config, parent: Section, indent: nat, t: Node, k: string)
    requires Nested(parent, t) && !parent.kind.Array? && !ContinuesNumber(k)
    ensures Value(Body(cfg, indent, t, k)) == Want(Complete(cfg, parent, t), Meaning(cfg, parent, t), k)
    decreases t, 2
  {
    if t.Sect? {
      SectionReads(cfg, parent, indent, t, k);
    } else if t.IntItem? {
      LeadingWsIgnored(" ", Lld(t.num) + k);
      IntReads(t.num, k);
    } else {
      LeadingWsIgnored(" ", Quoted(t.val) + k);
      StrReads(t.val, k);
    }
  }

  lemma {:induction false} SectionReads(cfg: Config, parent: Section, indent: nat, t: Node, k: string)
    requires Nested(parent, t) && !parent.kind.Array? && t.Sect?
    ensures Value(Body(cfg, indent, t, k)) == Want(Complete(cfg, parent, t), Meaning(cfg, parent, t), k)
    decreases t, 1
  {
    hide PrintAll, CloseText, Value, ObjectBody, ArrayBody;
    var inner := Contents(cfg, indent, t, k);
    var c := CloseText(cfg, false, indent + 1, t.sec) + k;
    CloseReads(cfg, indent + 1, t.sec, k);
    IndentWs(cfg, 0);
    if t.sec.kind.Array? {
      ElementsRead(cfg, t.sec, indent + 1, t.kids, c, k);
      BracketReads("\n", inner);
    } else {
      assert ObjectBody(inner) == Want(AllComplete(cfg, t.sec, t.kids), Mems(cfg, t.sec, t.kids), k) by {
        ObjectReads(cfg, t.sec, indent + 1, t.kids, c, k);
      }
      BraceReads(StartEnd(cfg), inner);
    }
  }

  /** The contents of an object, from the first member on. */
  lemma {:induction false} ObjectReads(cfg: Config, parent: Section, indent: nat, ts: seq<Node>, c: string,
                                       rest: string)
    requires AllNested(parent, ts) && !parent.kind.Array?
    requires MemberTail(c) == Ok([], rest) && ObjectBody(c) == Ok([], rest) && !ContinuesNumber(c)
    ensures ObjectBody(PrintAll(cfg, parent, indent, 0, ts, c))
         == Want(AllComplete(cfg, parent, ts), Mems(cfg, parent, ts), rest)
    ensures if SomeDisplayed(cfg, parent, ts)
      then Members(PrintAll(cfg, parent, indent, 0, ts, c))
        == Want(AllComplete(cfg, parent, ts), Mems(cfg, parent, ts), rest)
      else PrintAll(cfg, parent, indent, 0, ts, c) == c && AllComplete(cfg, parent, ts) && Mems(cfg, parent, ts) == []
    decreases ts, 0
  {
    if ts != [] {
      if Displayed(cfg, parent, ts[0]) {
        var k := PrintAll(cfg, parent, indent, 1, ts[1..], c);
        var w := EntryLayout(cfg, parent, indent, 0, ts[0], k);
        TailReads(cfg, parent, indent, 1, ts[1..], c, rest);
        BodyReads(cfg, parent, indent, ts[0], k);
        LineReads(w, Key(ts[0]), Body(cfg, indent, ts[0], k));
      } else {
        assert PrintAll(cfg, parent, indent, 0, ts, c) == PrintAll(cfg, parent, indent, 0, ts[1..], c);
        ObjectReads(cfg, parent, indent, ts[1..], c, rest);
      }
    }
  }

  /** The contents of an object after at least one member. */
  lemma {:induction false} TailReads(cfg: Config, parent: Section, indent: nat, nb: nat, ts: seq<Node>, c: string,
                                     rest: string)
    requires nb > 0 && AllNested(parent, ts) && !parent.kind.Array?
    requires MemberTail(c) == Ok([], rest) && !ContinuesNumber(c)
    ensures !ContinuesNumber(PrintAll(cfg, parent, indent, nb, ts, c))
    ensures MemberTail(PrintAll(cfg, parent, indent, nb, ts, c))
         == Want(AllComplete(cfg, parent, ts), Mems(cfg, parent, ts), rest)
    decreases ts, 0
  {
    if ts != [] {
      if Displayed(cfg, parent, ts[0]) {
        var k := PrintAll(cfg, parent, indent, nb + 1, ts[1..], c);
        var w := EntryLayout(cfg, parent, indent, nb, ts[0], k);
        TailReads(cfg, parent, indent, nb + 1, ts[1..], c, rest);
        BodyReads(cfg, parent, indent, ts[0], k);
        LineReads(w, Key(ts[0]), Body(cfg, indent, ts[0], k));
      } else {
        assert PrintAll(cfg, parent, indent, nb, ts, c) == PrintAll(cfg, parent, indent, nb, ts[1..], c);
        TailReads(cfg, parent, indent, nb, ts[1..], c, rest);
      }
    }
  }

  lemma {:induction false} SpacedStringReads(s: string, rest: string)
    ensures Value(" " + (Quoted(s) + rest)) == Ok(JStr(s), rest)
  {
    hide Chars, Escape;
    LeadingWsIgnored(" ", Quoted(s) + rest);
    StrReads(s, rest);
  }

  lemma {:induction false} TypeReads(cfg: Config, name: string, inner: string)
    ensures var m := Members(inner);
      Cons("type", Value(" " + (Quoted(name) + (ItemSep(cfg) + inner))))
      == if m.Fail? then Fail else Ok([("type", JStr(name))] + m.value, m.rest)
  {
    hide Chars, Escape, Value, Quoted;
    var after := ItemSep(cfg) + inner;
    SpacedStringReads(name, after);
    var w := ItemSep(cfg)[1..];
    LeadingWsIgnored(w, inner);
    assert after[1..] == w + inner;
    assert SkipWs(after) == after;
  }

  lemma {:induction false} MixedElementReads(cfg: Config, indent: nat, name: string, inner: string)
    ensures var m := Members(inner);
      Value("{" + (StartEnd(cfg) +
                   (Margin(cfg, indent + 1) + Line("type", " " + (Quoted(name) + (ItemSep(cfg) + inner))))))
      == if m.Fail? then Fail else Ok(JObj([("type", JStr(name))] + m.value), m.rest)
  {
    var body := " " + (Quoted(name) + (ItemSep(cfg) + inner));
    IndentWs(cfg, indent + 1);
    TypeReads(cfg, name, inner);
    LineReads(Margin(cfg, indent + 1), "type", body);
    BraceReads(StartEnd(cfg), Margin(cfg, indent + 1) + Line("type", body));
  }

  lemma {:induction false} ElementFromContents(cfg: Config, parent: Section, indent: nat, t: Node, k: string)
    requires parent.kind.Array? && t.Sect? && !t.sec.kind.Array?
    requires ObjectBody(Contents(cfg, indent, t, k))
          == Want(AllComplete(cfg, t.sec, t.kids), Mems(cfg, t.sec, t.kids), k)
    requires Members(Contents(cfg, indent, t, k))
          == Want(SomeDisplayed(cfg, t.sec, t.kids) && AllComplete(cfg, t.sec, t.kids), Mems(cfg, t.sec, t.kids), k)
    ensures Value(ElementText(cfg, parent, indent, t, k)) == Want(Complete(cfg, parent, t), Meaning(cfg, parent, t), k)
  {
    var inner := Contents(cfg, indent, t, k);
    if Mixed(parent) {
      MixedElementReads(cfg, indent, t.sec.name, inner);
    } else {
      IndentWs(cfg, indent + 1);
      BraceReads(StartEnd(cfg), inner);
    }
  }

  /** One element of an array. */
  lemma {:induction false} ElementReads(cfg: Config, parent: Section, indent: nat, t: Node, k: string)
    requires Nested(parent, t) && parent.kind.Array? && t.Sect?
    ensures Value(ElementText(cfg, parent, indent, t, k)) == Want(Complete(cfg, parent, t), Meaning(cfg, parent, t), k)
    decreases t, 1
  {
    var inner := Contents(cfg, indent, t, k);
    var good, mems := AllComplete(cfg, t.sec, t.kids), Mems(cfg, t.sec, t.kids);
    assert ObjectBody(inner) == Want(good, mems, k) &&
           Members(inner) == Want(SomeDisplayed(cfg, t.sec, t.kids) && good, mems, k) by {
      CloseReads(cfg, indent + 1, t.sec, k);
      ObjectReads(cfg, t.sec, indent + 1, t.kids, CloseText(cfg, false, indent + 1, t.sec) + k, k);
    }
    ElementFromContents(cfg, parent, indent, t, k);
  }

  lemma {:induction false} ElementsRead(cfg: Config, parent: Section, indent: nat, ts: seq<Node>, c: string,
                                        rest: string)
    requires AllNested(parent, ts) && parent.kind.Array?
    requires ElementTail(c) == Ok([], rest) && ArrayBody(c) == Ok([], rest)
    ensures ArrayBody(PrintAll(cfg, parent, indent, 0, ts, c))
         == Want(AllComplete(cfg, parent, ts), Elems(cfg, parent, ts), rest)
    decreases ts, 0
  {
    if ts != [] {
      var k := PrintAll(cfg, parent, indent, 1, ts[1..], c);
      var w := ElementLayout(cfg, parent, indent, 0, ts[0], k);
      ElementsTailRead(cfg, parent, indent, 1, ts[1..], c, rest);
      ElementReads(cfg, parent, indent, ts[0], k);
      var s := ElementText(cfg, parent, indent, ts[0], k);
      LeadingWsIgnored(w, s);
      assert SkipWs(s) == s;
    }
  }

  lemma {:induction false} ElementsTailRead(cfg: Config, parent: Section, indent: nat, nb: nat, ts: seq<Node>,
                                            c: string, rest: string)
    requires nb > 0 && AllNested(parent, ts) && parent.kind.Array? && ElementTail(c) == Ok([], rest)
    ensures ElementTail(PrintAll(cfg, parent, indent, nb, ts, c))
         == Want(AllComplete(cfg, parent, ts), Elems(cfg, parent, ts), rest)
    decreases ts, 0
  {
    if ts != [] {
      var k := PrintAll(cfg, parent, indent, nb + 1, ts[1..], c);
      var w := ElementLayout(cfg, parent, indent, nb, ts[0], k);
      ElementsTailRead(cfg, parent, indent, nb + 1, ts[1..], c, rest);
      ElementReads(cfg, parent, indent, ts[0], k);
      var s := ElementText(cfg, parent, indent, ts[0], k);
      LeadingWsIgnored(w, s);
      var u := "," + (w + s);
      assert u[1..] == w + s && SkipWs(u) == u;
    }
  }

  /** An item is shown under its key with its value, unless it is optional or its entry is not selected. */
  lemma {:induction false} ItemsMeant(cfg: Config, parent: Section, key: string, num: int, val: string, optional: bool)
    ensures Mems(cfg, parent, [IntItem(key, num)]) == if cfg.shows(parent.id, key) then [(key, JInt(num))] else []
    ensures Mems(cfg, parent, [StrItem(key, val, optional)])
         == if !optional && cfg.shows(parent.id, key) then [(key, JStr(val))] else []
  {
    assert [IntItem(key, num)][1..] == [] && [StrItem(key, val, optional)][1..] == [];
  }

  // ------------------------------------------------------------------------ main theorems

  /** The events of a whole document: the wrapper around everything. */
  function DocumentEvents(root: Section, kids: seq<Node>): seq<Event> {
    [Header(root)] + EventsAll(kids, [Footer])
  }

  lemma {:induction false} DocumentText(cfg: Config, root: Section, kids: seq<Node>)
    requires root.kind.Wrapper?
    ensures LegalAll(cfg, START, DocumentEvents(root, kids))
    ensures TextOf(cfg, START, DocumentEvents(root, kids)) == "{\n" + PrintAll(cfg, root, 1, 0, kids, "\n}\n")
  {
    var s1 := State([Level(root, 0)], 1);
    var s2 := PastAll(cfg, s1, kids);
    assert [Footer][1..] == [];
    assert LegalAll(cfg, Next(cfg, s2, Footer), []);
    assert LegalAll(cfg, s2, [Footer]) && TextOf(cfg, s2, [Footer]) == "\n}\n";
    MachineIsPrinterAll(cfg, s1, kids, [Footer]);
    var evs := EventsAll(kids, [Footer]);
    assert ([Header(root)] + evs)[1..] == evs;
    assert Next(cfg, START, Header(root)) == s1;
  }

  lemma {:induction false} FinalBrace()
    ensures MemberTail("\n}\n") == Ok([], "\n") && ObjectBody("\n}\n") == Ok([], "\n") && SkipWs("\n") == ""
  {
    var close := "}\n";
    assert "\n" + close == "\n}\n";
    LeadingWsIgnored("\n", close);
    assert close[1..] == "\n" && SkipWs(close) == close;
    assert "\n"[1..] == "";
  }

  /**
   The text of a well nested event sequence parses back to exactly the tree of displayed
   items, in both layouts, if and only if every element of packets_and_frames displays
   something; otherwise it is not JSON at all (a comma stays behind "type").
   */
  lemma {:induction false} RoundTripExactly(cfg: Config, root: Section, kids: seq<Node>)
    requires root.kind.Wrapper? && AllNested(root, kids)
    ensures LegalAll(cfg, START, DocumentEvents(root, kids))
    ensures Document(TextOf(cfg, START, DocumentEvents(root, kids)))
         == if AllComplete(cfg, root, kids) then Some(JObj(Mems(cfg, root, kids))) else None
  {
    hide PrintAll, TextOf, LegalAll, Value, ObjectBody, MemberTail;
    DocumentText(cfg, root, kids);
    var text := PrintAll(cfg, root, 1, 0, kids, "\n}\n");
    FinalBrace();
    ObjectReads(cfg, root, 1, kids, "\n}\n", "\n");
    BraceReads("\n", text);
    assert "{\n" + text == "{" + ("\n" + text);
  }

  /** The events from the header of a wrapper to its footer, well nested in between. */
  ghost predicate IsDocument(evs: seq<Event>) {
    evs != [] && evs[0].Header? && evs[0].sec.kind.Wrapper? && WellNested([evs[0].sec], evs[1..])
  }

  /** Every such sequence is that of a tree, so its text parses back to the displayed items of that tree. */
  lemma {:induction false} EventsRoundTrip(cfg: Config, evs: seq<Event>)
    requires IsDocument(evs)
    ensures var root, kids := evs[0].sec, Siblings(evs[1..]).0;
      && evs == DocumentEvents(root, kids) && AllNested(root, kids) && LegalAll(cfg, START, evs)
      && Document(TextOf(cfg, START, evs))
         == if AllComplete(cfg, root, kids) then Some(JObj(Mems(cfg, root, kids))) else None
  {
    hide AllComplete, Mems, Document, TextOf, LegalAll;
    var root := evs[0].sec;
    SiblingsCover([root], evs[1..]);
    var (kids, rest) := Siblings(evs[1..]);
    assert WellNested([root][..0], rest[1..]);
    assert rest == [Footer];
    RoundTripExactly(cfg, root, kids);
  }
}
