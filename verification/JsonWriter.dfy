/**
 ffprobe's JSON writer.  It never sees a tree: it is told "section opened", "section closed",
 "integer", "string", and decides from a stack of (section, number of items so far) and an
 indent level what to print.
 */
module JsonWriters {
  import opened Common
  import opened Sections

  // --------------------------------------------------------------------------- text pieces

  /** The letter after the backslash for the characters json_escape lists. */
  function Subst(c: char): Option<char> {
    match c
    case '"' => Some('"')
    case '\\' => Some('\\')
    case '\U{0008}' => Some('b')
    case '\U{000C}' => Some('f')
    case '\n' => Some('n')
    case '\r' => Some('r')
    case '\t' => Some('t')
    case _ => None
  }

  function HexDigit(n: nat): char
    requires n < 16
  {
    if n < 10 then (n + '0' as int) as char else (n - 10 + 'a' as int) as char
  }

  function EscapeChar(c: char): string {
    if Subst(c).Some? then ['\\', Subst(c).value]
    else if c < ' ' then ['\\', 'u', '0', '0', HexDigit(c as int / 16), HexDigit(c as int % 16)]
    else [c]
  }

  /** json_escape_str */
  function Escape(s: string): string {
    if s == "" then "" else EscapeChar(s[0]) + Escape(s[1..])
  }

  /** Escaped are the quote, the backslash and control characters, and nothing else; by letter where there is one. */
  lemma EscapeForms(c: char)
    ensures var e := EscapeChar(c);
      && e != "" && (c != '"' && c != '\\' && c >= ' ' <==> e == [c])
      && (e != [c] ==> e[0] == '\\')
      && (c in "\"\\\U{0008}\U{000C}\n\r\t" ==> |e| == 2)
      && (e != [c] && c !in "\"\\\U{0008}\U{000C}\n\r\t" ==> |e| == 6 && e[1] == 'u')
      && (|e| == 6 ==> forall i :: 2 <= i < 6 ==> '0' <= e[i] <= '9' || 'a' <= e[i] <= 'f')
  {
    var listed := "\"\\\U{0008}\U{000C}\n\r\t";
    assert c in listed <==> Subst(c).Some? by {
      assert listed == ['"', '\\', '\U{0008}', '\U{000C}', '\n', '\r', '\t'];
    }
  }

  lemma {:induction false} EscapeSnoc(s: string, c: char)
    ensures Escape(s + [c]) == Escape(s) + EscapeChar(c)
  {
    if s == "" {
      assert s + [c] == [c];
      assert Escape([c][1..]) == "";
    } else {
      assert (s + [c])[1..] == s[1..] + [c];
      EscapeSnoc(s[1..], c);
    }
  }

  method EscapeStr(src: string) returns (dst: string)
    ensures dst == Escape(src)
  {
    dst := "";
    for i := 0 to |src|
      invariant dst == Escape(src[..i])
    {
      EscapeSnoc(src[..i], src[i]);
      assert src[..i + 1] == src[..i] + [src[i]];
      var s := Subst(src[i]);
      if s.Some? {
        dst := dst + ['\\', s.value];
      } else if src[i] < ' ' {
        var n := src[i] as int;
        dst := dst + ['\\', 'u', '0', '0', HexDigit(n / 16), HexDigit(n % 16)];
      } else {
        dst := dst + [src[i]];
      }
    }
    assert src[..|src|] == src;
  }

  function Decimal(n: nat): string {
    if n < 10 then [HexDigit(n)] else Decimal(n / 10) + [HexDigit(n % 10)]
  }

  /** printf("%lld") */
  function Lld(n: int): string { if n < 0 then "-" + Decimal(-n) else Decimal(n) }

  function Spaces(n: nat): string { seq(n, _ => ' ') }

  /** printf("%*c", indent_level * 4, ' '): never less than one blank. */
  function Indent(n: nat): string { if n == 0 then " " else Spaces(4 * n) }

  // ------------------------------------------------------------------------- the event machine

  /** Options of the writer, and the entries selected with -show_entries. */
  datatype Config = Config(compact: bool, shows: (SectionId, string) -> bool)

  datatype Event =
    | Header(sec: Section)
    | Footer
    | Int(key: string, num: int)
    | Str(key: string, val: string, optional: bool)

  datatype Level = Level(sec: Section, nbItem: nat)

  datatype State = State(stack: seq<Level>, indent: nat)

  const START := State([], 0)

  function ItemSep(cfg: Config): string { if cfg.compact then ", " else ",\n" }
  function StartEnd(cfg: Config): string { if cfg.compact then " " else "\n" }
  function Margin(cfg: Config, n: nat): string { if cfg.compact then "" else Indent(n) }

  /** What opening `sec` prints after the separator. */
  function OpenText(cfg: Config, parent: Option<Section>, indent: nat, sec: Section): string {
    if sec.kind.Wrapper? then "{\n"
    else if sec.kind.Array? then Indent(indent) + "\"" + Escape(sec.name) + "\": [\n"
    else if parent.Some? && !parent.value.kind.Array? then
      Indent(indent) + "\"" + Escape(sec.name) + "\": {" + StartEnd(cfg)
    else
      Indent(indent) + "{" + StartEnd(cfg) +
      (if parent.Some? && parent.value.id.PacketsAndFrames?
       then Margin(cfg, indent + 1) + "\"type\": \"" + sec.name + "\"" + ItemSep(cfg) else "")
  }

  /** What closing `sec` prints, at the indent level of its contents. */
  function CloseText(cfg: Config, outermost: bool, indent: nat, sec: Section): string
    requires indent >= 1
  {
    if outermost then "\n}\n"
    else if sec.kind.Array? then "\n" + Indent(indent - 1) + "]"
    else StartEnd(cfg) + Margin(cfg, indent - 1) + "}"
  }

  function SectionSep(nb: nat): string { if nb > 0 then ",\n" else "" }

  function ItemText(cfg: Config, indent: nat, nb: nat, key: string, value: string): string {
    (if nb > 0 then ItemSep(cfg) else "") + Margin(cfg, indent) + "\"" + Escape(key) + "\": " + value
  }

  function Quoted(s: string): string { "\"" + Escape(s) + "\"" }

  function Top(s: State): Level
    requires s.stack != []
  {
    s.stack[|s.stack| - 1]
  }

  /** Events the surrounding code may produce: nothing but a header without an open section. */
  predicate Legal(s: State, e: Event) {
    |s.stack| <= s.indent && (!e.Header? ==> s.stack != [])
  }

  predicate Prints(cfg: Config, s: State, e: Event)
    requires Legal(s, e)
  {
    match e
    case Int(k, _) => cfg.shows(Top(s).sec.id, k)
    case Str(k, _, optional) => !optional && cfg.shows(Top(s).sec.id, k)
    case _ => true
  }

  function Text(cfg: Config, s: State, e: Event): string
    requires Legal(s, e)
  {
    if !Prints(cfg, s, e) then ""
    else
      match e
      case Header(sec) =>
        if s.stack == [] then OpenText(cfg, None, s.indent, sec)
        else SectionSep(Top(s).nbItem) + OpenText(cfg, Some(Top(s).sec), s.indent, sec)
      case Footer => CloseText(cfg, |s.stack| == 1, s.indent, Top(s).sec)
      case Int(k, n) => ItemText(cfg, s.indent, Top(s).nbItem, k, Lld(n))
      case Str(k, v, _) => ItemText(cfg, s.indent, Top(s).nbItem, k, Quoted(v))
  }

  function Bump(stack: seq<Level>): seq<Level> {
    if stack == [] then stack
    else stack[|stack| - 1 := stack[|stack| - 1].(nbItem := stack[|stack| - 1].nbItem + 1)]
  }

  function Next(cfg: Config, s: State, e: Event): State
    requires Legal(s, e)
  {
    match e
    case Header(sec) => State(s.stack + [Level(sec, 0)], s.indent + 1)
    case Footer => State(Bump(s.stack[..|s.stack| - 1]), s.indent - 1)
    case _ => if Prints(cfg, s, e) then s.(stack := Bump(s.stack)) else s
  }

  ghost predicate LegalAll(cfg: Config, s: State, evs: seq<Event>)
    decreases |evs|
  {
    evs != [] ==> Legal(s, evs[0]) && LegalAll(cfg, Next(cfg, s, evs[0]), evs[1..])
  }

  /** Everything a sequence of events prints. */
  ghost function TextOf(cfg: Config, s: State, evs: seq<Event>): string
    requires LegalAll(cfg, s, evs)
    decreases |evs|
  {
    if evs == [] then "" else Text(cfg, s, evs[0]) + TextOf(cfg, Next(cfg, s, evs[0]), evs[1..])
  }

  // ---------------------------------------------------------------------------- the layout

  /** On one line. */
  predicate OneLine(s: string) { '\n' !in s }

  lemma {:induction false} EscapedOnOneLine(s: string)
    ensures OneLine(Escape(s))
  {
    if s != "" {
      EscapedOnOneLine(s[1..]);
    }
  }

  lemma {:induction false} DecimalOnOneLine(n: nat)
    ensures OneLine(Decimal(n))
  {
    if n >= 10 {
      DecimalOnOneLine(n / 10);
    }
  }

  /** Compact: an object's brackets and items stay on the line. */
  lemma {:induction false} CompactKeepsLine(cfg: Config, indent: nat, nb: nat, key: string, val: string, num: int)
    requires cfg.compact
    ensures OneLine(ItemText(cfg, indent, nb, key, Quoted(val))) && OneLine(ItemText(cfg, indent, nb, key, Lld(num)))
  {
    EscapedOnOneLine(key);
    EscapedOnOneLine(val);
    DecimalOnOneLine(if num < 0 then -num else num);
  }

  lemma {:induction false} CompactObjectOnOneLine(cfg: Config, parent: Option<Section>, indent: nat, sec: Section)
    requires cfg.compact && sec.kind.Object? && OneLine(sec.name)
    ensures OneLine(OpenText(cfg, parent, indent, sec)) && OneLine(CloseText(cfg, false, indent + 1, sec))
  {
    EscapedOnOneLine(sec.name);
  }

  /** Indented: every item stands on its own line, four blanks to the level, and so do the brackets around it. */
  lemma {:induction false} IndentedStartsLines(cfg: Config, indent: nat, nb: nat, key: string, value: string,
                                             sec: Section)
    requires !cfg.compact && indent > 0
    ensures var s := ItemText(cfg, indent, nb, key, value);
      var start := (if nb > 0 then ",\n" else "");
      && |start| + 4 * indent < |s| && s[..|start|] == start && s[|start| + 4 * indent] == '"'
      && forall i :: |start| <= i < |start| + 4 * indent ==> s[i] == ' '
    ensures sec.kind.Object? ==>
      var open := OpenText(cfg, None, indent, sec);
      var close := CloseText(cfg, false, indent + 1, sec);
      && |open| == 4 * indent + 2 && open[4 * indent..] == "{\n"
      && |close| == 4 * indent + 2 && close[0] == '\n' && close[|close| - 1] == '}'
  {
    var start := (if nb > 0 then ",\n" else "");
    var s := ItemText(cfg, indent, nb, key, value);
    assert s == start + Spaces(4 * indent) + ("\"" + Escape(key) + "\": " + value);
  }

  // --------------------------------------------------------------------------- the writer

  const SECTION_MAX_NB_LEVELS := 10

  function Zip(secs: seq<Section>, counts: seq<nat>): (r: seq<Level>)
    requires |secs| == |counts|
    ensures |r| == |secs|
  {
    seq(|secs|, i requires 0 <= i < |secs| => Level(secs[i], counts[i]))
  }

  /** WriterContext and JSONContext, with the output collected in `out`. */
  class JsonWriter {
    const cfg: Config
    var level: int
    const nbItem: array<nat>
    const section: array<Section>
    var indentLevel: nat
    var out: string

    ghost predicate Valid()
      reads this
    {
      && nbItem.Length == SECTION_MAX_NB_LEVELS && section.Length == SECTION_MAX_NB_LEVELS
      && -1 <= level < SECTION_MAX_NB_LEVELS
      && level + 1 <= indentLevel
    }

    ghost function View(): (s: State)
      requires Valid()
      reads this, nbItem, section
      ensures |s.stack| == level + 1
    {
      State(Zip(section[..level + 1], nbItem[..level + 1]), indentLevel)
    }

    constructor (cfg: Config)
      ensures Valid() && fresh(nbItem) && fresh(section)
      ensures this.cfg == cfg && View() == START && out == ""
    {
      this.cfg := cfg;
      nbItem := new nat[SECTION_MAX_NB_LEVELS](_ => 0);
      section := new Section[SECTION_MAX_NB_LEVELS](_ => Section(Root, "", Wrapper));
      level, indentLevel, out := -1, 0, "";
    }

    method PushLevel(sec: Section) returns (parent: Option<Section>, nb: nat)
      requires Valid() && level + 1 < SECTION_MAX_NB_LEVELS
      modifies `level, nbItem, section
      ensures -1 <= level < SECTION_MAX_NB_LEVELS && level == old(level) + 1
      ensures Zip(section[..level + 1], nbItem[..level + 1]) == old(View()).stack + [Level(sec, 0)]
      ensures parent == if old(level) < 0 then None else Some(Top(old(View())).sec)
      ensures nb == if old(level) < 0 then 0 else Top(old(View())).nbItem
    {
      ghost var s := View();
      level := level + 1;
      nbItem[level] := 0;
      section[level] := sec;
      parent, nb := None, 0;
      if level > 0 {
        parent, nb := Some(section[level - 1]), nbItem[level - 1];
        assert Top(s) == Level(section[level - 1], nbItem[level - 1]);
      }
      assert Zip(section[..level + 1], nbItem[..level + 1]) == s.stack + [Level(sec, 0)];
    }

    /** The three shapes of an opening: the wrapper, a named array, an object with or without name. */
    method PrintOpening(parent: Option<Section>, sec: Section)
      modifies `out
      ensures out == old(out) + OpenText(cfg, parent, indentLevel, sec)
    {
      if sec.kind.Wrapper? {
        out := out + "{\n";
        return;
      }
      var name := EscapeStr(sec.name);
      var text := Indent(indentLevel);
      if sec.kind.Array? {
        text := text + "\"" + name + "\": [\n";
      } else if parent.Some? && !parent.value.kind.Array? {
        text := text + "\"" + name + "\": {" + StartEnd(cfg);
      } else {
        text := text + "{" + StartEnd(cfg);
        if parent.Some? && parent.value.id.PacketsAndFrames? {
          text := text + (Margin(cfg, indentLevel + 1) + "\"type\": \"" + sec.name + "\"" + ItemSep(cfg));
        }
      }
      out := out + text;
    }

    /** writer_print_section_header: push a level, then call json_print_section_header. */
    method SectionHeader(sec: Section)
      requires Valid() && level + 1 < SECTION_MAX_NB_LEVELS
      modifies this, nbItem, section
      ensures Valid() && View() == Next(cfg, old(View()), Header(sec))
      ensures out == old(out) + Text(cfg, old(View()), Header(sec))
    {
      hide OpenText;
      var parent, nb := PushLevel(sec);
      if nb > 0 {
        out := out + ",\n";
      }
      PrintOpening(parent, sec);
      indentLevel := indentLevel + 1;
    }

    /** writer_print_section_footer followed by json_print_section_footer */
    method SectionFooter()
      requires Valid() && level >= 0
      modifies this, nbItem
      ensures Valid() && View() == Next(cfg, old(View()), Footer)
      ensures out == old(out) + Text(cfg, old(View()), Footer)
    {
      ghost var s := View();
      var sec := section[level];
      if level > 0 {
        nbItem[level - 1] := nbItem[level - 1] + 1;
      }
      indentLevel := indentLevel - 1;
      if level == 0 {
        out := out + "\n}\n";
      } else if sec.kind.Array? {
        out := out + ("\n" + Indent(indentLevel) + "]");
      } else {
        out := out + (StartEnd(cfg) + Margin(cfg, indentLevel) + "}");
      }
      level := level - 1;
      assert View().stack == Bump(s.stack[..|s.stack| - 1]);
    }

    method PrintItem(key: string, value: string)
      requires Valid() && level >= 0
      modifies `out, nbItem
      ensures Valid() && View() == old(View()).(stack := Bump(old(View()).stack))
      ensures out == old(out) + ItemText(cfg, indentLevel, Top(old(View())).nbItem, key, value)
    {
      ghost var s := View();
      var text := "";
      if nbItem[level] > 0 {
        text := ItemSep(cfg);
      }
      var key' := EscapeStr(key);
      text := text + Margin(cfg, indentLevel) + "\"" + key' + "\": " + value;
      out := out + text;
      nbItem[level] := nbItem[level] + 1;
      assert View().stack == Bump(s.stack);
    }

    /** writer_print_integer */
    method PrintInteger(key: string, num: int)
      requires Valid() && level >= 0
      modifies `out, nbItem
      ensures Valid() && View() == Next(cfg, old(View()), Int(key, num))
      ensures out == old(out) + Text(cfg, old(View()), Int(key, num))
    {
      if cfg.shows(section[level].id, key) {
        PrintItem(key, Lld(num));
      }
    }

    /** writer_print_string; the JSON writer does not display optional fields */
    method PrintString(key: string, val: string, optional: bool)
      requires Valid() && level >= 0
      modifies `out, nbItem
      ensures Valid() && View() == Next(cfg, old(View()), Str(key, val, optional))
      ensures out == old(out) + Text(cfg, old(View()), Str(key, val, optional))
    {
      if optional {
        return;
      }
      if cfg.shows(section[level].id, key) {
        var value := EscapeStr(val);
        PrintItem(key, "\"" + value + "\"");
      }
    }
  }
}
