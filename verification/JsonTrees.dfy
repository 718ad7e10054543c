/**
 The trees ffprobe's show_... functions walk over, the events they raise on the way, and a
 recursive printer for such trees.  The event driven writer prints what the recursive printer
 prints.
 */
module JsonTrees {
  import opened Common
  import opened Sections
  import opened JsonWriters

  /** What the show_... functions walk over. */
  datatype Node =
    | Sect(sec: Section, kids: seq<Node>)
    | IntItem(key: string, num: int)
    | StrItem(key: string, val: string, optional: bool)

  /** Nesting as the section table has it: no data inside arrays, only objects inside arrays. */
  ghost predicate Nested(parent: Section, t: Node)
    decreases t, 1
  {
    match t
    case Sect(sec, kids) => Fits(parent, sec) && Escape(sec.name) == sec.name && AllNested(sec, kids)
    case _ => !parent.kind.Array?
  }

  ghost predicate AllNested(parent: Section, ts: seq<Node>)
    decreases ts, 0
  {
    ts != [] ==> Nested(parent, ts[0]) && AllNested(parent, ts[1..])
  }

  predicate Displayed(cfg: Config, parent: Section, t: Node) {
    match t
    case Sect(_, _) => true
    case IntItem(key, _) => cfg.shows(parent.id, key)
    case StrItem(key, _, optional) => !optional && cfg.shows(parent.id, key)
  }

  predicate SomeDisplayed(cfg: Config, parent: Section, ts: seq<Node>) {
    ts != [] && (Displayed(cfg, parent, ts[0]) || SomeDisplayed(cfg, parent, ts[1..]))
  }

  // ------------------------------------------------------- events, and the text of a tree

  /** The events of a node, followed by `k`. */
  function Events(t: Node, k: seq<Event>): seq<Event>
    decreases t, 1
  {
    match t
    case IntItem(key, n) => [Int(key, n)] + k
    case StrItem(key, v, optional) => [Str(key, v, optional)] + k
    case Sect(sec, kids) => [Header(sec)] + EventsAll(kids, [Footer] + k)
  }

  function EventsAll(ts: seq<Node>, k: seq<Event>): seq<Event>
    decreases ts, 0
  {
    if ts == [] then k else Events(ts[0], EventsAll(ts[1..], k))
  }

  /** A recursive pretty printer: the text of a node, followed by `k`. */
  function PrintNode(cfg: Config, parent: Section, indent: nat, nb: nat, t: Node, k: string): string
    decreases t, 1
  {
    match t
    case IntItem(key, n) => (if Displayed(cfg, parent, t) then ItemText(cfg, indent, nb, key, Lld(n)) else "") + k
    case StrItem(key, v, _) => (if Displayed(cfg, parent, t) then ItemText(cfg, indent, nb, key, Quoted(v)) else "") + k
    case Sect(sec, kids) =>
      (SectionSep(nb) + OpenText(cfg, Some(parent), indent, sec)) +
      PrintAll(cfg, sec, indent + 1, 0, kids, CloseText(cfg, false, indent + 1, sec) + k)
  }

  function PrintAll(cfg: Config, parent: Section, indent: nat, nb: nat, ts: seq<Node>, k: string): string
    decreases ts, 0
  {
    if ts == [] then k
    else
      var shown := if Displayed(cfg, parent, ts[0]) then 1 else 0;
      PrintNode(cfg, parent, indent, nb, ts[0], PrintAll(cfg, parent, indent, nb + shown, ts[1..], k))
  }

  /** The state after a node has been reported inside the innermost open section. */
  function Past(cfg: Config, s: State, t: Node): State
    requires s.stack != []
  {
    if Displayed(cfg, Top(s).sec, t) then s.(stack := Bump(s.stack)) else s
  }

  function PastAll(cfg: Config, s: State, ts: seq<Node>): (r: State)
    requires s.stack != []
    ensures |r.stack| == |s.stack| && r.stack[..|s.stack| - 1] == s.stack[..|s.stack| - 1]
    ensures r.indent == s.indent && Top(r).sec == Top(s).sec
    decreases |ts|
  {
    if ts == [] then s else PastAll(cfg, Past(cfg, s, ts[0]), ts[1..])
  }

  lemma {:induction false} ItemEvent(cfg: Config, s: State, t: Node, k: seq<Event>)
    requires s.stack != [] && |s.stack| <= s.indent && !t.Sect? && LegalAll(cfg, Past(cfg, s, t), k)
    ensures LegalAll(cfg, s, Events(t, k))
    ensures TextOf(cfg, s, Events(t, k))
         == PrintNode(cfg, Top(s).sec, s.indent, Top(s).nbItem, t, TextOf(cfg, Past(cfg, s, t), k))
  {
    var e := if t.IntItem? then Int(t.key, t.num) else Str(t.key, t.val, t.optional);
    assert Events(t, k) == [e] + k && ([e] + k)[1..] == k;
  }

  lemma {:induction false} FooterEvent(cfg: Config, s: State, s2: State, t: Node, k: seq<Event>)
    requires s.stack != [] && |s.stack| <= s.indent && t.Sect? && LegalAll(cfg, Past(cfg, s, t), k)
    requires s2.stack != [] && s2.stack[..|s2.stack| - 1] == s.stack
    requires s2.indent == s.indent + 1 && Top(s2).sec == t.sec
    ensures LegalAll(cfg, s2, [Footer] + k)
    ensures TextOf(cfg, s2, [Footer] + k)
         == CloseText(cfg, false, s.indent + 1, t.sec) + TextOf(cfg, Past(cfg, s, t), k)
  {
    assert ([Footer] + k)[1..] == k;
    assert Next(cfg, s2, Footer) == Past(cfg, s, t);
  }

  function Inside(s: State, sec: Section): State { State(s.stack + [Level(sec, 0)], s.indent + 1) }

  lemma {:induction false} HeaderEvent(cfg: Config, s: State, sec: Section, rest: seq<Event>)
    requires s.stack != [] && |s.stack| <= s.indent && LegalAll(cfg, Inside(s, sec), rest)
    ensures LegalAll(cfg, s, [Header(sec)] + rest)
    ensures TextOf(cfg, s, [Header(sec)] + rest)
         == (SectionSep(Top(s).nbItem) + OpenText(cfg, Some(Top(s).sec), s.indent, sec)) +
            TextOf(cfg, Inside(s, sec), rest)
  {
    assert ([Header(sec)] + rest)[1..] == rest;
  }

  lemma {:induction false} SectionEvents(cfg: Config, s: State, t: Node, k: seq<Event>, rest: seq<Event>, after: string)
    requires s.stack != [] && |s.stack| <= s.indent && t.Sect? && rest == EventsAll(t.kids, [Footer] + k)
    requires LegalAll(cfg, Inside(s, t.sec), rest)
    requires TextOf(cfg, Inside(s, t.sec), rest)
          == PrintAll(cfg, t.sec, s.indent + 1, 0, t.kids, CloseText(cfg, false, s.indent + 1, t.sec) + after)
    ensures LegalAll(cfg, s, Events(t, k))
    ensures TextOf(cfg, s, Events(t, k)) == PrintNode(cfg, Top(s).sec, s.indent, Top(s).nbItem, t, after)
  {
    HeaderEvent(cfg, s, t.sec, rest);
  }

  /** The event machine prints exactly what the recursive printer prints. */
  lemma {:induction false} MachineIsPrinter(cfg: Config, s: State, t: Node, k: seq<Event>)
    requires s.stack != [] && |s.stack| <= s.indent && LegalAll(cfg, Past(cfg, s, t), k)
    ensures LegalAll(cfg, s, Events(t, k))
    ensures TextOf(cfg, s, Events(t, k))
         == PrintNode(cfg, Top(s).sec, s.indent, Top(s).nbItem, t, TextOf(cfg, Past(cfg, s, t), k))
    decreases t, 1
  {
    if t.Sect? {
      SectionMachine(cfg, s, t, k);
    } else {
      ItemEvent(cfg, s, t, k);
    }
  }

  lemma {:induction false} SectionMachine(cfg: Config, s: State, t: Node, k: seq<Event>)
    requires s.stack != [] && |s.stack| <= s.indent && t.Sect? && LegalAll(cfg, Past(cfg, s, t), k)
    ensures LegalAll(cfg, s, Events(t, k))
    ensures TextOf(cfg, s, Events(t, k))
         == PrintNode(cfg, Top(s).sec, s.indent, Top(s).nbItem, t, TextOf(cfg, Past(cfg, s, t), k))
    decreases t, 0
  {
    hide TextOf, LegalAll, PrintNode, PrintAll, Events, EventsAll;
    var s1 := Inside(s, t.sec);
    var foot, after := [Footer] + k, TextOf(cfg, Past(cfg, s, t), k);
    var rest := EventsAll(t.kids, foot);
    assert LegalAll(cfg, s1, rest) && TextOf(cfg, s1, rest)
        == PrintAll(cfg, t.sec, s.indent + 1, 0, t.kids, CloseText(cfg, false, s.indent + 1, t.sec) + after) by {
      FooterEvent(cfg, s, PastAll(cfg, s1, t.kids), t, k);
      MachineIsPrinterAll(cfg, s1, t.kids, foot);
    }
    SectionEvents(cfg, s, t, k, rest, after);
  }

  lemma {:induction false} MachineIsPrinterAll(cfg: Config, s: State, ts: seq<Node>, k: seq<Event>)
    requires s.stack != [] && |s.stack| <= s.indent && LegalAll(cfg, PastAll(cfg, s, ts), k)
    ensures LegalAll(cfg, s, EventsAll(ts, k))
    ensures TextOf(cfg, s, EventsAll(ts, k))
         == PrintAll(cfg, Top(s).sec, s.indent, Top(s).nbItem, ts, TextOf(cfg, PastAll(cfg, s, ts), k))
    decreases ts, 0
  {
    hide TextOf, LegalAll, PrintNode, Events;
    if ts != [] {
      var s1 := Past(cfg, s, ts[0]);
      MachineIsPrinterAll(cfg, s1, ts[1..], k);
      MachineIsPrinter(cfg, s, ts[0], EventsAll(ts[1..], k));
    }
  }

  // ------------------------------------------------- the tree behind a sequence of events

  /**
   Events that open, fill and close sections as the section table allows, starting inside
   `open` (outermost first) and closing the last of them with the last event.
   */
  ghost predicate WellNested(open: seq<Section>, evs: seq<Event>)
    decreases |evs|
  {
    if evs == [] then open == []
    else
      && open != []
      && var top := open[|open| - 1];
      match evs[0]
      case Header(sec) => Fits(top, sec) && Escape(sec.name) == sec.name && WellNested(open + [sec], evs[1..])
      case Footer => WellNested(open[..|open| - 1], evs[1..])
      case _ => !top.kind.Array? && WellNested(open, evs[1..])
  }

  /** What the events report inside the innermost section, and the events from its footer on. */
  function Siblings(evs: seq<Event>): (r: (seq<Node>, seq<Event>))
    ensures |r.1| <= |evs|
    decreases |evs|
  {
    if evs == [] then ([], evs)
    else
      match evs[0]
      case Footer => ([], evs)
      case Int(key, n) =>
        var (ts, rest) := Siblings(evs[1..]);
        ([IntItem(key, n)] + ts, rest)
      case Str(key, v, optional) =>
        var (ts, rest) := Siblings(evs[1..]);
        ([StrItem(key, v, optional)] + ts, rest)
      case Header(sec) =>
        var (kids, closing) := Siblings(evs[1..]);
        if closing == [] then ([], closing)
        else
          var (ts, rest) := Siblings(closing[1..]);
          ([Sect(sec, kids)] + ts, rest)
  }

  lemma {:induction false} EventsCons(t: Node, ts: seq<Node>, k: seq<Event>)
    ensures EventsAll([t] + ts, k) == Events(t, EventsAll(ts, k))
  {
    assert ([t] + ts)[1..] == ts;
  }

  lemma {:induction false} NestedCons(parent: Section, t: Node, ts: seq<Node>)
    requires Nested(parent, t) && AllNested(parent, ts)
    ensures AllNested(parent, [t] + ts)
  {
    assert ([t] + ts)[1..] == ts;
  }

  /** Well nested events are those of a forest that follows the table, up to a footer. */
  lemma {:induction false} SiblingsCover(open: seq<Section>, evs: seq<Event>)
    requires open != [] && WellNested(open, evs)
    ensures var (ts, rest) := Siblings(evs);
      && evs == EventsAll(ts, rest) && AllNested(open[|open| - 1], ts)
      && rest != [] && rest[0].Footer? && WellNested(open, rest)
    decreases |evs|
  {
    var top := open[|open| - 1];
    match evs[0] {
      case Footer =>
      case Header(sec) =>
        SectionCovers(open, evs);
      case Int(key, n) =>
        SiblingsCover(open, evs[1..]);
        var (ts, rest) := Siblings(evs[1..]);
        EventsCons(IntItem(key, n), ts, rest);
        NestedCons(top, IntItem(key, n), ts);
      case Str(key, v, optional) =>
        SiblingsCover(open, evs[1..]);
        var (ts, rest) := Siblings(evs[1..]);
        EventsCons(StrItem(key, v, optional), ts, rest);
        NestedCons(top, StrItem(key, v, optional), ts);
    }
  }

  lemma {:induction false} SectionCovers(open: seq<Section>, evs: seq<Event>)
    requires open != [] && evs != [] && evs[0].Header? && WellNested(open, evs)
    ensures var (ts, rest) := Siblings(evs);
      && evs == EventsAll(ts, rest) && AllNested(open[|open| - 1], ts)
      && rest != [] && rest[0].Footer? && WellNested(open, rest)
    decreases |evs|, 0
  {
    var sec := evs[0].sec;
    SiblingsCover(open + [sec], evs[1..]);
    var (kids, closing) := Siblings(evs[1..]);
    assert (open + [sec])[..|open|] == open;
    SiblingsCover(open, closing[1..]);
    var (ts, rest) := Siblings(closing[1..]);
    var t := Sect(sec, kids);
    EventsCons(t, ts, rest);
    NestedCons(open[|open| - 1], t, ts);
    assert closing == [Footer] + EventsAll(ts, rest);
    assert evs == [Header(sec)] + evs[1..];
  }
}
