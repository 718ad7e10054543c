/** The JSON round trip for everything ffprobe can be asked to show, by way of its section table. */
module JsonTable {
  import opened Common
  import opened Sections
  import opened JsonText
  import opened JsonWriters
  import opened JsonTrees
  import opened JsonRoundTrip

  predicate PlainChar(c: char) { 'a' <= c <= 'z' || c == '_' }

  ghost predicate PlainText(s: string) { forall c :: c in s ==> PlainChar(c) }

  lemma {:induction false} PlainIsUnescaped(s: string)
    requires PlainText(s)
    ensures Escape(s) == s
  {
    if s != "" {
      assert s[0] in s;
      PlainIsUnescaped(s[1..]);
    }
  }

  /** Sections nested as the table says, data only in sections that are neither array nor wrapper. */
  ghost predicate Follows(parent: Section, t: Node)
    decreases t, 1
  {
    match t
    case Sect(sec, kids) => sec == Row(sec.id) && Child(parent.id, sec.id) && AllFollow(sec, kids)
    case _ => parent.kind.Object?
  }

  ghost predicate AllFollow(parent: Section, ts: seq<Node>)
    decreases ts, 0
  {
    ts != [] ==> Follows(parent, ts[0]) && AllFollow(parent, ts[1..])
  }

  function Max(a: nat, b: nat): nat { if a > b then a else b }

  /** How many sections are open at once inside. */
  function Height(t: Node): nat
    decreases t, 1
  {
    if t.Sect? then 1 + HeightAll(t.kids) else 0
  }

  function HeightAll(ts: seq<Node>): nat
    decreases ts, 0
  {
    if ts == [] then 0 else Max(Height(ts[0]), HeightAll(ts[1..]))
  }

  lemma {:induction false} NamesArePlain(id: SectionId)
    ensures Escape(Name(id)) == Name(id)
  {
    PlainIsUnescaped(Name(id));
  }

  lemma {:induction false} FollowsIsNested(parent: Section, t: Node)
    requires Follows(parent, t) && parent == Row(parent.id)
    ensures Nested(parent, t)
    decreases t, 1
  {
    if t.Sect? {
      TableFits(parent.id, t.sec.id);
      NamesArePlain(t.sec.id);
      AllFollowIsNested(t.sec, t.kids);
    }
  }

  lemma {:induction false} AllFollowIsNested(parent: Section, ts: seq<Node>)
    requires AllFollow(parent, ts) && parent == Row(parent.id)
    ensures AllNested(parent, ts)
    decreases ts, 0
  {
    if ts != [] {
      FollowsIsNested(parent, ts[0]);
      AllFollowIsNested(parent, ts[1..]);
    }
  }

  /** Whatever ffprobe reports under its section table comes back from the JSON it prints. */
  lemma {:induction false} TableRoundTripExactly(cfg: Config, kids: seq<Node>)
    requires AllFollow(Row(Root), kids)
    ensures LegalAll(cfg, START, DocumentEvents(Row(Root), kids))
    ensures Document(TextOf(cfg, START, DocumentEvents(Row(Root), kids)))
         == if AllComplete(cfg, Row(Root), kids) then Some(JObj(Mems(cfg, Row(Root), kids))) else None
  {
    AllFollowIsNested(Row(Root), kids);
    RoundTripExactly(cfg, Row(Root), kids);
  }

  /** The condition is needed: a packet without a single displayed field under packets_and_frames. */
  lemma {:induction false} BareElementIsNotJson(cfg: Config)
    ensures var kids := [Sect(Row(PacketsAndFrames), [Sect(Row(Packet), [])])];
      && AllFollow(Row(Root), kids)
      && LegalAll(cfg, START, DocumentEvents(Row(Root), kids))
      && Document(TextOf(cfg, START, DocumentEvents(Row(Root), kids))) == None
  {
    hide TextOf, LegalAll, Document, DocumentEvents;
    var packet := Sect(Row(Packet), []);
    var list := Sect(Row(PacketsAndFrames), [packet]);
    assert [packet][1..] == [] && [list][1..] == [];
    assert Follows(Row(PacketsAndFrames), packet);
    assert AllFollow(Row(PacketsAndFrames), [packet]);
    assert AllFollow(Row(Root), [list]);
    assert !AllComplete(cfg, Row(PacketsAndFrames), [packet]);
    assert !AllComplete(cfg, Row(Root), [list]);
    TableRoundTripExactly(cfg, [list]);
  }

  lemma {:induction false} DepthAtMostFive(id: SectionId)
    ensures Depth(id) <= 5
  {
  }

  lemma {:induction false} TableHeight(parent: Section, t: Node)
    requires Follows(parent, t)
    ensures Depth(parent.id) + Height(t) <= 5
    decreases t, 1
  {
    DepthAtMostFive(parent.id);
    if t.Sect? {
      DepthGrows(parent.id, t.sec.id);
      TableHeightAll(t.sec, t.kids);
    }
  }

  lemma {:induction false} TableHeightAll(parent: Section, ts: seq<Node>)
    requires AllFollow(parent, ts)
    ensures Depth(parent.id) + HeightAll(ts) <= 5
    decreases ts, 0
  {
    DepthAtMostFive(parent.id);
    if ts != [] {
      TableHeight(parent, ts[0]);
      TableHeightAll(parent, ts[1..]);
    }
  }
}
