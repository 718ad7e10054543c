/**
 How the ffmpeg tools split their command line into groups of options: one pass over argv
 that finishes a group at every output file name or named separator, keeps global options
 aside and collects library options ("AVOptions") in dictionaries that move into the group
 they precede.
 */
module CommandLine {
  import opened Common

  datatype OptionDef = OptionDef(
    name: string, exit: bool, hasArg: bool, isBool: bool, perFile: bool, spec: bool, offset: bool
  )

  datatype GroupDef = GroupDef(name: string, sep: Option<string>)

  datatype Dict = Codec | Format | Resample | Sws | Swr

  /** What opt_default says about an option it is offered. */
  datatype AvResult = Consumed(dicts: seq<Dict>) | NotFound | Failed(code: int)

  datatype Config = Config(options: seq<OptionDef>, groups: seq<GroupDef>, avOption: (string, string) -> AvResult)

  datatype Status = Success | Einval | OptionNotFound | AvError(code: int)

  datatype OptInst = OptInst(def: OptionDef, key: string, val: Option<string>)

  /** One av_dict_set. */
  datatype DictEntry = DictEntry(dict: Dict, key: string, val: string)

  datatype Group = Group(arg: string, opts: seq<OptInst>, dict: seq<DictEntry>)

  /** OptionParseContext and the global dictionaries. */
  datatype Ctx = Ctx(lists: seq<seq<Group>>, globals: seq<OptInst>, cur: seq<OptInst>, dict: seq<DictEntry>)

  /** init_opts */
  const DEFAULT_DICT := [DictEntry(Sws, "flags", "bicubic")]

  function Fresh(n: nat): Ctx { Ctx(seq(n, _ => []), [], [], DEFAULT_DICT) }

  // ------------------------------------------------------------------------------ look-up

  /** The option name up to a stream specifier. */
  function Base(name: string): string {
    if name == "" || name[0] == ':' then "" else [name[0]] + Base(name[1..])
  }

  function FindOption(options: seq<OptionDef>, name: string): Option<OptionDef> {
    if options == [] then None
    else if options[0].name == Base(name) then Some(options[0])
    else FindOption(options[1..], name)
  }

  function MatchFrom(groups: seq<GroupDef>, opt: string, i: nat): Option<nat>
    requires i <= |groups|
    decreases |groups| - i
  {
    if i == |groups| then None
    else if groups[i].sep == Some(opt) then Some(i)
    else MatchFrom(groups, opt, i + 1)
  }

  function MatchGroup(groups: seq<GroupDef>, opt: string): (r: Option<nat>) { MatchFrom(groups, opt, 0) }

  // ------------------------------------------------------------------------------- tokens

  /** One round of the loop: what it took from argv and what it made of it. */
  datatype Token =
    | DashDash
    | Unnamed(arg: string)
    | Sep(grp: nat, opt: string, arg: string)
    | Opt(inst: OptInst)
    | NoOpt(inst: OptInst)
    | Av(key: string, val: string, dicts: seq<Dict>)

  datatype Read = Tok(t: Token, next: nat, dashdash: int) | Err(status: Status)

  /** argv[i], where argv[argc] is the terminating NULL. */
  function At(args: seq<string>, i: nat): Option<string>
    requires i <= |args|
  {
    if i == |args| then None else Some(args[i])
  }

  /** -nofoo */
  function ReadNegated(cfg: Config, i: nat, dashdash: int, name: string): Read {
    if |name| < 2 || name[0] != 'n' || name[1] != 'o' then Err(OptionNotFound)
    else
      var no := FindOption(cfg.options, name[2..]);
      if no.Some? && no.value.isBool then Tok(NoOpt(OptInst(no.value, name, Some("0"))), i + 1, dashdash)
      else Err(OptionNotFound)
  }

  function ReadOption(cfg: Config, args: seq<string>, i: nat, dashdash: int, name: string): Read
    requires i < |args|
  {
    var arg := At(args, i + 1);
    var sep := MatchGroup(cfg.groups, name);
    var po := FindOption(cfg.options, name);
    if sep.Some? then
      if arg.None? then Err(Einval) else Tok(Sep(sep.value, name, arg.value), i + 2, dashdash)
    else if po.Some? then
      if po.value.exit then Tok(Opt(OptInst(po.value, name, arg)), i + 2, dashdash)
      else if po.value.hasArg then
        if arg.None? then Err(Einval) else Tok(Opt(OptInst(po.value, name, arg)), i + 2, dashdash)
      else Tok(Opt(OptInst(po.value, name, Some("1"))), i + 1, dashdash)
    else
      var av := if arg.None? then NotFound else cfg.avOption(name, arg.value);
      match av
      case Consumed(dicts) => Tok(Av(name, arg.value, dicts), i + 2, dashdash)
      case Failed(code) => Err(AvError(code))
      case NotFound => ReadNegated(cfg, i, dashdash, name)
  }

  function ReadOne(cfg: Config, args: seq<string>, i: nat, dashdash: int): Read
    requires i < |args|
  {
    var opt := args[i];
    if opt == "--" then Tok(DashDash, i + 1, i + 1)
    else if opt == "" || opt[0] != '-' || |opt| == 1 || dashdash == i then Tok(Unnamed(opt), i + 1, dashdash)
    else ReadOption(cfg, args, i, dashdash, opt[1..])
  }

  datatype Tokens = Ok(tokens: seq<Token>) | Bad(status: Status)

  function Tokenise(cfg: Config, args: seq<string>, i: nat, dashdash: int): Tokens
    decreases |args| - i
  {
    if i >= |args| then Ok([])
    else
      match ReadOne(cfg, args, i, dashdash)
      case Err(status) => Bad(status)
      case Tok(t, next, d) =>
        var rest := Tokenise(cfg, args, next, d);
        if rest.Bad? then rest else Ok([t] + rest.tokens)
  }

  /** The arguments a token stands for. */
  function Render(t: Token): seq<string> {
    match t
    case DashDash => ["--"]
    case Unnamed(arg) => [arg]
    case Sep(_, opt, arg) => ["-" + opt, arg]
    case Opt(o) => if (o.def.exit || o.def.hasArg) && o.val.Some? then ["-" + o.key, o.val.value] else ["-" + o.key]
    case NoOpt(o) => ["-" + o.key]
    case Av(key, val, _) => ["-" + key, val]
  }

  function RenderAll(tokens: seq<Token>): seq<string> {
    if tokens == [] then [] else Render(tokens[0]) + RenderAll(tokens[1..])
  }

  lemma {:induction false} ReadOneCovers(cfg: Config, args: seq<string>, i: nat, dashdash: int)
    requires i < |args| && ReadOne(cfg, args, i, dashdash).Tok?
    ensures var r := ReadOne(cfg, args, i, dashdash);
      i < r.next <= |args| + 1 && args[i..if r.next <= |args| then r.next else |args|] == Render(r.t)
  {
    var opt := args[i];
    if opt != "" && opt[0] == '-' {
      assert "-" + opt[1..] == opt;
    }
    assert args[i..i + 1] == [opt];
    if i + 1 < |args| {
      assert args[i..i + 2] == [opt, args[i + 1]];
    }
  }

  /** On success every argument is used exactly once, in order, and argv is never read past its NULL. */
  lemma {:induction false} Conservation(cfg: Config, args: seq<string>, i: nat, dashdash: int)
    requires i <= |args| + 1 && Tokenise(cfg, args, i, dashdash).Ok?
    ensures RenderAll(Tokenise(cfg, args, i, dashdash).tokens) == if i <= |args| then args[i..] else []
    decreases |args| - i
  {
    if i < |args| {
      var r := ReadOne(cfg, args, i, dashdash);
      ReadOneCovers(cfg, args, i, dashdash);
      Conservation(cfg, args, r.next, r.dashdash);
      var tokens := Tokenise(cfg, args, i, dashdash).tokens;
      assert tokens[1..] == Tokenise(cfg, args, r.next, r.dashdash).tokens;
      assert args[i..] == Render(r.t) + (if r.next <= |args| then args[r.next..] else []);
    }
  }

  // -------------------------------------------------------------------- what a token means

  /** The name up to the first colon, if there is one. */
  lemma {:induction false} BaseEndsAtColon(name: string)
    ensures var b := Base(name);
      && |b| <= |name| && b == name[..|b|] && ':' !in b && (|b| < |name| ==> name[|b|] == ':')
  {
    if name != "" && name[0] != ':' {
      BaseEndsAtColon(name[1..]);
      assert name == [name[0]] + name[1..];
    }
  }

  ghost predicate NoneNamed(options: seq<OptionDef>, name: string) {
    forall k :: 0 <= k < |options| ==> options[k].name != Base(name)
  }

  /** The option is the first of that name. */
  ghost predicate FirstNamed(options: seq<OptionDef>, name: string, def: OptionDef) {
    exists k: nat :: k < |options| && options[k] == def && def.name == Base(name) && NoneNamed(options[..k], name)
  }

  lemma NoneBefore(options: seq<OptionDef>, name: string, j: nat, k: nat)
    requires j < k <= |options| && NoneNamed(options[..k], name)
    ensures options[j].name != Base(name)
  {
    assert options[..k][j] == options[j];
  }

  lemma {:induction false} FirstIsUnique(options: seq<OptionDef>, name: string)
    ensures forall a, b :: FirstNamed(options, name, a) && FirstNamed(options, name, b) ==> a == b
  {
    forall a, b | FirstNamed(options, name, a) && FirstNamed(options, name, b) ensures a == b {
      var j: nat :| j < |options| && options[j] == a && a.name == Base(name) && NoneNamed(options[..j], name);
      var k: nat :| k < |options| && options[k] == b && b.name == Base(name) && NoneNamed(options[..k], name);
      if j < k {
        NoneBefore(options, name, j, k);
      } else if k < j {
        NoneBefore(options, name, k, j);
      }
    }
  }

  lemma {:induction false} FindOptionFirst(options: seq<OptionDef>, name: string)
    ensures var r := FindOption(options, name);
      if r.Some? then FirstNamed(options, name, r.value) else NoneNamed(options, name)
  {
    if options != [] {
      if options[0].name == Base(name) {
        assert NoneNamed(options[..0], name);
      } else {
        FindOptionFirst(options[1..], name);
        var r := FindOption(options[1..], name);
        if r.Some? {
          var k: nat :| k < |options[1..]| && options[1..][k] == r.value && NoneNamed(options[1..][..k], name);
          assert options[k + 1] == r.value;
          assert options[..k + 1] == [options[0]] + options[1..][..k];
        } else {
          forall j | 0 <= j < |options| ensures options[j].name != Base(name) {
            assert j > 0 ==> options[j] == options[1..][j - 1];
          }
        }
      }
    }
  }

  ghost predicate NoSeparator(groups: seq<GroupDef>, name: string) {
    forall k :: 0 <= k < |groups| ==> groups[k].sep != Some(name)
  }

  /** Neither a separator nor an option of the program. */
  ghost predicate Unknown(cfg: Config, name: string) {
    NoSeparator(cfg.groups, name) && NoneNamed(cfg.options, name)
  }

  /** "nofoo", where foo is a boolean option of the program. */
  ghost predicate Negates(cfg: Config, name: string, def: OptionDef) {
    |name| >= 2 && name[0] == 'n' && name[1] == 'o' && def.isBool && FirstNamed(cfg.options, name[2..], def)
  }

  /** An argument that is a name, not introduced by a dash, or taken as it is because it follows "--". */
  predicate IsPlain(arg: string, afterDashDash: bool) {
    arg != "--" && (arg == "" || arg[0] != '-' || arg == "-" || afterDashDash)
  }

  /** What a token says about the arguments it stands for; `next` is the argument after its name, if any. */
  ghost predicate Means(cfg: Config, t: Token, afterDashDash: bool, next: Option<string>) {
    match t
    case DashDash => true
    case Unnamed(arg) => IsPlain(arg, afterDashDash)
    case Sep(l, opt, arg) =>
      !IsPlain("-" + opt, afterDashDash) && next == Some(arg)
      && l < |cfg.groups| && cfg.groups[l].sep == Some(opt) && NoSeparator(cfg.groups[..l], opt)
    case Opt(o) =>
      && !IsPlain("-" + o.key, afterDashDash)
      && NoSeparator(cfg.groups, o.key) && FirstNamed(cfg.options, o.key, o.def)
      && (if o.def.exit then o.val == next
          else if o.def.hasArg then o.val == next && next.Some?
          else o.val == Some("1"))
    case Av(key, val, dicts) =>
      && !IsPlain("-" + key, afterDashDash) && Unknown(cfg, key)
      && next == Some(val) && cfg.avOption(key, val) == Consumed(dicts)
    case NoOpt(o) =>
      && !IsPlain("-" + o.key, afterDashDash) && Unknown(cfg, o.key) && Negates(cfg, o.key, o.def)
      && o.val == Some("0") && (next.Some? ==> cfg.avOption(o.key, next.value) == NotFound)
  }

  /** Each token of the list means what it says, given the arguments it was read from. */
  ghost predicate AllMean(cfg: Config, tokens: seq<Token>, afterDashDash: bool)
    decreases |tokens|
  {
    tokens != [] ==>
      && var after := RenderAll(tokens);
      && Means(cfg, tokens[0], afterDashDash, if |after| > 1 then Some(after[1]) else None)
      && AllMean(cfg, tokens[1..], tokens[0].DashDash?)
  }

  lemma {:induction false} MatchFromFirst(groups: seq<GroupDef>, opt: string, i: nat)
    requires i <= |groups|
    ensures var r := MatchFrom(groups, opt, i);
      if r.Some? then
        && i <= r.value < |groups| && groups[r.value].sep == Some(opt)
        && forall j :: i <= j < r.value ==> groups[j].sep != Some(opt)
      else forall j :: i <= j < |groups| ==> groups[j].sep != Some(opt)
    decreases |groups| - i
  {
    if i < |groups| && groups[i].sep != Some(opt) {
      MatchFromFirst(groups, opt, i + 1);
    }
  }

  lemma {:induction false} ReadOneMeans(cfg: Config, args: seq<string>, i: nat, dashdash: int)
    requires i < |args| && ReadOne(cfg, args, i, dashdash).Tok?
    ensures var r := ReadOne(cfg, args, i, dashdash);
      && Means(cfg, r.t, dashdash == i, At(args, i + 1))
      && i < r.next && r.dashdash == if r.t.DashDash? then r.next else dashdash
  {
    var opt := args[i];
    if opt != "" && opt[0] == '-' {
      var name := opt[1..];
      assert "-" + name == opt;
      assert cfg.groups[..|cfg.groups|] == cfg.groups;
      MatchFromFirst(cfg.groups, name, 0);
      FindOptionFirst(cfg.options, name);
      if |name| >= 2 {
        FindOptionFirst(cfg.options, name[2..]);
      }
    }
  }

  /** Every token of a successful split means what it says. */
  lemma {:induction false} TokensMean(cfg: Config, args: seq<string>, i: nat, dashdash: int)
    requires i <= |args| + 1 && dashdash <= i && Tokenise(cfg, args, i, dashdash).Ok?
    ensures AllMean(cfg, Tokenise(cfg, args, i, dashdash).tokens, dashdash == i)
    decreases |args| - i
  {
    hide Means, ReadOne, Render, RenderAll;
    if i < |args| {
      var r := ReadOne(cfg, args, i, dashdash);
      ReadOneMeans(cfg, args, i, dashdash);
      ReadOneCovers(cfg, args, i, dashdash);
      Conservation(cfg, args, i, dashdash);
      TokensMean(cfg, args, r.next, r.dashdash);
      var tokens := Tokenise(cfg, args, i, dashdash).tokens;
      assert tokens[1..] == Tokenise(cfg, args, r.next, r.dashdash).tokens;
    }
  }

  /** Why an option cannot be read. */
  ghost predicate Fails(cfg: Config, name: string, next: Option<string>, status: Status) {
    match status
    case Success => false
    case Einval =>
      && next.None?
      && (!NoSeparator(cfg.groups, name)
          || exists def :: FirstNamed(cfg.options, name, def) && def.hasArg && !def.exit)
    case OptionNotFound =>
      && Unknown(cfg, name) && (next.Some? ==> cfg.avOption(name, next.value) == NotFound)
      && forall def :: !Negates(cfg, name, def)
    case AvError(code) =>
      Unknown(cfg, name) && next.Some? && cfg.avOption(name, next.value) == Failed(code)
  }

  /** Why a round fails: a missing argument, an unknown name, or an error of the library. */
  lemma {:induction false} ErrorsMean(cfg: Config, args: seq<string>, i: nat, dashdash: int)
    requires i < |args| && ReadOne(cfg, args, i, dashdash).Err?
    ensures var status, next := ReadOne(cfg, args, i, dashdash).status, At(args, i + 1);
      !IsPlain(args[i], dashdash == i) && args[i] != "--" && Fails(cfg, args[i][1..], next, status)
  {
    var name := args[i][1..];
    MatchFromFirst(cfg.groups, name, 0);
    FindOptionFirst(cfg.options, name);
    if |name| >= 2 {
      FindOptionFirst(cfg.options, name[2..]);
      FirstIsUnique(cfg.options, name[2..]);
    }
  }

  /** A split fails with the error of the first round that fails. */
  lemma {:induction false} SplitFailsAt(cfg: Config, args: seq<string>, i: nat, dashdash: int)
    returns (j: nat, d: int)
    requires i <= |args| + 1 && Tokenise(cfg, args, i, dashdash).Bad?
    ensures i <= j < |args| && ReadOne(cfg, args, j, d) == Err(Tokenise(cfg, args, i, dashdash).status)
    decreases |args| - i
  {
    var r := ReadOne(cfg, args, i, dashdash);
    if r.Err? {
      j, d := i, dashdash;
    } else {
      ReadOneCovers(cfg, args, i, dashdash);
      j, d := SplitFailsAt(cfg, args, r.next, r.dashdash);
    }
  }

  // ------------------------------------------------------------------- building the groups

  /** Options that are neither per file, nor per stream, nor stored at an offset. */
  predicate IsGlobal(def: OptionDef) { !(def.perFile || def.spec || def.offset) }

  function Entries(key: string, val: string, dicts: seq<Dict>): seq<DictEntry> {
    seq(|dicts|, i requires 0 <= i < |dicts| => DictEntry(dicts[i], key, val))
  }

  /** finish_group */
  function Finish(c: Ctx, l: nat, arg: string): Ctx
    requires l < |c.lists|
  {
    c.(lists := c.lists[l := c.lists[l] + [Group(arg, c.cur, c.dict)]], cur := [], dict := DEFAULT_DICT)
  }

  /** add_opt */
  function AddOpt(c: Ctx, o: OptInst): Ctx {
    if IsGlobal(o.def) then c.(globals := c.globals + [o]) else c.(cur := c.cur + [o])
  }

  predicate Fit(t: Token, n: nat) { n > 0 && (t.Sep? ==> t.grp < n) }

  function Act(c: Ctx, t: Token): Ctx
    requires Fit(t, |c.lists|)
  {
    match t
    case DashDash => c
    case Unnamed(arg) => Finish(c, 0, arg)
    case Sep(l, _, arg) => Finish(c, l, arg)
    case Opt(o) => AddOpt(c, o)
    case NoOpt(o) => AddOpt(c, o)
    case Av(key, val, dicts) => c.(dict := c.dict + Entries(key, val, dicts))
  }

  ghost predicate AllFit(tokens: seq<Token>, n: nat) { forall i :: 0 <= i < |tokens| ==> Fit(tokens[i], n) }

  ghost function Build(c: Ctx, tokens: seq<Token>): (r: Ctx)
    requires AllFit(tokens, |c.lists|)
    ensures |r.lists| == |c.lists|
    decreases |tokens|
  {
    if tokens == [] then c else Build(Act(c, tokens[0]), tokens[1..])
  }

  lemma {:induction false} TokensFit(cfg: Config, args: seq<string>, i: nat, dashdash: int)
    requires cfg.groups != [] && Tokenise(cfg, args, i, dashdash).Ok?
    ensures AllFit(Tokenise(cfg, args, i, dashdash).tokens, |cfg.groups|)
    decreases |args| - i
  {
    if i < |args| {
      var r := ReadOne(cfg, args, i, dashdash);
      if r.t.Sep? {
        MatchFromFirst(cfg.groups, r.t.opt, 0);
      }
      TokensFit(cfg, args, r.next, r.dashdash);
    }
  }

  // ------------------------------------------------------------ what the groups consist of

  function GlobalOf(t: Token): seq<OptInst> { if (t.Opt? || t.NoOpt?) && IsGlobal(t.inst.def) then [t.inst] else [] }

  function LocalOf(t: Token): seq<OptInst> { if (t.Opt? || t.NoOpt?) && !IsGlobal(t.inst.def) then [t.inst] else [] }

  function EntriesOf(t: Token): seq<DictEntry> { if t.Av? then Entries(t.key, t.val, t.dicts) else [] }

  function Globals(tokens: seq<Token>): seq<OptInst> {
    if tokens == [] then [] else GlobalOf(tokens[0]) + Globals(tokens[1..])
  }

  function Locals(tokens: seq<Token>): seq<OptInst> {
    if tokens == [] then [] else LocalOf(tokens[0]) + Locals(tokens[1..])
  }

  function AvEntries(tokens: seq<Token>): seq<DictEntry> {
    if tokens == [] then [] else EntriesOf(tokens[0]) + AvEntries(tokens[1..])
  }

  predicate Ends(t: Token) { t.Unnamed? || t.Sep? }

  function ListOf(t: Token): nat
    requires Ends(t)
  {
    if t.Sep? then t.grp else 0
  }

  /** The tokens before the first group end. */
  function Head(tokens: seq<Token>): (r: seq<Token>)
    ensures |r| <= |tokens| && r == tokens[..|r|] && (|r| < |tokens| ==> Ends(tokens[|r|]))
  {
    if tokens == [] || Ends(tokens[0]) then [] else [tokens[0]] + Head(tokens[1..])
  }

  /** The group its first end closes, if it belongs to list l. */
  function FirstGroup(tokens: seq<Token>, l: nat): seq<Group>
    requires |Head(tokens)| < |tokens|
  {
    var h := Head(tokens);
    var end := tokens[|h|];
    if ListOf(end) == l then [Group(end.arg, Locals(h), DEFAULT_DICT + AvEntries(h))] else []
  }

  function AfterFirst(tokens: seq<Token>): seq<Token>
    requires |Head(tokens)| < |tokens|
  {
    tokens[|Head(tokens)| + 1..]
  }

  /**
   The groups of list l: one for each of its ends, made of the local options and library
   options found since the previous end of any list.
   */
  function GroupsOf(tokens: seq<Token>, l: nat): seq<Group>
    decreases |tokens|
  {
    if |Head(tokens)| == |tokens| then [] else FirstGroup(tokens, l) + GroupsOf(AfterFirst(tokens), l)
  }

  /** The tokens after the last group end. */
  function Trailing(tokens: seq<Token>): seq<Token>
    decreases |tokens|
  {
    var h := Head(tokens);
    if |h| == |tokens| then tokens else Trailing(AfterFirst(tokens))
  }

  lemma Associate<T>(x: seq<T>, y: seq<T>, z: seq<T>)
    ensures x + (y + z) == (x + y) + z
  {
  }

  function Add(c: Ctx, g: seq<OptInst>, o: seq<OptInst>, d: seq<DictEntry>): Ctx {
    Ctx(c.lists, c.globals + g, c.cur + o, c.dict + d)
  }

  lemma {:induction false} ActInside(c: Ctx, t: Token)
    requires Fit(t, |c.lists|) && !Ends(t)
    ensures Act(c, t) == Add(c, GlobalOf(t), LocalOf(t), EntriesOf(t))
  {
  }

  lemma {:induction false} AddAdd(c: Ctx, t: Token, h: seq<Token>)
    requires h != [] && h[0] == t
    ensures Add(Add(c, GlobalOf(t), LocalOf(t), EntriesOf(t)), Globals(h[1..]), Locals(h[1..]), AvEntries(h[1..]))
         == Add(c, Globals(h), Locals(h), AvEntries(h))
  {
    Associate(c.globals, GlobalOf(t), Globals(h[1..]));
    Associate(c.cur, LocalOf(t), Locals(h[1..]));
    Associate(c.dict, EntriesOf(t), AvEntries(h[1..]));
  }

  lemma {:induction false} FitSuffix(tokens: seq<Token>, n: nat, k: nat)
    requires AllFit(tokens, n) && k <= |tokens|
    ensures AllFit(tokens[k..], n)
  {
    assert forall i :: 0 <= i < |tokens[k..]| ==> tokens[k..][i] == tokens[k + i];
  }

  /** Up to the next group end the loop only collects. */
  lemma {:induction false} BuildHead(c: Ctx, tokens: seq<Token>)
    requires AllFit(tokens, |c.lists|)
    ensures var h := Head(tokens);
      && AllFit(tokens[|h|..], |c.lists|)
      && Build(c, tokens) == Build(Add(c, Globals(h), Locals(h), AvEntries(h)), tokens[|h|..])
    decreases |tokens|
  {
    var h := Head(tokens);
    FitSuffix(tokens, |c.lists|, |h|);
    if h == [] {
      assert tokens[|h|..] == tokens;
      assert Add(c, [], [], []) == c;
    } else {
      var c1 := Act(c, tokens[0]);
      FitSuffix(tokens, |c.lists|, 1);
      ActInside(c, tokens[0]);
      BuildHead(c1, tokens[1..]);
      assert Head(tokens[1..]) == h[1..];
      AddAdd(c, tokens[0], h);
      assert tokens[1..][|h| - 1..] == tokens[|h|..];
    }
  }

  lemma {:induction false} HeadTail(tokens: seq<Token>)
    requires Head(tokens) != []
    ensures Head(tokens)[0] == tokens[0] && !Ends(tokens[0]) && Head(tokens)[1..] == Head(tokens[1..])
    ensures |Head(tokens)| < |tokens| ==> AfterFirst(tokens) == AfterFirst(tokens[1..])
  {
    if |Head(tokens)| < |tokens| {
      assert tokens[1..][|Head(tokens)|..] == tokens[|Head(tokens)| + 1..];
    }
  }

  function GlobalsAfter(tokens: seq<Token>): seq<OptInst> {
    if |Head(tokens)| == |tokens| then [] else Globals(AfterFirst(tokens))
  }

  lemma {:induction false} GlobalsSplit(tokens: seq<Token>)
    ensures Globals(tokens) == Globals(Head(tokens)) + GlobalsAfter(tokens)
    decreases |tokens|
  {
    if Head(tokens) != [] {
      HeadTail(tokens);
      GlobalsSplit(tokens[1..]);
      Associate(GlobalOf(tokens[0]), Globals(Head(tokens[1..])), GlobalsAfter(tokens[1..]));
    }
  }

  /** One segment: what was collected goes into the group, and collecting starts afresh. */
  function Segment(c: Ctx, tokens: seq<Token>): Ctx
    requires |Head(tokens)| < |tokens| && ListOf(tokens[|Head(tokens)|]) < |c.lists|
  {
    var h := Head(tokens);
    var end := tokens[|h|];
    Ctx(c.lists[ListOf(end) := c.lists[ListOf(end)] + [Group(end.arg, Locals(h), DEFAULT_DICT + AvEntries(h))]],
        c.globals + Globals(h), [], DEFAULT_DICT)
  }

  lemma {:induction false} BuildSegment(c: Ctx, tokens: seq<Token>)
    requires AllFit(tokens, |c.lists|) && c.cur == [] && c.dict == DEFAULT_DICT && |Head(tokens)| < |tokens|
    ensures AllFit(AfterFirst(tokens), |c.lists|) && ListOf(tokens[|Head(tokens)|]) < |c.lists|
    ensures Build(c, tokens) == Build(Segment(c, tokens), AfterFirst(tokens))
  {
    var h := Head(tokens);
    assert Fit(tokens[|h|], |c.lists|);
    BuildHead(c, tokens);
    FitSuffix(tokens, |c.lists|, |h| + 1);
    assert tokens[|h|..][0] == tokens[|h|] && tokens[|h|..][1..] == tokens[|h| + 1..];
    assert c.cur + Locals(h) == Locals(h);
  }

  lemma {:induction false} SegmentList(c: Ctx, tokens: seq<Token>, l: nat)
    requires |Head(tokens)| < |tokens| && ListOf(tokens[|Head(tokens)|]) < |c.lists| && l < |c.lists|
    ensures Segment(c, tokens).lists[l] == c.lists[l] + FirstGroup(tokens, l)
  {
  }

  lemma {:induction false} BuildList(c: Ctx, tokens: seq<Token>, l: nat)
    requires AllFit(tokens, |c.lists|) && c.cur == [] && c.dict == DEFAULT_DICT && l < |c.lists|
    ensures Build(c, tokens).lists[l] == c.lists[l] + GroupsOf(tokens, l)
    decreases |tokens|
  {
    if |Head(tokens)| == |tokens| {
      BuildHead(c, tokens);
    } else {
      BuildSegment(c, tokens);
      SegmentList(c, tokens, l);
      BuildList(Segment(c, tokens), AfterFirst(tokens), l);
      Associate(c.lists[l], FirstGroup(tokens, l), GroupsOf(AfterFirst(tokens), l));
    }
  }

  lemma {:induction false} BuildRest(c: Ctx, tokens: seq<Token>)
    requires AllFit(tokens, |c.lists|) && c.cur == [] && c.dict == DEFAULT_DICT
    ensures var r := Build(c, tokens);
      && r.globals == c.globals + Globals(tokens)
      && r.cur == Locals(Trailing(tokens)) && r.dict == DEFAULT_DICT + AvEntries(Trailing(tokens))
    decreases |tokens|
  {
    GlobalsSplit(tokens);
    if |Head(tokens)| == |tokens| {
      BuildHead(c, tokens);
      assert Head(tokens) == tokens;
      assert c.cur + Locals(tokens) == Locals(tokens);
    } else {
      BuildSegment(c, tokens);
      BuildRest(Segment(c, tokens), AfterFirst(tokens));
      Associate(c.globals, Globals(Head(tokens)), Globals(AfterFirst(tokens)));
    }
  }

  /**
   What split_commandline leaves behind on success: the groups of each list in command line
   order, every group with exactly the local and library options written since the previous
   group ended, global options apart, and the rest still open.
   */
  lemma {:induction false} SplitIsGrouping(cfg: Config, args: seq<string>)
    requires cfg.groups != [] && Tokenise(cfg, args, 0, -1).Ok?
    ensures var tokens := Tokenise(cfg, args, 0, -1).tokens;
      AllFit(tokens, |cfg.groups|) && RenderAll(tokens) == args &&
      var r := Build(Fresh(|cfg.groups|), tokens);
        && (forall l :: 0 <= l < |cfg.groups| ==> r.lists[l] == GroupsOf(tokens, l))
        && r.globals == Globals(tokens)
        && r.cur == Locals(Trailing(tokens)) && r.dict == DEFAULT_DICT + AvEntries(Trailing(tokens))
  {
    var tokens := Tokenise(cfg, args, 0, -1).tokens;
    var c := Fresh(|cfg.groups|);
    TokensFit(cfg, args, 0, -1);
    Conservation(cfg, args, 0, -1);
    BuildRest(c, tokens);
    forall l | 0 <= l < |cfg.groups| ensures Build(c, tokens).lists[l] == GroupsOf(tokens, l) {
      BuildList(c, tokens, l);
    }
  }

  function OptionCount(tokens: seq<Token>): nat {
    if tokens == [] then 0 else (if tokens[0].Opt? || tokens[0].NoOpt? then 1 else 0) + OptionCount(tokens[1..])
  }

  /** What library options put into the dictionaries: each its key and value, in each dictionary named. */
  lemma {:induction false} AvEntriesExactly(tokens: seq<Token>, d: Dict, key: string, val: string)
    ensures DictEntry(d, key, val) in AvEntries(tokens) <==>
      exists t :: t in tokens && t.Av? && t.key == key && t.val == val && d in t.dicts
  {
    if tokens != [] {
      AvEntriesExactly(tokens[1..], d, key, val);
      var t, e := tokens[0], DictEntry(d, key, val);
      assert tokens == [t] + tokens[1..];
      if t.Av? {
        assert e in EntriesOf(t) <==> t.key == key && t.val == val && d in t.dicts by {
          if t.key == key && t.val == val && d in t.dicts {
            var i :| 0 <= i < |t.dicts| && t.dicts[i] == d;
            assert EntriesOf(t)[i] == e;
          }
        }
      }
    }
  }

  /** Every group starts from the default of the scaler. */
  lemma {:induction false} GroupsStartFresh(tokens: seq<Token>, l: nat)
    ensures forall g :: g in GroupsOf(tokens, l) ==> g.dict != [] && g.dict[0] == DictEntry(Sws, "flags", "bicubic")
    decreases |tokens|
  {
    if |Head(tokens)| < |tokens| {
      GroupsStartFresh(AfterFirst(tokens), l);
    }
  }

  function InGroups(groups: seq<Group>): nat {
    if groups == [] then 0 else |groups[0].opts| + InGroups(groups[1..])
  }

  function InLists(lists: seq<seq<Group>>): nat {
    if lists == [] then 0 else InGroups(lists[0]) + InLists(lists[1..])
  }

  /** All options a context holds: the globals, those of the open group, those of the finished groups. */
  function Held(c: Ctx): nat { |c.globals| + |c.cur| + InLists(c.lists) }

  lemma {:induction false} InGroupsSnoc(groups: seq<Group>, g: Group)
    ensures InGroups(groups + [g]) == InGroups(groups) + |g.opts|
  {
    if groups == [] {
      assert [g][1..] == [] && groups + [g] == [g];
    } else {
      assert (groups + [g])[1..] == groups[1..] + [g];
      InGroupsSnoc(groups[1..], g);
    }
  }

  lemma {:induction false} InListsUpdate(lists: seq<seq<Group>>, l: nat, g: Group)
    requires l < |lists|
    ensures InLists(lists[l := lists[l] + [g]]) == InLists(lists) + |g.opts|
  {
    var all := lists[l := lists[l] + [g]];
    if l == 0 {
      InGroupsSnoc(lists[0], g);
      assert all[1..] == lists[1..];
    } else {
      assert all[1..] == lists[1..][l - 1 := lists[1..][l - 1] + [g]];
      InListsUpdate(lists[1..], l - 1, g);
    }
  }

  lemma {:induction false} ActHolds(c: Ctx, t: Token)
    requires Fit(t, |c.lists|)
    ensures Held(Act(c, t)) == Held(c) + OptionCount([t])
  {
    assert [t][1..] == [];
    if t.Unnamed? || t.Sep? {
      InListsUpdate(c.lists, ListOf(t), Group(t.arg, c.cur, c.dict));
    }
  }

  /** Every option token ends up in the result once: among the globals, in a finished group, or in the open one. */
  lemma {:induction false} OptionsCounted(c: Ctx, tokens: seq<Token>)
    requires AllFit(tokens, |c.lists|)
    ensures Held(Build(c, tokens)) == Held(c) + OptionCount(tokens)
    decreases |tokens|
  {
    if tokens != [] {
      ActHolds(c, tokens[0]);
      assert [tokens[0]][1..] == [];
      OptionsCounted(Act(c, tokens[0]), tokens[1..]);
    }
  }

  lemma {:induction false} NothingInLists(n: nat)
    ensures InLists(Fresh(n).lists) == 0
  {
    if n > 0 {
      assert Fresh(n).lists[1..] == Fresh(n - 1).lists;
      NothingInLists(n - 1);
    }
  }

  /** split_commandline neither loses nor repeats an option. */
  lemma {:induction false} SplitKeepsOptions(cfg: Config, args: seq<string>)
    requires cfg.groups != [] && Tokenise(cfg, args, 0, -1).Ok?
    ensures var tokens := Tokenise(cfg, args, 0, -1).tokens;
      AllFit(tokens, |cfg.groups|) && Held(Build(Fresh(|cfg.groups|), tokens)) == OptionCount(tokens)
  {
    TokensFit(cfg, args, 0, -1);
    OptionsCounted(Fresh(|cfg.groups|), Tokenise(cfg, args, 0, -1).tokens);
    NothingInLists(|cfg.groups|);
  }

  /** An option is global or local by its flags alone. */
  lemma {:induction false} OptionsByFlags(tokens: seq<Token>)
    ensures |Globals(tokens)| + |Locals(tokens)| == OptionCount(tokens)
    ensures forall o :: o in Globals(tokens) ==> !o.def.perFile && !o.def.spec && !o.def.offset
    ensures forall o :: o in Locals(tokens) ==> o.def.perFile || o.def.spec || o.def.offset
  {
    if tokens != [] {
      var g, l := Globals(tokens[1..]), Locals(tokens[1..]);
      OptionsByFlags(tokens[1..]);
      assert forall o :: o in GlobalOf(tokens[0]) + g ==> IsGlobal(o.def);
      assert forall o :: o in LocalOf(tokens[0]) + l ==> !IsGlobal(o.def);
    }
  }

  // ----------------------------------------------------------------------------- isolation

  /** Looking only at args, the round at i does not reach the end of args. */
  lemma {:induction false} ReadOneLocal(cfg: Config, a: seq<string>, b: seq<string>, i: nat, dashdash: int)
    requires i < |a| && ReadOne(cfg, a, i, dashdash).Tok?
    requires ReadOne(cfg, a, i, dashdash).next < |a| || Ends(ReadOne(cfg, a, i, dashdash).t)
    ensures ReadOne(cfg, a + b, i, dashdash) == ReadOne(cfg, a, i, dashdash) && ReadOne(cfg, a, i, dashdash).next <= |a|
    ensures var r := ReadOne(cfg, a, i, dashdash); r.dashdash == if r.t.DashDash? then i + 1 else dashdash
  {
    assert (a + b)[i] == a[i];
    if i + 1 < |a| {
      assert (a + b)[i + 1] == a[i + 1];
    }
  }

  /** Reading b behind a is reading b alone, with every position moved by |a|. */
  lemma {:induction false} ReadOneShifted(cfg: Config, a: seq<string>, b: seq<string>, i: nat, dashdash: int)
    requires i < |b|
    ensures ReadOne(cfg, a + b, |a| + i, |a| + dashdash)
         == (match ReadOne(cfg, b, i, dashdash)
             case Err(s) => Err(s)
             case Tok(t, next, d) => Tok(t, |a| + next, |a| + d))
  {
    assert (a + b)[|a| + i] == b[i];
    if i + 1 < |b| {
      assert (a + b)[|a| + i + 1] == b[i + 1];
    }
  }

  /** A "--" only matters for the argument right after it. */
  lemma {:induction false} ReadOneForgets(cfg: Config, args: seq<string>, i: nat, d1: int, d2: int)
    requires i < |args| && d1 < i && d2 < i
    ensures var r1, r2 := ReadOne(cfg, args, i, d1), ReadOne(cfg, args, i, d2);
      if r1.Err? then r2 == r1
      else
        && r2.Tok? && r2.t == r1.t && i < r1.next == r2.next
        && (r1.dashdash == r2.dashdash || (r1.dashdash == d1 && r2.dashdash == d2))
  {
  }

  lemma {:induction false} DashDashIrrelevant(cfg: Config, args: seq<string>, i: nat, d1: int, d2: int)
    requires d1 < i && d2 < i
    ensures Tokenise(cfg, args, i, d1) == Tokenise(cfg, args, i, d2)
    decreases |args| - i
  {
    if i < |args| {
      ReadOneForgets(cfg, args, i, d1, d2);
      var r1, r2 := ReadOne(cfg, args, i, d1), ReadOne(cfg, args, i, d2);
      if r1.Tok? && r1.dashdash != r2.dashdash {
        DashDashIrrelevant(cfg, args, r1.next, r1.dashdash, r2.dashdash);
      }
    }
  }

  function Prefixed(t: seq<Token>, rest: Tokens): Tokens { if rest.Bad? then rest else Ok(t + rest.tokens) }

  lemma {:induction false} TokeniseStep(cfg: Config, args: seq<string>, i: nat, dashdash: int)
    requires i < |args|
    ensures var r := ReadOne(cfg, args, i, dashdash);
      Tokenise(cfg, args, i, dashdash)
      == if r.Err? then Bad(r.status) else Prefixed([r.t], Tokenise(cfg, args, r.next, r.dashdash))
  {
  }

  lemma {:induction false} ShiftedStep(cfg: Config, a: seq<string>, b: seq<string>, i: nat, dashdash: int)
    requires i < |b|
    requires var r := ReadOne(cfg, b, i, dashdash);
      r.Tok? ==> Tokenise(cfg, a + b, |a| + r.next, |a| + r.dashdash) == Tokenise(cfg, b, r.next, r.dashdash)
    ensures Tokenise(cfg, a + b, |a| + i, |a| + dashdash) == Tokenise(cfg, b, i, dashdash)
  {
    hide ReadOne;
    ReadOneShifted(cfg, a, b, i, dashdash);
    TokeniseStep(cfg, b, i, dashdash);
    TokeniseStep(cfg, a + b, |a| + i, |a| + dashdash);
  }

  lemma {:induction false} TokeniseShifted(cfg: Config, a: seq<string>, b: seq<string>, i: nat, dashdash: int)
    ensures Tokenise(cfg, a + b, |a| + i, |a| + dashdash) == Tokenise(cfg, b, i, dashdash)
    decreases |b| - i
  {
    hide ReadOne;
    if i < |b| {
      var r := ReadOne(cfg, b, i, dashdash);
      if r.Tok? {
        ReadOneCovers(cfg, b, i, dashdash);
        TokeniseShifted(cfg, a, b, r.next, r.dashdash);
      }
      ShiftedStep(cfg, a, b, i, dashdash);
    }
  }

  /** The last token of a: after it, b is read from its start. */
  lemma {:induction false} TokeniseLast(cfg: Config, a: seq<string>, b: seq<string>, dashdash: int)
    requires dashdash < |a|
    ensures Tokenise(cfg, a + b, |a|, dashdash) == Tokenise(cfg, b, 0, -1)
  {
    TokeniseShifted(cfg, a, b, 0, -1);
    DashDashIrrelevant(cfg, a + b, |a|, dashdash, |a| - 1);
  }

  lemma {:induction false} LastToken(t: Token, rest: seq<Token>)
    ensures ([t] + rest)[|rest|] == if rest == [] then t else rest[|rest| - 1]
  {
  }

  /** Once a has ended a group, whatever follows is read as if a had never been there. */
  lemma {:induction false} TokeniseComposes(cfg: Config, a: seq<string>, b: seq<string>, i: nat, dashdash: int)
    requires i < |a| && dashdash <= i && Tokenise(cfg, a, i, dashdash).Ok?
    requires var ta := Tokenise(cfg, a, i, dashdash).tokens; Ends(ta[|ta| - 1])
    ensures Tokenise(cfg, a + b, i, dashdash)
         == Prefixed(Tokenise(cfg, a, i, dashdash).tokens, Tokenise(cfg, b, 0, -1))
    decreases |a| - i
  {
    hide ReadOne;
    var r := ReadOne(cfg, a, i, dashdash);
    var rest := Tokenise(cfg, a, r.next, r.dashdash).tokens;
    var tb := Tokenise(cfg, b, 0, -1);
    TokeniseStep(cfg, a, i, dashdash);
    ReadOneCovers(cfg, a, i, dashdash);
    LastToken(r.t, rest);
    ReadOneLocal(cfg, a, b, i, dashdash);
    TokeniseStep(cfg, a + b, i, dashdash);
    if r.next < |a| {
      TokeniseComposes(cfg, a, b, r.next, r.dashdash);
      if tb.Ok? {
        Associate([r.t], rest, tb.tokens);
      }
    } else {
      TokeniseLast(cfg, a, b, r.dashdash);
    }
  }

  lemma {:induction false} GlobalsConcat(a: seq<Token>, b: seq<Token>)
    ensures Globals(a + b) == Globals(a) + Globals(b)
  {
    if a == [] {
      assert a + b == b;
    } else {
      assert (a + b)[1..] == a[1..] + b;
      GlobalsConcat(a[1..], b);
    }
  }

  lemma {:induction false} HeadConcat(a: seq<Token>, b: seq<Token>)
    requires a != [] && Ends(a[|a| - 1])
    ensures Head(a + b) == Head(a) && |Head(a)| < |a|
  {
    if !Ends(a[0]) {
      assert (a + b)[1..] == a[1..] + b;
      HeadConcat(a[1..], b);
    }
  }

  lemma {:induction false} AfterEnd(a: seq<Token>, b: seq<Token>, l: nat)
    requires a != [] && Ends(a[|a| - 1])
    ensures |Head(a)| < |a| && |Head(a + b)| < |a + b| && Head(a + b) == Head(a)
    ensures AfterFirst(a + b) == AfterFirst(a) + b && FirstGroup(a + b, l) == FirstGroup(a, l)
    ensures var rest := AfterFirst(a); rest == [] || Ends(rest[|rest| - 1])
  {
    HeadConcat(a, b);
    assert (a + b)[|Head(a)|] == a[|Head(a)|];
  }

  lemma {:induction false} GroupsConcat(a: seq<Token>, b: seq<Token>, l: nat)
    requires a == [] || Ends(a[|a| - 1])
    ensures GroupsOf(a + b, l) == GroupsOf(a, l) + GroupsOf(b, l)
    decreases |a|
  {
    if a == [] {
      assert a + b == b;
    } else {
      AfterEnd(a, b, l);
      GroupsConcat(AfterFirst(a), b, l);
      Associate(FirstGroup(a, l), GroupsOf(AfterFirst(a), l), GroupsOf(b, l));
    }
  }

  lemma {:induction false} TrailingConcat(a: seq<Token>, b: seq<Token>)
    requires a == [] || Ends(a[|a| - 1])
    ensures Trailing(a + b) == Trailing(b)
    decreases |a|
  {
    if a == [] {
      assert a + b == b;
    } else {
      AfterEnd(a, b, 0);
      TrailingConcat(AfterFirst(a), b);
    }
  }

  /**
   No option leaks from one group into another: behind a command line that ends with a file
   name or separator, every list gets exactly the groups the rest would get on its own.
   */
  lemma {:induction false} GroupsDoNotLeak(cfg: Config, a: seq<string>, b: seq<string>, l: nat)
    requires a != [] && cfg.groups != [] && l < |cfg.groups|
    requires Tokenise(cfg, a, 0, -1).Ok? && Tokenise(cfg, b, 0, -1).Ok?
    requires var ta := Tokenise(cfg, a, 0, -1).tokens; Ends(ta[|ta| - 1])
    ensures Tokenise(cfg, a + b, 0, -1).Ok?
    ensures var n := |cfg.groups|;
      var ta, tb := Tokenise(cfg, a, 0, -1).tokens, Tokenise(cfg, b, 0, -1).tokens;
      var tab := Tokenise(cfg, a + b, 0, -1).tokens;
      && AllFit(ta, n) && AllFit(tb, n) && AllFit(tab, n)
      && Build(Fresh(n), tab).lists[l] == Build(Fresh(n), ta).lists[l] + Build(Fresh(n), tb).lists[l]
      && Build(Fresh(n), tab).globals == Build(Fresh(n), ta).globals + Build(Fresh(n), tb).globals
      && Build(Fresh(n), tab).cur == Build(Fresh(n), tb).cur && Build(Fresh(n), tab).dict == Build(Fresh(n), tb).dict
  {
    var ta, tb := Tokenise(cfg, a, 0, -1).tokens, Tokenise(cfg, b, 0, -1).tokens;
    TokeniseComposes(cfg, a, b, 0, -1);
    SplitIsGrouping(cfg, a);
    SplitIsGrouping(cfg, b);
    SplitIsGrouping(cfg, a + b);
    GlobalsConcat(ta, tb);
    GroupsConcat(ta, tb, l);
    TrailingConcat(ta, tb);
  }

  // ------------------------------------------------------------------------ the loop itself

  method FindOptionDef(options: seq<OptionDef>, name: string) returns (po: Option<OptionDef>)
    ensures po == FindOption(options, name)
  {
    // strchr(name, ':')
    var len := 0;
    while len < |name| && name[len] != ':'
      invariant 0 <= len <= |name|
      invariant Base(name) == name[..len] + Base(name[len..])
    {
      assert name[len..][1..] == name[len + 1..];
      assert name[..len + 1] == name[..len] + [name[len]];
      len := len + 1;
    }
    assert Base(name) == name[..len];
    var i := 0;
    while i < |options|
      invariant 0 <= i <= |options|
      invariant FindOption(options, name) == FindOption(options[i..], name)
    {
      if options[i].name == name[..len] {
        return Some(options[i]);
      }
      assert options[i..][1..] == options[i + 1..];
      i := i + 1;
    }
    return None;
  }

  method MatchGroupSeparator(groups: seq<GroupDef>, opt: string) returns (r: int)
    ensures var m := MatchGroup(groups, opt); r == if m.Some? then m.value else -1
    ensures -1 <= r < |groups|
  {
    for i := 0 to |groups|
      invariant MatchGroup(groups, opt) == MatchFrom(groups, opt, i)
    {
      if groups[i].sep == Some(opt) {
        return i;
      }
    }
    return -1;
  }

  lemma {:induction false} PrefixMore(cfg: Config, args: seq<string>, i: nat, dashdash: int, done: seq<Token>)
    requires i < |args| && ReadOne(cfg, args, i, dashdash).Tok?
    ensures var r := ReadOne(cfg, args, i, dashdash);
      Prefixed(done, Tokenise(cfg, args, i, dashdash))
      == Prefixed(done + [r.t], Tokenise(cfg, args, r.next, r.dashdash))
  {
    var r := ReadOne(cfg, args, i, dashdash);
    var rest := Tokenise(cfg, args, r.next, r.dashdash);
    TokeniseStep(cfg, args, i, dashdash);
    if rest.Ok? {
      Associate(done, [r.t], rest.tokens);
    }
  }

  lemma {:induction false} BuildAppend(c: Ctx, tokens: seq<Token>, t: Token)
    requires AllFit(tokens, |c.lists|) && Fit(t, |c.lists|)
    ensures AllFit(tokens + [t], |c.lists|) && Build(c, tokens + [t]) == Act(Build(c, tokens), t)
    decreases |tokens|
  {
    var all := tokens + [t];
    if tokens == [] {
      assert all[1..] == [];
    } else {
      FitSuffix(tokens, |c.lists|, 1);
      assert all[1..] == tokens[1..] + [t];
      BuildAppend(Act(c, tokens[0]), tokens[1..], t);
    }
  }

  class OptionParseContext {
    const cfg: Config
    const groups: array<seq<Group>>
    var globalOpts: seq<OptInst>
    var curGroup: seq<OptInst>
    var dict: seq<DictEntry>       // codec_opts, format_opts, resample_opts, sws_dict and swr_opts

    function View(): Ctx
      reads this, groups
    {
      Ctx(groups[..], globalOpts, curGroup, dict)
    }

    /** init_parse_context */
    constructor (cfg: Config)
      requires cfg.groups != []
      ensures this.cfg == cfg && groups.Length == |cfg.groups| && fresh(groups)
      ensures View() == Fresh(|cfg.groups|)
    {
      this.cfg := cfg;
      groups := new seq<Group>[|cfg.groups|](_ => []);
      globalOpts, curGroup, dict := [], [], DEFAULT_DICT;
      new;
      assert groups[..] == Fresh(|cfg.groups|).lists;
    }

    method FinishGroup(l: nat, arg: string)
      requires l < groups.Length
      modifies this, groups
      ensures View() == Finish(old(View()), l, arg)
    {
      groups[l] := groups[l] + [Group(arg, curGroup, dict)];
      dict := DEFAULT_DICT;
      curGroup := [];
    }

    method AddOption(o: OptInst)
      modifies this
      ensures View() == AddOpt(old(View()), o)
    {
      if !(o.def.perFile || o.def.spec || o.def.offset) {
        globalOpts := globalOpts + [o];
      } else {
        curGroup := curGroup + [o];
      }
    }

    method PlainOption(args: seq<string>, i: nat, ghost dashdash: int, name: string)
      returns (status: Status, optindex: nat)
      requires i < |args| && groups.Length > 0 && MatchGroup(cfg.groups, name).None?
      modifies this
      ensures var r := ReadOption(cfg, args, i, dashdash, name);
        if r.Err? then status == r.status && status != Success
        else
          && status == Success && optindex == r.next && dashdash == r.dashdash
          && Fit(r.t, groups.Length) && View() == Act(old(View()), r.t)
    {
      optindex, status := i + 1, Success;
      var po := FindOptionDef(cfg.options, name);
      if po.Some? {
        var arg := Some("1");
        if po.value.exit {
          arg := At(args, optindex);
          optindex := optindex + 1;
        } else if po.value.hasArg {
          arg := At(args, optindex);
          optindex := optindex + 1;
          if arg.None? {
            status := Einval;
            return;
          }
        }
        AddOption(OptInst(po.value, name, arg));
        return;
      }
      if optindex < |args| {
        match cfg.avOption(name, args[optindex]) {
          case Consumed(dicts) =>
            dict := dict + Entries(name, args[optindex], dicts);
            optindex := optindex + 1;
            return;
          case Failed(code) =>
            status := AvError(code);
            return;
          case NotFound =>
        }
      }
      if |name| >= 2 && name[0] == 'n' && name[1] == 'o' {
        var no := FindOptionDef(cfg.options, name[2..]);
        if no.Some? && no.value.isBool {
          AddOption(OptInst(no.value, name, Some("0")));
          return;
        }
      }
      status := OptionNotFound;
    }

    /** One round of the loop. */
    method Round(args: seq<string>, i: nat, dashdash: int) returns (status: Status, optindex: nat, dd: int)
      requires i < |args| && groups.Length == |cfg.groups| > 0
      modifies this, groups
      ensures var r := ReadOne(cfg, args, i, dashdash);
        if r.Err? then status == r.status && status != Success
        else
          && status == Success && optindex == r.next && dd == r.dashdash
          && Fit(r.t, groups.Length) && View() == Act(old(View()), r.t)
    {
      var opt := args[i];
      optindex, dd, status := i + 1, dashdash, Success;
      if opt == "--" {
        dd := optindex;
        return;
      }
      if opt == "" || opt[0] != '-' || |opt| == 1 || dashdash + 1 == optindex {
        FinishGroup(0, opt);
        return;
      }
      var name := opt[1..];
      var ret := MatchGroupSeparator(cfg.groups, name);
      if ret >= 0 {
        var arg := At(args, optindex);
        optindex := optindex + 1;
        if arg.None? {
          status := Einval;
          return;
        }
        FinishGroup(ret, arg.value);
        return;
      }
      status, optindex := PlainOption(args, i, dashdash, name);
    }

    /** split_commandline, on argv without the program name. */
    method SplitCommandline(args: seq<string>) returns (status: Status)
      requires groups.Length == |cfg.groups| > 0 && View() == Fresh(|cfg.groups|)
      modifies this, groups
      ensures Tokenise(cfg, args, 0, -1).Bad? ==> status == Tokenise(cfg, args, 0, -1).status && status != Success
      ensures Tokenise(cfg, args, 0, -1).Ok? ==>
        status == Success && AllFit(Tokenise(cfg, args, 0, -1).tokens, |cfg.groups|) &&
        View() == Build(Fresh(|cfg.groups|), Tokenise(cfg, args, 0, -1).tokens)
    {
      ghost var n := |cfg.groups|;
      ghost var whole := Tokenise(cfg, args, 0, -1);
      ghost var done: seq<Token> := [];
      var optindex, dashdash := 0, -1;
      while optindex < |args|
        invariant groups.Length == n && AllFit(done, n) && View() == Build(Fresh(n), done)
        invariant whole == Prefixed(done, Tokenise(cfg, args, optindex, dashdash))
        decreases |args| - optindex
      {
        ghost var r := ReadOne(cfg, args, optindex, dashdash);
        var next, dd;
        status, next, dd := Round(args, optindex, dashdash);
        if status != Success {
          return;
        }
        ReadOneCovers(cfg, args, optindex, dashdash);
        PrefixMore(cfg, args, optindex, dashdash, done);
        BuildAppend(Fresh(n), done, r.t);
        done := done + [r.t];
        optindex, dashdash := next, dd;
      }
      assert done + [] == done;
      return Success;
    }
  }
}
