/**
 ffprobe's compact and CSV writers without keys: a row of fields, escaped one by one and
 joined by a separator of the user's choice, and the readers that undo it.
 */
module CompactWriters {
  import opened Common

  datatype Mode = CEscapes | CsvQuotes

  // ------------------------------------------------------------------------------ writing

  function CChar(c: char, sep: char): string {
    match c
    case '\U{0008}' => "\\b"
    case '\U{000C}' => "\\f"
    case '\n' => "\\n"
    case '\r' => "\\r"
    case '\\' => "\\\\"
    case _ => if c == sep then ['\\', c] else [c]
  }

  /** c_escape_str */
  function CEscape(s: string, sep: char): string {
    if s == "" then "" else CChar(s[0], sep) + CEscape(s[1..], sep)
  }

  predicate Meta(c: char, sep: char) { c == sep || c == '"' || c == '\n' || c == '\r' }

  predicate NeedsQuoting(s: string, sep: char) { exists i :: 0 <= i < |s| && Meta(s[i], sep) }

  function DoubleQuotes(s: string): string {
    if s == "" then "" else (if s[0] == '"' then "\"\"" else [s[0]]) + DoubleQuotes(s[1..])
  }

  /** csv_escape_str */
  function CsvEscape(s: string, sep: char): string {
    if NeedsQuoting(s, sep) then "\"" + (DoubleQuotes(s) + "\"") else s
  }

  function EscapeField(m: Mode, s: string, sep: char): string {
    if m.CEscapes? then CEscape(s, sep) else CsvEscape(s, sep)
  }

  function RowTail(m: Mode, sep: char, fields: seq<string>): string {
    if fields == [] then "" else [sep] + (EscapeField(m, fields[0], sep) + RowTail(m, sep, fields[1..]))
  }

  /** A row of at least one field. */
  function Row(m: Mode, sep: char, fields: seq<string>): string
    requires fields != []
  {
    EscapeField(m, fields[0], sep) + RowTail(m, sep, fields[1..])
  }

  predicate Plain(m: Mode, c: char, sep: char) {
    && c != sep && c != '\n' && c != '\r'
    && (if m.CEscapes? then c != '\\' && c != '\U{0008}' && c != '\U{000C}' else c != '"')
  }

  lemma {:induction false} CEscapeGrows(s: string, sep: char)
    ensures |CEscape(s, sep)| >= |s|
    ensures CEscape(s, sep) == s <==> forall i :: 0 <= i < |s| ==> Plain(CEscapes, s[i], sep)
    ensures (exists i :: 0 <= i < |s| && !Plain(CEscapes, s[i], sep)) ==> |CEscape(s, sep)| > |s|
  {
    if s != "" {
      CEscapeGrows(s[1..], sep);
      assert s == [s[0]] + s[1..];
      assert Plain(CEscapes, s[0], sep) ==> CChar(s[0], sep) == [s[0]];
      if forall i :: 0 <= i < |s| ==> Plain(CEscapes, s[i], sep) {
        assert forall i :: 0 <= i < |s[1..]| ==> s[1..][i] == s[i + 1];
      }
      if !Plain(CEscapes, s[0], sep) {
        assert |CChar(s[0], sep)| == 2;
      }
    }
  }

  lemma {:induction false} DoublingGrows(s: string)
    ensures |DoubleQuotes(s)| >= |s|
  {
    if s != "" {
      DoublingGrows(s[1..]);
    }
  }

  /** Fields without special characters are printed as they are, all others are not. */
  lemma {:induction false} PlainFieldsExactly(m: Mode, s: string, sep: char)
    ensures EscapeField(m, s, sep) == s <==>
      forall i :: 0 <= i < |s| ==> Plain(m, s[i], sep)
  {
    if m.CEscapes? {
      CEscapeGrows(s, sep);
    } else if NeedsQuoting(s, sep) {
      DoublingGrows(s);
      var i :| 0 <= i < |s| && Meta(s[i], sep);
      assert |EscapeField(m, s, sep)| > |s|;
    } else {
      assert forall i :: 0 <= i < |s| ==> (Plain(m, s[i], sep) <==> !Meta(s[i], sep));
    }
  }

  // ------------------------------------------------------------------------------ reading

  datatype Parsed<+T> = Fail | Ok(value: T, rest: string)

  function Prepend(c: char, p: Parsed<string>): (r: Parsed<string>)
    ensures r.Ok? <==> p.Ok?
    ensures r.Ok? ==> r.rest == p.rest
  {
    if p.Fail? then Fail else Ok([c] + p.value, p.rest)
  }

  function UnC(c: char, sep: char): Option<char> {
    match c
    case '\\' => Some('\\')
    case 'b' => Some('\U{0008}')
    case 'f' => Some('\U{000C}')
    case 'n' => Some('\n')
    case 'r' => Some('\r')
    case _ => if c == sep then Some(c) else None
  }

  /** A C-escaped field, up to a bare separator or the end. */
  function ReadC(s: string, sep: char): (r: Parsed<string>)
    ensures r.Ok? ==> |r.rest| <= |s| && (r.rest != "" ==> r.rest[0] == sep)
  {
    if s == "" || s[0] == sep then Ok("", s)
    else if s[0] == '\\' then
      if |s| < 2 || UnC(s[1], sep).None? then Fail else Prepend(UnC(s[1], sep).value, ReadC(s[2..], sep))
    else Prepend(s[0], ReadC(s[1..], sep))
  }

  /** The inside of a quoted field: a doubled quote stands for one, a single quote ends it. */
  function ReadQuoted(s: string): (r: Parsed<string>)
    ensures r.Ok? ==> |r.rest| < |s|
  {
    if s == "" then Fail
    else if s[0] != '"' then Prepend(s[0], ReadQuoted(s[1..]))
    else if |s| > 1 && s[1] == '"' then Prepend('"', ReadQuoted(s[2..]))
    else Ok("", s[1..])
  }

  function ReadPlain(s: string, sep: char): (r: Parsed<string>)
    ensures r.Ok? ==> |r.rest| <= |s| && (r.rest != "" ==> r.rest[0] == sep)
  {
    if s == "" || s[0] == sep then Ok("", s)
    else if Meta(s[0], sep) then Fail
    else Prepend(s[0], ReadPlain(s[1..], sep))
  }

  /** RFC 4180 section 2, rules 4 to 7, for any separator. */
  function ReadCsv(s: string, sep: char): (r: Parsed<string>)
    ensures r.Ok? ==> |r.rest| <= |s| && (r.rest != "" ==> r.rest[0] == sep)
  {
    if s != "" && s[0] == '"' then
      var q := ReadQuoted(s[1..]);
      if q.Ok? && q.rest != "" && q.rest[0] != sep then Fail else q
    else ReadPlain(s, sep)
  }

  function ReadField(m: Mode, s: string, sep: char): (r: Parsed<string>)
    ensures r.Ok? ==> |r.rest| <= |s| && (r.rest != "" ==> r.rest[0] == sep)
  {
    if m.CEscapes? then ReadC(s, sep) else ReadCsv(s, sep)
  }

  function ReadRow(m: Mode, sep: char, s: string): Option<seq<string>>
    decreases |s|
  {
    var f := ReadField(m, s, sep);
    if f.Fail? then None
    else if f.rest == "" then Some([f.value])
    else
      var more := ReadRow(m, sep, f.rest[1..]);
      if more.None? then None else Some([f.value] + more.value)
  }

  // --------------------------------------------------------------------------- round trip

  /** Separators a reader can tell from an escape. */
  predicate SafeSeparator(m: Mode, sep: char) {
    if m.CEscapes? then sep !in "\\bfnr" else sep != '"'
  }

  /** What may follow a field. */
  predicate AtEnd(k: string, sep: char) { k != "" ==> k[0] == sep }

  lemma {:induction false} CCharReads(c: char, sep: char, rest: string)
    requires SafeSeparator(CEscapes, sep)
    ensures ReadC(CChar(c, sep) + rest, sep) == Prepend(c, ReadC(rest, sep))
  {
    var s := CChar(c, sep) + rest;
    assert sep !in "\\bfnr";
    assert sep != '\\' && sep != 'b' && sep != 'f' && sep != 'n' && sep != 'r' by {
      assert "\\bfnr"[0] == '\\' && "\\bfnr"[1] == 'b' && "\\bfnr"[2] == 'f';
      assert "\\bfnr"[3] == 'n' && "\\bfnr"[4] == 'r';
    }
    if |CChar(c, sep)| == 2 {
      assert s[2..] == rest && s[0] == '\\';
    } else {
      assert s[1..] == rest && s[0] == c && c != sep && c != '\\';
    }
  }

  lemma {:induction false} CReads(v: string, sep: char, k: string)
    requires SafeSeparator(CEscapes, sep) && AtEnd(k, sep)
    ensures ReadC(CEscape(v, sep) + k, sep) == Ok(v, k)
  {
    if v == "" {
      assert CEscape(v, sep) + k == k;
    } else {
      CReads(v[1..], sep, k);
      var rest := CEscape(v[1..], sep) + k;
      var s := CChar(v[0], sep) + rest;
      assert CEscape(v, sep) + k == s;
      CCharReads(v[0], sep, rest);
      assert [v[0]] + v[1..] == v;
    }
  }

  lemma {:induction false} QuotedCharReads(c: char, rest: string)
    ensures ReadQuoted((if c == '"' then "\"\"" else [c]) + rest) == Prepend(c, ReadQuoted(rest))
  {
    var s := (if c == '"' then "\"\"" else [c]) + rest;
    if c == '"' {
      assert s[2..] == rest;
    } else {
      assert s[1..] == rest;
    }
  }

  lemma {:induction false} QuotedReads(v: string, k: string)
    requires k == "" || k[0] != '"'
    ensures ReadQuoted(DoubleQuotes(v) + ("\"" + k)) == Ok(v, k)
  {
    if v == "" {
      assert DoubleQuotes(v) + ("\"" + k) == "\"" + k;
      assert ("\"" + k)[1..] == k;
    } else {
      QuotedReads(v[1..], k);
      var rest := DoubleQuotes(v[1..]) + ("\"" + k);
      QuotedCharReads(v[0], rest);
      assert DoubleQuotes(v) + ("\"" + k) == (if v[0] == '"' then "\"\"" else [v[0]]) + rest;
      assert [v[0]] + v[1..] == v;
    }
  }

  lemma {:induction false} PlainReads(v: string, sep: char, k: string)
    requires !NeedsQuoting(v, sep) && AtEnd(k, sep)
    ensures ReadPlain(v + k, sep) == Ok(v, k)
  {
    if v == "" {
      assert v + k == k;
    } else {
      assert !Meta(v[0], sep);
      assert forall i :: 0 <= i < |v[1..]| ==> v[1..][i] == v[i + 1];
      PlainReads(v[1..], sep, k);
      assert (v + k)[1..] == v[1..] + k;
      assert [v[0]] + v[1..] == v;
    }
  }

  lemma {:induction false} QuotedFieldReads(v: string, sep: char, k: string)
    requires sep != '"' && AtEnd(k, sep)
    ensures ReadCsv("\"" + (DoubleQuotes(v) + "\"") + k, sep) == Ok(v, k)
  {
    hide ReadQuoted;
    QuotedReads(v, k);
    var s := "\"" + (DoubleQuotes(v) + "\"") + k;
    assert s[1..] == DoubleQuotes(v) + ("\"" + k);
  }

  lemma {:induction false} PlainFieldReads(v: string, sep: char, k: string)
    requires sep != '"' && AtEnd(k, sep) && !NeedsQuoting(v, sep)
    ensures ReadCsv(v + k, sep) == Ok(v, k)
  {
    hide ReadPlain;
    PlainReads(v, sep, k);
    if v != "" {
      assert !Meta(v[0], sep) && (v + k)[0] == v[0];
    } else {
      assert v + k == k;
    }
  }

  lemma {:induction false} CsvReads(v: string, sep: char, k: string)
    requires SafeSeparator(CsvQuotes, sep) && AtEnd(k, sep)
    ensures ReadCsv(CsvEscape(v, sep) + k, sep) == Ok(v, k)
  {
    hide ReadCsv;
    if NeedsQuoting(v, sep) {
      QuotedFieldReads(v, sep, k);
    } else {
      PlainFieldReads(v, sep, k);
    }
  }

  lemma {:induction false} FieldReads(m: Mode, v: string, sep: char, k: string)
    requires SafeSeparator(m, sep) && AtEnd(k, sep)
    ensures ReadField(m, EscapeField(m, v, sep) + k, sep) == Ok(v, k)
  {
    if m.CEscapes? { CReads(v, sep, k); } else { CsvReads(v, sep, k); }
  }

  /** Reading a printed row gives back its fields, empty ones included, in both modes. */
  lemma {:induction false} RowReads(m: Mode, sep: char, fields: seq<string>)
    requires SafeSeparator(m, sep) && fields != []
    ensures ReadRow(m, sep, Row(m, sep, fields)) == Some(fields)
    decreases |fields|
  {
    var k := RowTail(m, sep, fields[1..]);
    FieldReads(m, fields[0], sep, k);
    if |fields| > 1 {
      RowReads(m, sep, fields[1..]);
      assert k[1..] == Row(m, sep, fields[1..]);
      assert [fields[0]] + fields[1..] == fields;
    } else {
      assert fields == [fields[0]];
    }
  }

  /** No two rows print the same text. */
  ghost predicate Unambiguous(m: Mode, sep: char) {
    forall a: seq<string>, b: seq<string> ::
      a != [] && b != [] && Row(m, sep, a) == Row(m, sep, b) ==> a == b
  }

  lemma {:induction false} RowOfOne(m: Mode, sep: char, f: string)
    ensures Row(m, sep, [f]) == EscapeField(m, f, sep)
  {
    assert [f][1..] == [];
    assert EscapeField(m, f, sep) + "" == EscapeField(m, f, sep);
  }

  lemma {:induction false} COne(c: char, sep: char)
    ensures CEscape([c], sep) == CChar(c, sep)
  {
    assert [c][1..] == "";
    assert CChar(c, sep) + "" == CChar(c, sep);
  }

  lemma {:induction false} EmptyFields(m: Mode, sep: char)
    ensures Row(m, sep, ["", "", ""]) == [sep, sep]
    ensures Row(m, sep, ["", "", "", "", ""]) == [sep, sep, sep, sep]
  {
    assert !NeedsQuoting("", sep);
    var t1, t2, t3, t4: seq<string> := [""], ["", ""], ["", "", ""], ["", "", "", ""];
    assert t1[1..] == [] && t2[1..] == t1 && t3[1..] == t2 && t4[1..] == t3;
    assert RowTail(m, sep, t1) == [sep];
    assert RowTail(m, sep, t2) == [sep, sep];
    assert RowTail(m, sep, t3) == [sep, sep, sep];
    assert RowTail(m, sep, t4) == [sep, sep, sep, sep];
    assert ["", "", "", "", ""][1..] == t4;
  }

  lemma {:induction false} UnsafeCollides(m: Mode, sep: char) returns (a: seq<string>, b: seq<string>)
    requires !SafeSeparator(m, sep)
    ensures a != [] && b != [] && a != b && Row(m, sep, a) == Row(m, sep, b)
  {
    if m.CsvQuotes? {
      // one field holding a quote, and five empty fields
      a, b := ["\""], ["", "", "", "", ""];
      RowOfOne(m, sep, "\"");
      assert "\""[1..] == "";
      assert DoubleQuotes("\"") == "\"\"" + DoubleQuotes("");
      assert NeedsQuoting("\"", sep) by { assert Meta("\""[0], sep); }
      assert Row(m, sep, a) == "\"\"\"\"";
      EmptyFields(m, sep);
    } else if sep == '\\' {
      // one field holding a backslash, and three empty fields
      a, b := ["\\"], ["", "", ""];
      RowOfOne(m, sep, "\\");
      COne('\\', sep);
      EmptyFields(m, sep);
    } else {
      // a control character, and the letter that names it
      var control := UnC(sep, sep).value;
      a, b := [[control]], [[sep]];
      RowOfOne(m, sep, [control]);
      RowOfOne(m, sep, [sep]);
      COne(control, sep);
      COne(sep, sep);
    }
  }

  /** The output of the writer can be taken apart again exactly for the safe separators. */
  lemma {:induction false} UnambiguousExactly(m: Mode, sep: char)
    ensures Unambiguous(m, sep) <==> SafeSeparator(m, sep)
  {
    if SafeSeparator(m, sep) {
      forall a: seq<string>, b: seq<string> | a != [] && b != [] && Row(m, sep, a) == Row(m, sep, b) ensures a == b {
        RowReads(m, sep, a);
        RowReads(m, sep, b);
      }
    } else {
      var a, b := UnsafeCollides(m, sep);
    }
  }

  // --------------------------------------------------------------------------- the writer

  lemma {:induction false} CEscapeSnoc(s: string, c: char, sep: char)
    ensures CEscape(s + [c], sep) == CEscape(s, sep) + CChar(c, sep)
  {
    if s == "" {
      assert s + [c] == [c];
      COne(c, sep);
    } else {
      assert (s + [c])[1..] == s[1..] + [c];
      CEscapeSnoc(s[1..], c, sep);
    }
  }

  method CEscapeStr(src: string, sep: char) returns (dst: string)
    ensures dst == CEscape(src, sep)
  {
    dst := "";
    for i := 0 to |src|
      invariant dst == CEscape(src[..i], sep)
    {
      CEscapeSnoc(src[..i], src[i], sep);
      assert src[..i + 1] == src[..i] + [src[i]];
      match src[i] {
        case '\U{0008}' => dst := dst + "\\b";
        case '\U{000C}' => dst := dst + "\\f";
        case '\n' => dst := dst + "\\n";
        case '\r' => dst := dst + "\\r";
        case '\\' => dst := dst + "\\\\";
        case _ =>
          if src[i] == sep {
            dst := dst + ['\\', src[i]];
          } else {
            dst := dst + [src[i]];
          }
      }
    }
    assert src[..|src|] == src;
  }

  lemma {:induction false} DoubleQuotesSnoc(s: string, c: char)
    ensures DoubleQuotes(s + [c]) == DoubleQuotes(s) + (if c == '"' then "\"\"" else [c])
  {
    if s == "" {
      assert s + [c] == [c];
      assert [c][1..] == "";
    } else {
      assert (s + [c])[1..] == s[1..] + [c];
      DoubleQuotesSnoc(s[1..], c);
    }
  }

  /** The copying loop of csv_escape_str. */
  method CopyDoubling(src: string) returns (dst: string)
    ensures dst == DoubleQuotes(src)
  {
    dst := "";
    for i := 0 to |src|
      invariant dst == DoubleQuotes(src[..i])
    {
      DoubleQuotesSnoc(src[..i], src[i]);
      assert src[..i + 1] == src[..i] + [src[i]];
      if src[i] == '"' {
        dst := dst + "\"";
      }
      dst := dst + [src[i]];
    }
    assert src[..|src|] == src;
  }

  lemma {:induction false} NothingDoubled(s: string, sep: char)
    requires forall i :: 0 <= i < |s| ==> !Meta(s[i], sep)
    ensures DoubleQuotes(s) == s
  {
    if s != "" {
      assert !Meta(s[0], sep);
      assert forall i :: 0 <= i < |s[1..]| ==> s[1..][i] == s[i + 1];
      NothingDoubled(s[1..], sep);
    }
  }

  method CsvEscapeStr(src: string, sep: char) returns (dst: string)
    ensures dst == CsvEscape(src, sep)
  {
    // strcspn: the length of the part without meta characters
    var n := 0;
    while n < |src| && !Meta(src[n], sep)
      invariant 0 <= n <= |src|
      invariant forall i :: 0 <= i < n ==> !Meta(src[i], sep)
    {
      n := n + 1;
    }
    dst := CopyDoubling(src);
    if n < |src| {
      assert Meta(src[n], sep);
      dst := "\"" + (dst + "\"");
    } else {
      NothingDoubled(src, sep);
    }
  }

  lemma {:induction false} RowTailSnoc(m: Mode, sep: char, fields: seq<string>, f: string)
    ensures RowTail(m, sep, fields + [f]) == RowTail(m, sep, fields) + ([sep] + EscapeField(m, f, sep))
  {
    if fields == [] {
      assert fields + [f] == [f];
      assert [f][1..] == [];
      assert EscapeField(m, f, sep) + "" == EscapeField(m, f, sep);
    } else {
      assert (fields + [f])[1..] == fields[1..] + [f];
      RowTailSnoc(m, sep, fields[1..], f);
    }
  }

  /** One more field: the separator goes in front of every field but the first. */
  lemma {:induction false} RowSnoc(m: Mode, sep: char, fields: seq<string>, f: string)
    ensures Row(m, sep, fields + [f])
         == if fields == [] then EscapeField(m, f, sep) else Row(m, sep, fields) + ([sep] + EscapeField(m, f, sep))
  {
    hide EscapeField;
    if fields == [] {
      RowOfOne(m, sep, f);
      assert fields + [f] == [f];
    } else {
      RowTailSnoc(m, sep, fields[1..], f);
      assert (fields + [f])[1..] == fields[1..] + [f];
    }
  }

  /** The open row of a compact writer: nb_item of its section, and the text so far. */
  class CompactWriter {
    const mode: Mode
    const itemSep: char
    var nbItem: nat
    var line: string
    ghost var fields: seq<string>

    ghost predicate Valid()
      reads this
    {
      && nbItem == |fields|
      && line == if fields == [] then "" else Row(mode, itemSep, fields)
    }

    constructor (mode: Mode, itemSep: char)
      ensures Valid() && fields == [] && this.mode == mode && this.itemSep == itemSep
    {
      this.mode, this.itemSep := mode, itemSep;
      nbItem, line, fields := 0, "", [];
    }

    /** compact->escape_str */
    method EscapeStr(value: string) returns (text: string)
      ensures text == EscapeField(mode, value, itemSep)
    {
      if mode.CEscapes? {
        text := CEscapeStr(value, itemSep);
      } else {
        text := CsvEscapeStr(value, itemSep);
      }
    }

    /** compact_print_str with nokey set, and the count kept by writer_print_string */
    method PrintStr(value: string)
      requires Valid()
      modifies this
      ensures Valid() && fields == old(fields) + [value]
      ensures line == Row(mode, itemSep, old(fields) + [value])
    {
      RowSnoc(mode, itemSep, fields, value);
      var text := EscapeStr(value);
      if nbItem > 0 {
        line := line + ([itemSep] + text);
      } else {
        line := text;
      }
      nbItem := nbItem + 1;
      fields := fields + [value];
    }
  }
}
