/**
  The dependency-free YAML writer `dict_to_yaml` (jenkins-to-gha-converter.py:34-66):
  a mapping becomes one `key: value` line per entry at two spaces per depth,
  nested mappings and lists open a `key:` line followed by their children, a
  string holding a line feed becomes a `|` block, and nothing is quoted or escaped.
 */
module Yaml {
  import opened Text
  import opened Document

  /** The characters at depth `n`: the indentation, then a space or a list dash. */
  predicate Beneath(line: string, n: nat) {
    |line| > 2 * n && StartsWith(line, Indent(n)) && (line[2 * n] == ' ' || line[2 * n] == '-')
  }

  lemma DeeperIsBeneath(line: string, n: nat)
    requires StartsWith(line, Indent(n + 1))
    ensures Beneath(line, n)
  {
    assert line[..2 * n] == Indent(n + 1)[..2 * n];
  }

  /** `dict_to_yaml(v, n)`: the lines of a mapping at depth `n`; anything but a
      mapping yields no lines. Every line carries the depth's indentation. */
  function Render(v: Value, n: nat): (lines: seq<string>)
    ensures forall i :: 0 <= i < |lines| ==> StartsWith(lines[i], Indent(n))
    decreases v, 1
  {
    match v
    case Map(es) => RenderEntries(es, n)
    case _ => []
  }

  /** The lines of the entries of a mapping, entry after entry. */
  function RenderEntries(es: seq<(string, Value)>, n: nat): (lines: seq<string>)
    ensures forall i :: 0 <= i < |lines| ==> StartsWith(lines[i], Indent(n))
    decreases es
  {
    if |es| == 0 then []
    else
      assert es[0].1 < es[0];
      EntryLines(es[0].0, es[0].1, n) + RenderEntries(es[1..], n)
  }

  /** The lines of one `key: value` entry: a head line carrying the key, then
      lines that all sit beneath depth `n`. */
  function EntryLines(key: string, val: Value, n: nat): (lines: seq<string>)
    ensures |lines| > 0 && StartsWith(lines[0], Indent(n) + key)
    ensures forall i :: 0 <= i < |lines| ==> StartsWith(lines[i], Indent(n))
    ensures forall i :: 1 <= i < |lines| ==> Beneath(lines[i], n)
    decreases val, 2
  {
    var head := Indent(n) + key;
    match val
    case Map(_) =>
      var sub := Render(val, n + 1);
      forall i | 0 <= i < |sub| ensures Beneath(sub[i], n) {
        DeeperIsBeneath(sub[i], n);
      }
      [head + ":"] + sub
    case List(xs) => [head + ":"] + ItemsLines(xs, n)
    case Bool(b) => [head + ": " + (if b then "true" else "false")]
    case Str(s) =>
      if '\n' in s then [head + ": |"] + BlockLines(Split(s, '\n'), n)
      else [head + ": " + s]
    case Int(i) => [head + ": " + IntToString(i)]
  }

  /** The body of a `|` block: every segment verbatim, one level deeper. */
  function BlockLines(segments: seq<string>, n: nat): (lines: seq<string>)
    ensures |lines| == |segments|
    ensures forall i :: 0 <= i < |lines| ==> lines[i] == Indent(n + 1) + segments[i]
    ensures forall i :: 0 <= i < |lines| ==> Beneath(lines[i], n)
  {
    var lines := seq(|segments|, i requires 0 <= i < |segments| => Indent(n + 1) + segments[i]);
    forall i | 0 <= i < |lines| ensures Beneath(lines[i], n) {
      DeeperIsBeneath(lines[i], n);
    }
    lines
  }

  /** The lines of the items of a list value whose key sits at depth `n`. */
  function ItemsLines(xs: seq<Value>, n: nat): (lines: seq<string>)
    ensures forall i :: 0 <= i < |lines| ==> Beneath(lines[i], n)
    decreases xs
  {
    if |xs| == 0 then [] else ItemLines(xs[0], n) + ItemsLines(xs[1..], n)
  }

  /** One list item: `- ` followed by the item's text, or for a mapping its first
      line stripped, the mapping's remaining lines following one level deeper. */
  function ItemLines(item: Value, n: nat): (lines: seq<string>)
    ensures |lines| > 0 && StartsWith(lines[0], Indent(n) + "- ")
    ensures forall i :: 0 <= i < |lines| ==> Beneath(lines[i], n)
    decreases item, 2
  {
    var dash := Indent(n) + "- ";
    assert Beneath(dash, n);
    if item.Map? then
      var sub := Render(item, n + 1);
      if |sub| == 0 then [dash]
      else
        var first := dash + Strip(sub[0]);
        assert first[..|dash|] == dash;
        assert Beneath(first, n);
        forall i | 1 <= i < |sub| ensures Beneath(sub[i], n) {
          DeeperIsBeneath(sub[i], n);
        }
        [first] + sub[1..]
    else
      var line := dash + PyStr(item);
      assert line[..|dash|] == dash;
      [line]
  }

  /** Python's `str(x)` for a list item that is not a mapping. */
  function PyStr(x: Value): string {
    match x
    case Str(s) => s
    case Int(i) => IntToString(i)
    case Bool(b) => if b then "True" else "False"
    case _ => Repr(x)
  }

  /** Python's `repr(x)`, which `str` of a list or dict applies to its elements. */
  function Repr(x: Value): string
    decreases x
  {
    match x
    case Map(es) => "{" + ReprEntries(es) + "}"
    case List(xs) => "[" + ReprItems(xs) + "]"
    case Str(s) => ReprString(s)
    case Int(i) => IntToString(i)
    case Bool(b) => if b then "True" else "False"
  }

  function ReprItems(xs: seq<Value>): string
    decreases xs
  {
    if |xs| == 0 then ""
    else if |xs| == 1 then Repr(xs[0])
    else Repr(xs[0]) + ", " + ReprItems(xs[1..])
  }

  function ReprEntries(es: seq<(string, Value)>): string
    decreases es
  {
    if |es| == 0 then ""
    else
      assert es[0].1 < es[0];
      var entry := ReprString(es[0].0) + ": " + Repr(es[0].1);
      if |es| == 1 then entry else entry + ", " + ReprEntries(es[1..])
  }

  /** Python's `repr` of a string: single quotes unless the text holds a single
      quote and no double quote; backslash escapes for the chosen quote, the
      backslash, tab, line feed, carriage return and other ASCII control codes.
      Printable ASCII other than the quote and the backslash passes through. */
  function ReprString(s: string): (r: string)
    ensures |r| >= 2 && r[0] == r[|r| - 1] && IsQuote(r[0])
    ensures r[0] == '"' <==> '\'' in s && '"' !in s
    ensures (forall i :: 0 <= i < |s| ==> s[i] != r[0] && PlainChar(s[i])) ==> r == [r[0]] + s + [r[0]]
  {
    var q := if '\'' in s && '"' !in s then '"' else '\'';
    [q] + ReprChars(s, q) + [q]
  }

  /** A character `repr` writes as itself, whatever the quote: printable ASCII
      other than the backslash. */
  predicate PlainChar(c: char) {
    ' ' <= c <= '~' && c != '\\'
  }

  function ReprChars(s: string, q: char): (r: string)
    ensures (forall i :: 0 <= i < |s| ==> s[i] != q && PlainChar(s[i])) ==> r == s
  {
    if |s| == 0 then "" else ReprChar(s[0], q) + ReprChars(s[1..], q)
  }

  function ReprChar(c: char, q: char): string {
    if c == q || c == '\\' then ['\\', c]
    else if c == '\t' then "\\t"
    else if c == '\n' then "\\n"
    else if c == '\r' then "\\r"
    else if c < ' ' || c == '\U{7F}' then "\\x" + HexByte(c as int)
    else [c]
  }

  // ---------------------------------------------------------------------------
  // Layout properties

  /** Entries render independently and in insertion order: the lines of a
      mapping are the lines of its first part followed by those of the rest. */
  lemma {:induction false} RenderEntriesAppend(a: seq<(string, Value)>, b: seq<(string, Value)>, n: nat)
    ensures RenderEntries(a + b, n) == RenderEntries(a, n) + RenderEntries(b, n)
    decreases |a|
  {
    if |a| > 0 {
      assert (a + b)[0] == a[0];
      assert (a + b)[1..] == a[1..] + b;
      RenderEntriesAppend(a[1..], b, n);
    } else {
      assert a + b == b;
    }
  }

  /** A line that opens an entry of the mapping at depth `n`. */
  predicate KeyLineAt(line: string, n: nat) {
    |line| > 2 * n && StartsWith(line, Indent(n)) && line[2 * n] != ' ' && line[2 * n] != '-'
  }

  /** The lines of `lines` that open entries at depth `n`, in order. */
  function KeyLines(lines: seq<string>, n: nat): seq<string> {
    if |lines| == 0 then []
    else (if KeyLineAt(lines[0], n) then [lines[0]] else []) + KeyLines(lines[1..], n)
  }

  lemma {:induction false} KeyLinesAppend(a: seq<string>, b: seq<string>, n: nat)
    ensures KeyLines(a + b, n) == KeyLines(a, n) + KeyLines(b, n)
    decreases |a|
  {
    if |a| > 0 {
      assert (a + b)[0] == a[0];
      assert (a + b)[1..] == a[1..] + b;
      KeyLinesAppend(a[1..], b, n);
    } else {
      assert a + b == b;
    }
  }

  lemma {:induction false} KeyLinesNone(lines: seq<string>, n: nat)
    requires forall i :: 0 <= i < |lines| ==> Beneath(lines[i], n)
    ensures KeyLines(lines, n) == []
    decreases |lines|
  {
    if |lines| > 0 {
      KeyLinesNone(lines[1..], n);
    }
  }

  /** A key that can open a line at its depth: it does not begin with a space or a dash. */
  predicate PlainKey(key: string) {
    |key| > 0 && key[0] != ' ' && key[0] != '-'
  }

  /** Reading the lines of a mapping back at depth `n` recovers exactly one line per
      key, in insertion order, each beginning with its key: nested mappings,
      list items and block bodies all sit beneath the depth. */
  lemma {:induction false} KeysInOrder(es: seq<(string, Value)>, n: nat)
    requires forall i :: 0 <= i < |es| ==> PlainKey(es[i].0)
    ensures |KeyLines(RenderEntries(es, n), n)| == |es|
    ensures forall i :: 0 <= i < |es| ==> StartsWith(KeyLines(RenderEntries(es, n), n)[i], Indent(n) + es[i].0)
    decreases |es|
  {
    if |es| > 0 {
      var first := EntryLines(es[0].0, es[0].1, n);
      KeysInOrder(es[1..], n);
      KeyLinesAppend(first, RenderEntries(es[1..], n), n);
      EntryKeyLine(es[0].0, es[0].1, n);
    }
  }

  /** An entry opens with exactly one line at its depth, the one naming its key. */
  lemma EntryKeyLine(k: string, v: Value, n: nat)
    requires PlainKey(k)
    ensures var first := EntryLines(k, v, n);
      KeyLines(first, n) == [first[0]] && StartsWith(first[0], Indent(n) + k)
  {
    var first := EntryLines(k, v, n);
    KeyLinesAppend([first[0]], first[1..], n);
    assert first == [first[0]] + first[1..];
    KeyLinesNone(first[1..], n);
    assert first[0][..|Indent(n) + k|] == Indent(n) + k;
    assert first[0][2 * n] == k[0];
    assert KeyLineAt(first[0], n);
    assert KeyLines([first[0]], n) == [first[0]];
  }

  /** The text a single-line scalar is written with after `key: `. */
  function ScalarText(v: Value): string
    requires SingleLineScalar(v)
  {
    match v
    case Str(s) => s
    case Int(i) => IntToString(i)
    case Bool(b) => if b then "true" else "false"
  }

  predicate SingleLineScalar(v: Value) {
    (v.Str? && '\n' !in v.text) || v.Int? || v.Bool?
  }

  /** A mapping of single-line scalars renders as one `key: value` line per entry,
      in insertion order. */
  lemma {:induction false} FlatMapLayout(es: seq<(string, Value)>, n: nat)
    requires forall i :: 0 <= i < |es| ==> SingleLineScalar(es[i].1)
    ensures |Render(Map(es), n)| == |es|
    ensures forall i :: 0 <= i < |es| ==>
      Render(Map(es), n)[i] == Indent(n) + es[i].0 + ": " + ScalarText(es[i].1)
    decreases |es|
  {
    if |es| > 0 {
      FlatMapLayout(es[1..], n);
      ScalarEntryLine(es[0].0, es[0].1, n);
      RenderCons(es, n);
      forall i | 1 <= i < |es|
        ensures Render(Map(es), n)[i] == Indent(n) + es[i].0 + ": " + ScalarText(es[i].1)
      {
        assert es[1..][i - 1] == es[i];
      }
    }
  }

  /** Unfolding step: a non-empty mapping renders its first entry, then the rest. */
  lemma RenderCons(es: seq<(string, Value)>, n: nat)
    requires |es| > 0
    ensures Render(Map(es), n) == EntryLines(es[0].0, es[0].1, n) + Render(Map(es[1..]), n)
  {
  }

  /** Unfolding step for `FlatMapLayout`: a single-line scalar entry is one line. */
  lemma ScalarEntryLine(key: string, v: Value, n: nat)
    requires SingleLineScalar(v)
    ensures EntryLines(key, v, n) == [Indent(n) + key + ": " + ScalarText(v)]
  {
  }

  /** The inverse of `BlockLines`: drop the block indentation of depth `n` and
      rejoin the lines with line feeds. (A YAML reader's clip chomping would add
      a final line feed, so this is not what such a reader returns.) */
  function ReadBlock(lines: seq<string>, n: nat): string
    requires forall i :: 0 <= i < |lines| ==> StartsWith(lines[i], Indent(n + 1))
  {
    Join(seq(|lines|, i requires 0 <= i < |lines| => Dedent(lines[i], n + 1)), "\n")
  }

  function Dedent(line: string, n: nat): string
    requires StartsWith(line, Indent(n))
  {
    line[|Indent(n)|..]
  }

  /** A string holding a line feed is written as `key: |` followed by one line per
      line-feed-separated segment, blank segments included; undoing the layout
      with `ReadBlock` gives the string back unchanged. */
  lemma BlockScalarRoundTrip(key: string, s: string, n: nat)
    requires '\n' in s
    ensures var lines := EntryLines(key, Str(s), n);
      && |lines| == Count(s, '\n') + 2
      && lines[0] == Indent(n) + key + ": |"
      && (forall i :: 1 <= i < |lines| ==> StartsWith(lines[i], Indent(n + 1)))
      && ReadBlock(lines[1..], n) == s
  {
    var lines := EntryLines(key, Str(s), n);
    var segs := Split(s, '\n');
    SplitCount(s, '\n');
    JoinSplit(s, '\n');
    assert lines[1..] == BlockLines(segs, n);
    ReadBlockLines(segs, n);
  }

  /** Dedenting a block body gives back its segments. */
  lemma ReadBlockLines(segs: seq<string>, n: nat)
    ensures forall i :: 0 <= i < |segs| ==> StartsWith(BlockLines(segs, n)[i], Indent(n + 1))
    ensures ReadBlock(BlockLines(segs, n), n) == Join(segs, "\n")
  {
    var body := BlockLines(segs, n);
    forall i | 0 <= i < |body| ensures StartsWith(body[i], Indent(n + 1)) && Dedent(body[i], n + 1) == segs[i] {
      assert body[i] == Indent(n + 1) + segs[i];
    }
    assert seq(|body|, i requires 0 <= i < |body| => Dedent(body[i], n + 1)) == segs;
  }

  /** Booleans are spelled `true`/`false` as mapping values but `True`/`False`
      as list items. */
  lemma BoolSpelling(key: string, b: bool, n: nat)
    ensures EntryLines(key, Bool(b), n) == [Indent(n) + key + ": " + (if b then "true" else "false")]
    ensures ItemLines(Bool(b), n) == [Indent(n) + "- " + (if b then "True" else "False")]
  {
  }

  /** Stripping an indented line gives back its text when that text has no outer whitespace. */
  lemma StripIndented(n: nat, t: string, line: string)
    requires |t| > 0 && !IsSpace(t[0]) && !IsSpace(t[|t| - 1])
    requires line == Indent(n) + t
    ensures Strip(line) == t
  {
    assert AllSpaces(Indent(n));
    StripLeftSpaces(Indent(n), t);
    StripUntouched(t);
  }

  lemma RenderFirstEntry(fs: seq<(string, Value)>, n: nat)
    requires |fs| > 0
    ensures Render(Map(fs), n) == EntryLines(fs[0].0, fs[0].1, n) + RenderEntries(fs[1..], n)
  {
  }

  /** Unfolding step for `ListItemFirstField`. */
  lemma ItemLinesOfMap(item: Value, n: nat)
    requires item.Map? && |Render(item, n + 1)| > 0
    ensures ItemLines(item, n) == [Indent(n) + "- " + Strip(Render(item, n + 1)[0])] + Render(item, n + 1)[1..]
  {
  }

  lemma ConcatAssoc(a: string, b: string, c: string, d: string)
    ensures a + (b + c + d) == a + b + c + d
  {
  }

  /** In a list of mappings the first field of each mapping shares the `- ` line,
      and the remaining fields follow one level deeper. */
  lemma ListItemFirstField(fs: seq<(string, Value)>, n: nat)
    requires |fs| > 0 && fs[0].1.Str? && '\n' !in fs[0].1.text
    requires |fs[0].0| > 0 && !IsSpace(fs[0].0[0])
    requires |fs[0].1.text| > 0 && !IsSpace(fs[0].1.text[|fs[0].1.text| - 1])
    ensures ItemLines(Map(fs), n)
      == [Indent(n) + "- " + fs[0].0 + ": " + fs[0].1.text] + RenderEntries(fs[1..], n + 1)
  {
    var k := fs[0].0;
    var v := fs[0].1.text;
    var t := k + ": " + v;
    var head := EntryLines(k, fs[0].1, n + 1);
    assert head == [Indent(n + 1) + k + ": " + v];
    RenderFirstEntry(fs, n + 1);
    var sub := Render(Map(fs), n + 1);
    assert sub[0] == Indent(n + 1) + t;
    assert t[0] == k[0] && t[|t| - 1] == v[|v| - 1];
    StripIndented(n + 1, t, sub[0]);
    ItemLinesOfMap(Map(fs), n);
    assert |head| == 1;
    assert sub[1..] == RenderEntries(fs[1..], n + 1);
    ConcatAssoc(Indent(n) + "- ", k, ": ", v);
  }
}
