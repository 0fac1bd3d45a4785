// `parseMarkdown` (shared/functions.js:58-80): the `---` block at the head of a
// guide, split off by a regular expression, and read line by line into a
// dictionary of metadata.
module Frontmatter {
  import opened Wrappers
  import opened Text

  // ---------------------------------------------------------------------
  // One line of the header block
  // ---------------------------------------------------------------------

  predicate IsQuote(c: char) { c == '"' || c == '\'' }

  /** `.replace(/^["']|["']$/g, '')`: one quote character off the front, then one off the end. */
  function StripQuotes(v: string): string {
    var a := if |v| > 0 && IsQuote(v[0]) then v[1..] else v;
    if |a| > 0 && IsQuote(a[|a| - 1]) then a[..|a| - 1] else a
  }

  /** `const [key, ...valueParts] = line.split(':')` and the `if` after it: the trimmed key
      and the cleaned value when the line is recorded. */
  function ParseLine(line: string): Option<(string, string)> {
    var parts := Split(line, ':');
    var key, valueParts := parts[0], parts[1..];
    if key != "" && |valueParts| > 0 then Some((Trim(key), StripQuotes(Trim(Join(valueParts, ':')))))
    else None
  }

  /** At most one character comes off each end, and only a quote character. */
  lemma StripQuotesSpec(v: string)
    ensures var r := StripQuotes(v);
      exists i, j :: 0 <= i <= 1 && |v| - 1 <= j <= |v| && i <= j && r == v[i..j]
        && (i == 1 ==> IsQuote(v[0])) && (j == |v| - 1 ==> IsQuote(v[|v| - 1]))
    ensures |v| >= 2 && IsQuote(v[0]) && IsQuote(v[|v| - 1]) ==> StripQuotes(v) == v[1..|v| - 1]
  {
    var i := if |v| > 0 && IsQuote(v[0]) then 1 else 0;
    var a := v[i..];
    var j := if |a| > 0 && IsQuote(a[|a| - 1]) then |v| - 1 else |v|;
    assert StripQuotes(v) == v[i..j];
  }

  lemma StripQuotesNone(v: string)
    requires v != [] && !IsQuote(v[0]) && !IsQuote(v[|v| - 1])
    ensures StripQuotes(v) == v
  {
  }

  /** A line is recorded exactly when it has a `:` with something (blank or not) before the
      first one. The key is that text trimmed, so a blank key is stored as ""; the value is
      everything after the first `:`, later colons kept, trimmed and unquoted. */
  lemma ParseLineSpec(line: string)
    ensures ParseLine(line).Some? <==> ':' in line && IndexOf(line, ':') > 0
    ensures ParseLine(line).Some? ==>
      var k := IndexOf(line, ':');
      ParseLine(line).value == (Trim(line[..k]), StripQuotes(Trim(line[k + 1..])))
  {
    var parts := Split(line, ':');
    if ':' in line {
      SplitRest(line, ':');
    } else {
      IndexOfAbsent(line, ':');
    }
  }

  /** The line as a key, the first `:` and the rest: the key and the rest, both trimmed. */
  lemma ParseLineOf(key: string, rest: string)
    requires key != "" && ':' !in key
    ensures ParseLine(key + [':'] + rest) == Some((Trim(key), StripQuotes(Trim(rest))))
  {
    var l := key + [':'] + rest;
    IndexOfPrefix(key, ':', rest);
    assert l[|key|] == ':';
    assert l[..|key|] == key && l[|key| + 1..] == rest;
    ParseLineSpec(l);
  }

  /** Later colons stay in the value. */
  lemma ColonsStayInValue(l: string)
    requires l == "title: Bitcoin: A Primer"
    ensures ParseLine(l) == Some(("title", "Bitcoin: A Primer"))
  {
    assert l == "title" + [':'] + " Bitcoin: A Primer";
    ParseLineOf("title", " Bitcoin: A Primer");
    TrimTitleLine();
  }

  lemma TrimTitleLine()
    ensures Trim("title") == "title" && StripQuotes(Trim(" Bitcoin: A Primer")) == "Bitcoin: A Primer"
  {
    TrimUntouched("title");
    TrimValue(" Bitcoin: A Primer", "Bitcoin: A Primer");
  }

  /** A value written after one blank comes out as written. */
  lemma TrimValue(rest: string, v: string)
    requires v != [] && rest == [' '] + v
    requires !IsWhitespace(v[0]) && !IsWhitespace(v[|v| - 1]) && !IsQuote(v[0]) && !IsQuote(v[|v| - 1])
    ensures StripQuotes(Trim(rest)) == v
  {
    TrimLeadingBlank(' ', v);
    StripQuotesNone(v);
  }

  /** A key of blanks is not empty before trimming, so the line is stored under "". */
  lemma BlankKeyIsStored(l: string)
    requires l == "  : x"
    ensures ParseLine(l) == Some(("", "x"))
  {
    assert l == "  " + [':'] + " x";
    ParseLineOf("  ", " x");
    TrimBlankLine();
  }

  lemma TrimBlankLine()
    ensures Trim("  ") == "" && StripQuotes(Trim(" x")) == "x"
  {
    assert LeadingWs("  ") == 2;
    TrimValue(" x", "x");
  }

  /** A line starting with `:` has an empty key and is skipped. */
  lemma EmptyKeyIsSkipped()
    ensures ParseLine(": x") == None
  {
    ParseLineSpec(": x");
  }

  // ---------------------------------------------------------------------
  // The dictionary
  // ---------------------------------------------------------------------

  /** `frontmatter[key] = value` on a plain object: assigning a string to "__proto__"
      goes to the prototype setter, which ignores it, so no entry appears. */
  function Record(fm: map<string, string>, line: string): map<string, string> {
    match ParseLine(line)
    case None => fm
    case Some((k, v)) => if k == "__proto__" then fm else fm[k := v]
  }

  /** The dictionary after the lines have been recorded in order. */
  function FrontmatterOf(lines: seq<string>): map<string, string> {
    if lines == [] then map[] else Record(FrontmatterOf(lines[..|lines| - 1]), lines[|lines| - 1])
  }

  /** The `forEach` over the header lines. */
  method CollectFrontmatter(lines: seq<string>) returns (fm: map<string, string>)
    ensures fm == FrontmatterOf(lines)
  {
    fm := map[];
    var i := 0;
    while i < |lines|
      invariant 0 <= i <= |lines|
      invariant fm == FrontmatterOf(lines[..i])
    {
      assert lines[..i + 1][..i] == lines[..i];
      fm := Record(fm, lines[i]);
      i := i + 1;
    }
    assert lines[..i] == lines;
  }

  /** The line defines `k`. */
  predicate RecordsKey(line: string, k: string) {
    ParseLine(line).Some? && ParseLine(line).value.0 == k
  }

  lemma RecordKeys(fm: map<string, string>, line: string, k: string)
    ensures k in Record(fm, line) <==> k in fm || (RecordsKey(line, k) && k != "__proto__")
  {
  }

  /** A key is present exactly when some line records it and it is not "__proto__". */
  lemma {:induction false} FrontmatterKeys(lines: seq<string>, k: string)
    ensures k in FrontmatterOf(lines) <==>
      k != "__proto__" && exists i :: 0 <= i < |lines| && RecordsKey(lines[i], k)
  {
    if lines != [] {
      var init, last := lines[..|lines| - 1], lines[|lines| - 1];
      FrontmatterKeys(init, k);
      assert FrontmatterOf(lines) == Record(FrontmatterOf(init), last);
      RecordKeys(FrontmatterOf(init), last, k);
      assert lines[|lines| - 1] == last;
      if exists i :: 0 <= i < |lines| && RecordsKey(lines[i], k) {
        var i :| 0 <= i < |lines| && RecordsKey(lines[i], k);
        if i < |init| {
          assert RecordsKey(init[i], k);
        }
      }
      if exists i :: 0 <= i < |init| && RecordsKey(init[i], k) {
        var i :| 0 <= i < |init| && RecordsKey(init[i], k);
        assert lines[i] == init[i];
      }
    }
  }

  /** A later line with the same key overwrites an earlier one: the value is the last line's. */
  lemma {:induction false} LastLineWins(lines: seq<string>, i: nat, k: string, v: string)
    requires i < |lines| && ParseLine(lines[i]) == Some((k, v)) && k != "__proto__"
    requires forall j :: i < j < |lines| ==> !RecordsKey(lines[j], k)
    ensures k in FrontmatterOf(lines) && FrontmatterOf(lines)[k] == v
  {
    var init := lines[..|lines| - 1];
    if i < |lines| - 1 {
      LastLineWins(init, i, k, v);
    }
  }

  // ---------------------------------------------------------------------
  // The `---` block: /^---\s*\n([\s\S]*?)\n---\s*\n([\s\S]*)$/
  // ---------------------------------------------------------------------

  /** Index of the last '\n' in `s`, if any. */
  function LastNewline(s: string): (r: Option<nat>)
    ensures r.Some? ==> r.value < |s| && s[r.value] == '\n' && forall j :: r.value < j < |s| ==> s[j] != '\n'
    ensures r.None? ==> forall j :: 0 <= j < |s| ==> s[j] != '\n'
  {
    if s == [] then None
    else if s[|s| - 1] == '\n' then Some(|s| - 1)
    else LastNewline(s[..|s| - 1])
  }

  /** `\n---\s*\n` at `q`: the greedy `\s*` backs off to the last '\n' of the whitespace
      after the dashes, so the content starts after that '\n'. */
  function ClosingAt(text: string, q: nat): (r: Option<nat>)
    ensures r.Some? ==> q + 4 < r.value <= |text|
  {
    if !OccursAt(text, "\n---", q) then None
    else
      var after := text[q + 4..];
      match LastNewline(after[..LeadingWs(after)])
      case None => None
      case Some(k) => Some(q + 4 + k + 1)
  }

  /** The lazy group: the first `q` from `p` on where the closing delimiter matches. */
  function FindClosing(text: string, p: nat): (r: Option<(nat, nat)>)
    ensures r.Some? ==> p <= r.value.0 < |text| && ClosingAt(text, r.value.0) == Some(r.value.1)
    ensures r.Some? ==> forall q :: p <= q < r.value.0 ==> ClosingAt(text, q).None?
    ensures r.None? ==> forall q :: p <= q < |text| ==> ClosingAt(text, q).None?
    decreases |text| - p
  {
    if p >= |text| then None
    else match ClosingAt(text, p)
      case Some(c) => Some((p, c))
      case None => FindClosing(text, p + 1)
  }

  /** Where the header block and the content lie: `text[header.0..header.1]` and `text[content..]`. */
  datatype Block = Block(headerStart: nat, headerEnd: nat, content: nat)

  /** The match, as the regular expression's backtracking finds it. The opening `^---\s*\n`
      first ends at the last '\n' of the whitespace after the dashes; if no closing follows,
      it backs off to the '\n' before, and the only new closing that can then match is the
      one at the '\n' where the first attempt ended, leaving an all-blank header. */
  function SplitFrontmatter(text: string): Option<Block> {
    if !StartsWith(text, "---") then None
    else
      match LastNewline(OpeningRun(text))
      case None => None
      case Some(last) => AfterOpening(text, OpeningRun(text), last)
  }

  /** The whitespace `\s*` takes right after the opening dashes. */
  function OpeningRun(text: string): string
    requires |text| >= 3
  {
    text[3..3 + LeadingWs(text[3..])]
  }

  /** The rest of the match once the opening's first attempt has ended at the '\n' at `3 + last`. */
  function AfterOpening(text: string, run: string, last: nat): Option<Block>
    requires last < |run|
  {
    var p := 3 + last + 1;
    match FindClosing(text, p)
    case Some((q, c)) => Some(Block(p, q, c))
    case None =>
      match LastNewline(run[..last])
      case None => None
      case Some(prev) =>
        match ClosingAt(text, 3 + last)
        case None => None
        case Some(c) => Some(Block(3 + prev + 1, 3 + last, c))
  }

  /** A found split lies inside the text, in order. */
  lemma SplitInRange(text: string)
    ensures var sp := SplitFrontmatter(text);
      sp.Some? ==> sp.value.headerStart <= sp.value.headerEnd < sp.value.content <= |text|
  {
    if StartsWith(text, "---") {
      var run := OpeningRun(text);
      if LastNewline(run).Some? {
        var last := LastNewline(run).value;
        if FindClosing(text, 3 + last + 1).None? && LastNewline(run[..last]).Some? {
          assert LastNewline(run[..last]).value < last;
        }
      }
    }
  }

  datatype Markdown = Markdown(frontmatter: map<string, string>, content: string)

  /** `parseMarkdown(text)`. */
  function MarkdownOf(text: string): Markdown {
    match SplitFrontmatter(text)
    case None => Markdown(map[], text)
    case Some(sp) =>
      SplitInRange(text);
      Markdown(FrontmatterOf(Split(text[sp.headerStart..sp.headerEnd], '\n')), text[sp.content..])
  }

  /** `parseMarkdown`, with the `forEach` that fills the dictionary. */
  method ParseMarkdown(text: string) returns (fm: map<string, string>, content: string)
    ensures Markdown(fm, content) == MarkdownOf(text)
  {
    var sp := SplitFrontmatter(text);
    if sp.None? {
      return map[], text;
    }
    SplitInRange(text);
    var lines := Split(text[sp.value.headerStart..sp.value.headerEnd], '\n');
    fm := CollectFrontmatter(lines);
    content := text[sp.value.content..];
  }

  /** Text that does not have the block's shape comes back whole, with no metadata;
      in particular any text that does not begin with three dashes. */
  lemma NoBlockKeepsText(text: string)
    ensures SplitFrontmatter(text).None? ==> MarkdownOf(text) == Markdown(map[], text)
    ensures !StartsWith(text, "---") ==> MarkdownOf(text) == Markdown(map[], text)
  {
  }

  /** The content is always a suffix of the text. */
  lemma ContentIsSuffix(text: string)
    ensures exists c :: 0 <= c <= |text| && MarkdownOf(text).content == text[c..]
  {
    SplitInRange(text);
    match SplitFrontmatter(text)
    case None => assert text[0..] == text;
    case Some(sp) =>
  }

  /** "---\nt: X\n---\nB" splits into the one-line header "t: X" and the content "B". */
  lemma BlockExample(text: string)
    requires text == "---\nt: X\n---\nB"
    ensures MarkdownOf(text) == Markdown(map["t" := "X"], "B")
  {
    BlockExampleSplit(text);
    MarkdownOfBlock(text, Block(4, 8, 13));
    BlockExampleParts(text);
    SingleLine(text[4..8]);
    ExampleHeaderLine(text[4..8]);
  }

  lemma BlockExampleParts(text: string)
    requires text == "---\nt: X\n---\nB"
    ensures text[4..8] == "t: X" && text[13..] == "B"
  {
  }

  /** Once the block is found, the dictionary comes from its header lines and the content is what follows it. */
  lemma MarkdownOfBlock(text: string, b: Block)
    requires SplitFrontmatter(text) == Some(b)
    ensures b.headerStart <= b.headerEnd < b.content <= |text|
    ensures MarkdownOf(text) == Markdown(FrontmatterOf(Split(text[b.headerStart..b.headerEnd], '\n')), text[b.content..])
  {
    SplitInRange(text);
  }

  /** A header of one line is recorded as that line. */
  lemma SingleLine(l: string)
    requires '\n' !in l
    ensures FrontmatterOf(Split(l, '\n')) == Record(map[], l)
  {
    IndexOfAbsent(l, '\n');
    assert Split(l, '\n') == [l];
    assert FrontmatterOf([l]) == Record(FrontmatterOf([]), l);
  }

  lemma BlockExampleSplit(text: string)
    requires text == "---\nt: X\n---\nB"
    ensures SplitFrontmatter(text) == Some(Block(4, 8, 13))
  {
    BlockExampleOpening(text);
    BlockExampleSearch(text);
    FirstAttemptMatches(text, 0, 8, 13);
  }

  /** When a closing follows the newline the opening first ends at, that is the match. */
  lemma FirstAttemptMatches(text: string, last: nat, q: nat, c: nat)
    requires StartsWith(text, "---")
    requires LastNewline(OpeningRun(text)) == Some(last)
    requires FindClosing(text, 3 + last + 1) == Some((q, c))
    ensures SplitFrontmatter(text) == Some(Block(3 + last + 1, q, c))
  {
    OpeningDecides(text, last);
  }

  /** Once the opening's first attempt ends at `3 + last`, the rest of the match decides. */
  lemma OpeningDecides(text: string, last: nat)
    requires StartsWith(text, "---")
    requires LastNewline(OpeningRun(text)) == Some(last)
    ensures SplitFrontmatter(text) == AfterOpening(text, OpeningRun(text), last)
  {
  }

  lemma BlockExampleOpening(text: string)
    requires text == "---\nt: X\n---\nB"
    ensures StartsWith(text, "---") && LastNewline(OpeningRun(text)) == Some(0)
  {
    var tail := text[3..];
    assert tail[0] == '\n' && tail[1] == 't';
    assert LeadingWs(tail) == 1;
    assert text[3..4] == "\n";
  }

  lemma BlockExampleSearch(text: string)
    requires text == "---\nt: X\n---\nB"
    ensures FindClosing(text, 4) == Some((8, 13))
  {
    BlockExampleClosing(text);
    assert FindClosing(text, 8) == Some((8, 13));
    assert text[7] != '\n' && text[6] != '\n' && text[5] != '\n' && text[4] != '\n';
    assert FindClosing(text, 7) == Some((8, 13));
    assert FindClosing(text, 6) == Some((8, 13));
    assert FindClosing(text, 5) == Some((8, 13));
  }

  lemma BlockExampleClosing(text: string)
    requires text == "---\nt: X\n---\nB"
    ensures ClosingAt(text, 8) == Some(13)
  {
    assert OccursAt(text, "\n---", 8);
    var after := text[12..];
    assert after == "\nB";
    assert LeadingWs(after) == 1;
    assert after[..1] == "\n";
    assert LastNewline(after[..1]) == Some(0);
  }

  lemma ExampleHeaderLine(l: string)
    requires l == "t: X"
    ensures Record(map[], l) == map["t" := "X"]
  {
    assert l == "t" + [':'] + " X";
    ParseLineOf("t", " X");
    TrimExampleLine();
  }

  lemma TrimExampleLine()
    ensures Trim("t") == "t" && StripQuotes(Trim(" X")) == "X"
  {
    TrimUntouched("t");
    TrimValue(" X", "X");
  }

  /** "---\n\n---\nB": no closing follows the blank line the opening first ends at, so the
      opening backs off by one '\n', the header is empty and the content is "B". */
  lemma BacktrackExample(text: string)
    requires text == "---\n\n---\nB"
    ensures SplitFrontmatter(text) == Some(Block(4, 4, 9))
    ensures MarkdownOf(text) == Markdown(map[], "B")
  {
    BacktrackOpening(text);
    BacktrackNoLaterClosing(text);
    BacktrackClosing(text);
    assert text[4..4] == "";
    SingleLine("");
    EmptyLineSkipped();
    assert text[9..] == "B";
  }

  lemma BacktrackOpening(text: string)
    requires text == "---\n\n---\nB"
    ensures StartsWith(text, "---") && LeadingWs(text[3..]) == 2 && OpeningRun(text) == text[3..5]
    ensures LastNewline(text[3..5]) == Some(1) && LastNewline(text[3..5][..1]) == Some(0)
  {
    var tail := text[3..];
    assert tail[0] == '\n' && tail[1] == '\n' && tail[2] == '-';
    assert text[3..5] == "\n\n";
    assert text[3..5][..1] == "\n";
  }

  lemma BacktrackNoLaterClosing(text: string)
    requires text == "---\n\n---\nB"
    ensures FindClosing(text, 5) == None
  {
    assert text[5] != '\n' && text[6] != '\n' && text[7] != '\n' && text[9] != '\n';
    assert !OccursAt(text, "\n---", 8);
    assert FindClosing(text, 9) == None;
    assert FindClosing(text, 8) == None;
    assert FindClosing(text, 7) == None;
    assert FindClosing(text, 6) == None;
  }

  lemma BacktrackClosing(text: string)
    requires text == "---\n\n---\nB"
    ensures ClosingAt(text, 4) == Some(9)
  {
    assert OccursAt(text, "\n---", 4);
    var after := text[8..];
    assert after == "\nB";
    assert LeadingWs(after) == 1;
    assert after[..1] == "\n";
    assert LastNewline(after[..1]) == Some(0);
  }

  /** An empty header line has an empty key and records nothing. */
  lemma EmptyLineSkipped()
    ensures Record(map[], "") == map[]
  {
    ParseLineSpec("");
  }
}
