/** The Markdown fact store of memory.rs: printing, parsing, appending and compaction. */
module Memory {
  import opened Wrappers
  import opened Text

  const MAX_FACTS := 200
  const COMPACT_KEEP := 100

  datatype Fact = Fact(timestamp: string, tags: seq<string>, content: string)

  // ---------------------------------------------------------------- printing

  /** The backquoted tags, each followed by a space, and the content. */
  function Tagged(tags: seq<string>, content: string): string {
    if tags == [] then content else "`" + Join(tags, "` `") + "` " + content
  }

  function ToMarkdownLine(f: Fact): string {
    "- [" + f.timestamp + "] " + Tagged(f.tags, f.content)
  }

  const TITLE := "# Oxcer Memory"
  const GENERATED := "<!-- Auto-generated by Oxcer. "
  const DO_NOT_EDIT := "Do not edit while agent is running. -->"
  const NOTICE := GENERATED + DO_NOT_EDIT
  const NO_FACTS := "_No facts recorded yet._"
  const FACTS_HEADING := "## Facts"

  /** The lines of the file. */
  function FileLines(facts: seq<Fact>): seq<string> {
    if facts == [] then [TITLE, "", NOTICE, "", NO_FACTS]
    else [TITLE, "", NOTICE, "", FACTS_HEADING, ""] + FactLines(facts)
  }

  function FactLines(facts: seq<Fact>): seq<string> {
    seq(|facts|, i requires 0 <= i < |facts| => ToMarkdownLine(facts[i]))
  }

  /** Every line, ended by a line feed. */
  function Ended(lines: seq<string>): string {
    if lines == [] then "" else lines[0] + "\n" + Ended(lines[1..])
  }

  function Markdown(facts: seq<Fact>): string {
    Ended(FileLines(facts))
  }

  lemma {:induction false} EndedAppends(lines: seq<string>, line: string)
    ensures Ended(lines + [line]) == Ended(lines) + line + "\n"
  {
    if lines != [] {
      EndedAppends(lines[1..], line);
      assert (lines + [line])[1..] == lines[1..] + [line];
      assert Ended(lines + [line]) == lines[0] + "\n" + (Ended(lines[1..]) + line + "\n");
    } else {
      assert ([] + [line])[1..] == [];
    }
  }

  method PushLine(out: string, line: string, ghost lines: seq<string>) returns (longer: string)
    requires out == Ended(lines)
    ensures longer == Ended(lines + [line])
  {
    longer := out + line;
    longer := longer + "\n";
    EndedAppends(lines, line);
  }

  method ToMarkdown(facts: seq<Fact>) returns (out: string)
    ensures out == Markdown(facts)
  {
    ghost var head: seq<string> := [];
    out := PushLine("", TITLE, head);
    out := PushLine(out, "", head + [TITLE]);
    out := PushLine(out, NOTICE, head + [TITLE] + [""]);
    out := PushLine(out, "", head + [TITLE] + [""] + [NOTICE]);
    head := [TITLE, "", NOTICE, ""];
    assert [] + [TITLE] + [""] + [NOTICE] + [""] == head;
    if facts == [] {
      out := PushLine(out, NO_FACTS, head);
      assert head + [NO_FACTS] == FileLines(facts);
      return;
    }
    out := PushLine(out, FACTS_HEADING, head);
    out := PushLine(out, "", head + [FACTS_HEADING]);
    assert head + [FACTS_HEADING] + [""] == [TITLE, "", NOTICE, "", FACTS_HEADING, ""];
    head := [TITLE, "", NOTICE, "", FACTS_HEADING, ""];
    assert head + FactLines(facts[..0]) == head;
    for i := 0 to |facts|
      invariant out == Ended(head + FactLines(facts[..i]))
    {
      var line := ToMarkdownLine(facts[i]);
      out := PushLine(out, line, head + FactLines(facts[..i]));
      assert (head + FactLines(facts[..i])) + [line] == head + FactLines(facts[..i + 1]);
    }
    assert facts[..|facts|] == facts;
  }

  // ---------------------------------------------------------------- parsing

  function Unreturned(line: string): string {
    if line != "" && line[|line| - 1] == '\r' then line[..|line| - 1] else line
  }

  /** `str::lines`: split at line feeds, dropping a carriage return before each. */
  function Lines(s: string): seq<string> {
    if s == "" then []
    else match Find(s, '\n')
      case None => [s]
      case Some(i) => [Unreturned(s[..i])] + Lines(s[i + 1..])
  }

  /** Leading backquoted tags, and what follows them. */
  function SplitLeadingTags(s: string): (seq<string>, string)
    decreases |s|
  {
    var trimmed := TrimStart(s);
    if trimmed == "" || trimmed[0] != '`' || Find(trimmed[1..], '`').None? then ([], s)
    else
      var inner := trimmed[1..];
      var close := Find(inner, '`').value;
      var (tags, content) := SplitLeadingTags(TrimStart(inner[close + 1..]));
      ([inner[..close]] + tags, content)
  }

  function ParseLine(raw: string): Option<Fact> {
    var line := Trim(raw);
    if !StartsWith(line, "- [") then None
    else
      var rest := line[3..];
      match Find(rest, ']')
      case None => None
      case Some(end) =>
        var (tags, content) := SplitLeadingTags(Trim(rest[end + 1..]));
        Some(Fact(rest[..end], tags, content))
  }

  function FactOf(line: string): seq<Fact> {
    match ParseLine(line) case None => [] case Some(f) => [f]
  }

  /** What `parse` finds in each line, in order. */
  function EachLine(lines: seq<string>, parse: string -> seq<Fact>): seq<Fact> {
    if lines == [] then [] else parse(lines[0]) + EachLine(lines[1..], parse)
  }

  function ParseLines(lines: seq<string>): seq<Fact> {
    EachLine(lines, FactOf)
  }

  function Parsed(content: string): seq<Fact> {
    ParseLines(Lines(content))
  }

  /** Reading one tag off the front. */
  lemma TagSplits(tag: string, after: string)
    requires '`' !in tag
    ensures var (more, content) := SplitLeadingTags(TrimStart(after));
            SplitLeadingTags("`" + tag + "`" + after) == ([tag] + more, content)
  {
    var s := "`" + tag + "`" + after;
    assert TrimStart(s) == s;
    assert s[1..] == tag + ['`'] + after;
    FindSplits(tag, '`', after);
    assert s[1..][..|tag|] == tag && s[1..][|tag| + 1..] == after;
  }

  lemma NoTagSplits(s: string)
    requires var t := TrimStart(s); t == "" || t[0] != '`' || Find(t[1..], '`').None?
    ensures SplitLeadingTags(s) == ([], s)
  {
  }

  method SplitTags(s: string) returns (tags: seq<string>, content: string)
    ensures (tags, content) == SplitLeadingTags(s)
  {
    tags := [];
    var rest := s;
    while true
      invariant SplitLeadingTags(s).0 == tags + SplitLeadingTags(rest).0
      invariant SplitLeadingTags(s).1 == SplitLeadingTags(rest).1
      decreases |rest|
    {
      var trimmed := TrimStart(rest);
      if trimmed != "" && trimmed[0] == '`' {
        var inner := trimmed[1..];
        var close := Find(inner, '`');
        if close.Some? {
          var tag := inner[..close.value];
          ghost var more := SplitLeadingTags(TrimStart(inner[close.value + 1..])).0;
          assert SplitLeadingTags(rest).0 == [tag] + more;
          assert tags + ([tag] + more) == (tags + [tag]) + more;
          tags := tags + [tag];
          rest := TrimStart(inner[close.value + 1..]);
          continue;
        }
      }
      break;
    }
    NoTagSplits(rest);
    content := rest;
    assert tags + [] == tags;
  }

  method ParseOne(raw: string) returns (fact: Option<Fact>)
    ensures fact == ParseLine(raw)
  {
    fact := None;
    var line := Trim(raw);
    if StartsWith(line, "- [") {
      var rest := line[3..];
      var end := Find(rest, ']');
      if end.Some? {
        var tags, text := SplitTags(Trim(rest[end.value + 1..]));
        fact := Some(Fact(rest[..end.value], tags, text));
      }
    }
  }

  lemma ParseNext(facts: seq<Fact>, lines: seq<string>, i: nat)
    requires i < |lines|
    ensures facts + ParseLines(lines[i..]) == (facts + FactOf(lines[i])) + ParseLines(lines[i + 1..])
  {
    assert lines[i..][1..] == lines[i + 1..];
  }

  method ParseMarkdownFacts(content: string) returns (facts: seq<Fact>)
    ensures facts == Parsed(content)
  {
    facts := [];
    var lines := Lines(content);
    for i := 0 to |lines|
      invariant facts + ParseLines(lines[i..]) == ParseLines(lines)
    {
      ParseNext(facts, lines, i);
      var fact := ParseOne(lines[i]);
      if fact.Some? {
        facts := facts + [fact.value];
      } else {
        assert facts + [] == facts;
      }
    }
    assert lines[|lines|..] == [];
  }

  // ---------------------------------------------------------------- what survives a save and a reload

  predicate OpensTag(s: string) {
    s != "" && s[0] == '`' && '`' in s[1..]
  }

  /** A fact whose parts keep out of each other's way in the file. */
  predicate Canonical(f: Fact) {
    && ']' !in f.timestamp && '\n' !in f.timestamp
    && CleanTags(f.tags)
    && Trimmed(f.content) && '\n' !in f.content && !OpensTag(f.content)
  }

  /** Tags and content as they stand in a trimmed line. */
  function Body(tags: seq<string>, content: string): string {
    if tags == [] then content
    else
      var rest := Body(tags[1..], content);
      "`" + tags[0] + "`" + if rest == "" then "" else " " + rest
  }

  lemma {:induction false} BodyIsTrimmed(tags: seq<string>, content: string)
    requires Trimmed(content)
    ensures Trimmed(Body(tags, content))
    ensures tags != [] ==> Body(tags, content) != "" && Body(tags, content)[0] == '`'
  {
    if tags != [] {
      BodyIsTrimmed(tags[1..], content);
    }
  }

  lemma TrimStartKeeps(s: string)
    requires s == "" || !IsSpace(s[0])
    ensures TrimStart(s) == s && TrimStart(" " + s) == s
  {
    assert (" " + s)[1..] == s;
  }

  predicate Unquoted(tags: seq<string>) {
    forall t :: t in tags ==> '`' !in t
  }

  lemma {:induction false} BodySplits(tags: seq<string>, content: string)
    requires Trimmed(content) && !OpensTag(content) && Unquoted(tags)
    ensures SplitLeadingTags(Body(tags, content)) == (tags, content)
  {
    if tags == [] {
      TrimStartKeeps(content);
      NoTagSplits(content);
    } else {
      assert Unquoted(tags[1..]) && '`' !in tags[0];
      BodySplits(tags[1..], content);
      FirstTagSplits(tags, content);
      assert [tags[0]] + tags[1..] == tags;
    }
  }

  lemma FirstTagSplits(tags: seq<string>, content: string)
    requires tags != [] && '`' !in tags[0] && Trimmed(content)
    ensures var (more, c) := SplitLeadingTags(Body(tags[1..], content));
            SplitLeadingTags(Body(tags, content)) == ([tags[0]] + more, c)
  {
    var rest := Body(tags[1..], content);
    BodyIsTrimmed(tags[1..], content);
    TrimStartKeeps(rest);
    TagSplits(tags[0], if rest == "" then "" else " " + rest);
  }

  lemma Requote(tag: string, more: string, content: string)
    ensures "`" + (tag + "` `" + more) + "` " + content
         == ("`" + tag + "`") + (" " + ("`" + more + "` " + content))
  {
    assert "` `" == "`" + (" " + "`");
  }

  /** The printed tags and content are the trimmed form, up to one trailing space. */
  lemma {:induction false} BodyIsPrinted(tags: seq<string>, content: string)
    ensures Tagged(tags, content) == Body(tags, content) + if tags != [] && content == "" then " " else ""
    ensures tags != [] ==> Body(tags, content) != ""
  {
    if |tags| == 1 {
      assert tags[1..] == [];
      LastTagIsPrinted(tags[0], content);
    } else if tags != [] {
      var rest := Body(tags[1..], content);
      BodyIsPrinted(tags[1..], content);
      Requote(tags[0], Join(tags[1..], "` `"), content);
      Associates("`" + tags[0] + "`", " " + rest, if content == "" then " " else "");
      Associates(" ", rest, if content == "" then " " else "");
    } else {
      assert content + "" == content;
    }
  }

  lemma LastTagIsPrinted(tag: string, content: string)
    ensures "`" + tag + "` " + content ==
            ("`" + tag + "`" + if content == "" then "" else " " + content) + if content == "" then " " else ""
  {
    assert "` " == "`" + " ";
  }

  lemma AfterStamp(timestamp: string, text: string)
    ensures "- [" + timestamp + "] " + text == ("- [" + timestamp + "]") + (" " + text)
  {
    assert "] " == "]" + " ";
  }

  lemma PrintedLine(f: Fact)
    ensures var body := Body(f.tags, f.content);
            ToMarkdownLine(f) ==
            ("- [" + f.timestamp + "]" + Spaced(body))
            + if body == "" || (f.tags != [] && f.content == "") then " " else ""
  {
    var head, body := "- [" + f.timestamp + "]", Body(f.tags, f.content);
    var pad := if f.tags != [] && f.content == "" then " " else "";
    BodyIsPrinted(f.tags, f.content);
    AfterStamp(f.timestamp, Tagged(f.tags, f.content));
    Associates(" ", body, pad);
    Associates(head, " " + body, pad);
    if body == "" {
      assert " " + body + pad == " " && head + "" == head;
    }
  }

  lemma HeadParses(raw: string, timestamp: string, after: string)
    requires Trim(raw) == "- [" + timestamp + "]" + after && ']' !in timestamp
    ensures var (tags, content) := SplitLeadingTags(Trim(after));
            ParseLine(raw) == Some(Fact(timestamp, tags, content))
  {
    var line := Trim(raw);
    assert line[..3] == "- [" && line[3..] == timestamp + [']'] + after;
    FindSplits(timestamp, ']', after);
    assert line[3..][..|timestamp|] == timestamp && line[3..][|timestamp| + 1..] == after;
  }

  /** A text after one space, or nothing at all. */
  function Spaced(body: string): string {
    if body == "" then "" else " " + body
  }

  lemma TimedIsTrimmed(timestamp: string, body: string)
    requires Trimmed(body)
    ensures Trimmed("- [" + timestamp + "]" + Spaced(body))
  {
    var line := "- [" + timestamp + "]" + Spaced(body);
    assert line[0] == '-';
    if body == "" {
      assert line[|line| - 1] == ']';
    } else {
      assert line[|line| - 1] == body[|body| - 1];
    }
  }

  lemma LineTrims(f: Fact)
    requires Canonical(f)
    ensures var after := Spaced(Body(f.tags, f.content));
            Trim(ToMarkdownLine(f)) == "- [" + f.timestamp + "]" + after && Trim(after) == Body(f.tags, f.content)
  {
    PrintedLine(f);
    var body := Body(f.tags, f.content);
    BodyIsTrimmed(f.tags, f.content);
    TrimPadded(if body == "" then "" else " ", body);
    TimedIsTrimmed(f.timestamp, body);
    var pad := if body == "" || (f.tags != [] && f.content == "") then " " else "";
    TrimPadded(pad, "- [" + f.timestamp + "]" + Spaced(body));
  }

  lemma LineParses(f: Fact)
    requires Canonical(f)
    ensures ParseLine(ToMarkdownLine(f)) == Some(f)
  {
    var body := Body(f.tags, f.content);
    LineTrims(f);
    HeadParses(ToMarkdownLine(f), f.timestamp, Spaced(body));
    BodySplits(f.tags, f.content);
  }

  // ---------------------------------------------------------------- whatever is parsed is canonical

  predicate CleanTags(tags: seq<string>) {
    forall t :: t in tags ==> '`' !in t && '\n' !in t
  }

  /** What follows the first tag of a clean line is clean again, and so is the tag. */
  lemma AfterTagIsClean(s: string, inner: string, close: nat)
    requires Trimmed(s) && '\n' !in s && s != "" && inner == s[1..] && Find(inner, '`') == Some(close)
    ensures '`' !in inner[..close] && '\n' !in inner[..close]
    ensures var rest := TrimStart(inner[close + 1..]); Trimmed(rest) && '\n' !in rest && |rest| < |s|
  {
    var after := inner[close + 1..];
    var rest := TrimStart(after);
    TrimStartIsSuffix(after);
    assert after == s[close + 2..];
    assert rest == s[|s| - |rest|..];
  }

  lemma TrimmedTrims(s: string)
    requires Trimmed(s)
    ensures TrimStart(s) == s
  {
  }

  lemma {:induction false} SplitIsCanonical(s: string)
    requires Trimmed(s) && '\n' !in s
    ensures var (tags, content) := SplitLeadingTags(s);
            CleanTags(tags) && Trimmed(content) && '\n' !in content && !OpensTag(content)
    decreases |s|
  {
    TrimmedTrims(s);
    if s == "" || s[0] != '`' || Find(s[1..], '`').None? {
      NoTagSplits(s);
    } else {
      var inner := s[1..];
      var close := Find(inner, '`').value;
      var rest := TrimStart(inner[close + 1..]);
      AfterTagIsClean(s, inner, close);
      SplitIsCanonical(rest);
      var (tags, content) := SplitLeadingTags(rest);
      assert SplitLeadingTags(s) == ([inner[..close]] + tags, content);
    }
  }

  lemma LineIsCanonical(raw: string)
    requires '\n' !in raw
    ensures ParseLine(raw).Some? ==> Canonical(ParseLine(raw).value)
  {
    var line := Trim(raw);
    TrimKeepsOut(raw, '\n');
    if StartsWith(line, "- [") && Find(line[3..], ']').Some? {
      var rest := line[3..];
      var end := Find(rest, ']').value;
      var after := Trim(rest[end + 1..]);
      TrimKeepsOut(rest[end + 1..], '\n');
      TrimIsTrimmed(rest[end + 1..]);
      SplitIsCanonical(after);
    }
  }

  lemma {:induction false} LinesHaveNoFeeds(s: string)
    ensures forall l :: l in Lines(s) ==> '\n' !in l
    decreases |s|
  {
    if s != "" && Find(s, '\n').Some? {
      LinesHaveNoFeeds(s[Find(s, '\n').value + 1..]);
    }
  }

  lemma {:induction false} ParsedLinesAreCanonical(lines: seq<string>)
    requires forall l :: l in lines ==> '\n' !in l
    ensures forall f :: f in ParseLines(lines) ==> Canonical(f)
  {
    if lines != [] {
      assert lines[0] in lines;
      LineIsCanonical(lines[0]);
      ParsedLinesAreCanonical(lines[1..]);
    }
  }

  /** Whatever text is parsed, the facts are canonical. */
  lemma ParsedIsCanonical(content: string)
    ensures forall f :: f in Parsed(content) ==> Canonical(f)
  {
    LinesHaveNoFeeds(content);
    ParsedLinesAreCanonical(Lines(content));
  }

  // ---------------------------------------------------------------- save and reload

  lemma EndedSplits(line: string, rest: string)
    requires OneLine(line)
    ensures Lines(line + "\n" + rest) == [line] + Lines(rest)
  {
    var s := line + "\n" + rest;
    assert s == line + ['\n'] + rest;
    FindSplits(line, '\n', rest);
    assert s[..|line|] == line && s[|line| + 1..] == rest;
  }

  lemma {:induction false} LinesOfEnded(lines: seq<string>)
    requires forall i :: 0 <= i < |lines| ==> OneLine(lines[i])
    ensures Lines(Ended(lines)) == lines
  {
    if lines != [] {
      LinesOfEnded(lines[1..]);
      EndedSplits(lines[0], Ended(lines[1..]));
      assert lines[0] + "\n" + Ended(lines[1..]) == Ended(lines);
      assert [lines[0]] + lines[1..] == lines;
    }
  }

  lemma {:induction false} PrintedIsOneLine(f: Fact)
    requires Canonical(f)
    ensures OneLine(ToMarkdownLine(f))
  {
    if f.tags != [] {
      JoinKeepsOut(f.tags, "` `", '\n');
    }
    var line := ToMarkdownLine(f);
    assert f.content != "" ==> line[|line| - 1] == f.content[|f.content| - 1];
    assert f.content == "" ==> line[|line| - 1] == ' ';
  }

  lemma {:induction false} JoinKeepsOut(parts: seq<string>, sep: string, c: char)
    requires c !in sep && forall p :: p in parts ==> c !in p
    ensures c !in Join(parts, sep)
  {
    if parts != [] {
      assert parts[0] in parts;
      JoinKeepsOut(parts[1..], sep, c);
    }
  }

  /** If each line gives its fact, the lines give the facts. */
  lemma {:induction false} EachLineInverts(lines: seq<string>, facts: seq<Fact>, parse: string -> seq<Fact>)
    requires |lines| == |facts| && forall i :: 0 <= i < |facts| ==> parse(lines[i]) == [facts[i]]
    ensures EachLine(lines, parse) == facts
  {
    if facts != [] {
      EachLineInverts(lines[1..], facts[1..], parse);
      assert [facts[0]] + facts[1..] == facts;
    }
  }

  lemma FactLinesParse(facts: seq<Fact>)
    requires forall f :: f in facts ==> Canonical(f)
    ensures ParseLines(FactLines(facts)) == facts
  {
    forall i | 0 <= i < |facts| ensures FactOf(FactLines(facts)[i]) == [facts[i]] {
      assert facts[i] in facts;
      LineParses(facts[i]);
    }
    EachLineInverts(FactLines(facts), facts, FactOf);
  }

  lemma NotAFact(line: string)
    requires line == "" || (!IsSpace(line[0]) && line[0] != '-')
    ensures FactOf(line) == []
  {
    TrimEndIsPrefix(line);
    assert TrimStart(line) == line;
    assert Trim(line) != "" ==> Trim(line)[0] == line[0];
  }

  predicate OneLine(line: string) {
    '\n' !in line && Unreturned(line) == line
  }

  lemma NoticeIsPlain()
    ensures OneLine(NOTICE)
  {
    assert '\n' !in GENERATED;
    assert '\n' !in DO_NOT_EDIT;
    assert NOTICE[|NOTICE| - 1] == DO_NOT_EDIT[|DO_NOT_EDIT| - 1] == '>';
  }

  lemma HeaderIsPlain()
    ensures OneLine(TITLE) && OneLine(NOTICE) && OneLine(FACTS_HEADING) && OneLine(NO_FACTS) && OneLine("")
  {
    NoticeIsPlain();
    assert TITLE[|TITLE| - 1] == 'y' && FACTS_HEADING[|FACTS_HEADING| - 1] == 's';
    assert NO_FACTS[|NO_FACTS| - 1] == '_';
  }

  lemma EachLineHead(line: string, lines: seq<string>, parse: string -> seq<Fact>)
    ensures EachLine([line] + lines, parse) == parse(line) + EachLine(lines, parse)
  {
    assert ([line] + lines)[1..] == lines;
  }

  lemma {:induction false} EachLineConcat(a: seq<string>, b: seq<string>, parse: string -> seq<Fact>)
    ensures EachLine(a + b, parse) == EachLine(a, parse) + EachLine(b, parse)
  {
    if a == [] {
      assert a + b == b;
    } else {
      var line, rest := a[0], a[1..];
      assert [line] + rest == a;
      EachLineConcat(rest, b, parse);
      Associates([line], rest, b);
      EachLineHead(line, rest, parse);
      EachLineHead(line, rest + b, parse);
      Associates(parse(line), EachLine(rest, parse), EachLine(b, parse));
    }
  }

  lemma {:induction false} NoneInEachLine(lines: seq<string>, parse: string -> seq<Fact>)
    requires forall i :: 0 <= i < |lines| ==> parse(lines[i]) == []
    ensures EachLine(lines, parse) == []
  {
    if lines != [] {
      NoneInEachLine(lines[1..], parse);
    }
  }

  predicate PlainStart(line: string) {
    line != "" ==> !IsSpace(line[0]) && line[0] != '-'
  }

  lemma PlainLinesHoldNoFact(lines: seq<string>)
    requires forall i :: 0 <= i < |lines| ==> PlainStart(lines[i])
    ensures ParseLines(lines) == []
  {
    forall i | 0 <= i < |lines| ensures FactOf(lines[i]) == [] {
      NotAFact(lines[i]);
    }
    NoneInEachLine(lines, FactOf);
  }

  lemma HeaderHoldsNoFact()
    ensures ParseLines([TITLE, "", NOTICE, "", FACTS_HEADING, ""]) == []
    ensures ParseLines([TITLE, "", NOTICE, "", NO_FACTS]) == []
  {
    assert NOTICE[0] == GENERATED[0] == '<';
    PlainLinesHoldNoFact([TITLE, "", NOTICE, "", FACTS_HEADING, ""]);
    PlainLinesHoldNoFact([TITLE, "", NOTICE, "", NO_FACTS]);
  }

  lemma FileLinesAreLines(facts: seq<Fact>)
    requires forall f :: f in facts ==> Canonical(f)
    ensures forall i :: 0 <= i < |FileLines(facts)| ==> OneLine(FileLines(facts)[i])
  {
    HeaderIsPlain();
    var lines := FileLines(facts);
    forall i | 0 <= i < |lines| ensures OneLine(lines[i]) {
      if facts != [] && i >= 6 {
        assert lines[i] == ToMarkdownLine(facts[i - 6]) && facts[i - 6] in facts;
        PrintedIsOneLine(facts[i - 6]);
      }
    }
  }

  lemma CanonicalReloads(facts: seq<Fact>)
    requires forall f :: f in facts ==> Canonical(f)
    ensures Parsed(Markdown(facts)) == facts
  {
    FileLinesAreLines(facts);
    LinesOfEnded(FileLines(facts));
    HeaderHoldsNoFact();
    if facts != [] {
      EachLineConcat([TITLE, "", NOTICE, "", FACTS_HEADING, ""], FactLines(facts), FactOf);
      FactLinesParse(facts);
      assert [] + facts == facts;
    }
  }

  /**
   A fact list survives a save and a reload exactly when every fact is canonical: a timestamp
   without `]`, tags without a backquote, a trimmed content that does not open a tag, and no line
   feed anywhere.
   */
  lemma ReloadsExactly(facts: seq<Fact>)
    ensures Parsed(Markdown(facts)) == facts <==> forall f :: f in facts ==> Canonical(f)
  {
    ParsedIsCanonical(Markdown(facts));
    if forall f :: f in facts ==> Canonical(f) {
      CanonicalReloads(facts);
    }
  }

  /** Saving what was loaded and loading it again changes nothing, whatever the file contained. */
  lemma ReloadIsFixedPoint(content: string)
    ensures Parsed(Markdown(Parsed(content))) == Parsed(content)
  {
    ParsedIsCanonical(content);
    CanonicalReloads(Parsed(content));
  }

  // ---------------------------------------------------------------- appending and compaction

  function Digits(n: nat): string {
    (if n < 10 then "" else Digits(n / 10)) + [(n % 10 + '0' as int) as char]
  }

  function Marker(dropped: nat, now: string): Fact {
    Fact(now, ["meta"], "[compacted] Dropped " + Digits(dropped) + " old facts on " + now)
  }

  function Compacted(facts: seq<Fact>, now: string): seq<Fact>
    requires |facts| >= COMPACT_KEEP
  {
    [Marker(|facts| - COMPACT_KEEP, now)] + facts[|facts| - COMPACT_KEEP..]
  }

  function Appended(facts: seq<Fact>, f: Fact, now: string): seq<Fact> {
    if |facts| + 1 > MAX_FACTS then Compacted(facts + [f], now) else facts + [f]
  }

  /** What a text of decimal digits stands for. */
  function Value(digits: string): int {
    if digits == "" then 0
    else 10 * Value(digits[..|digits| - 1]) + (digits[|digits| - 1] as int - '0' as int)
  }

  /** `digits` is the number `n` as it is written: in decimal, without a leading zero. */
  predicate IsDecimal(digits: string, n: nat) {
    && digits != "" && (forall i :: 0 <= i < |digits| ==> '0' <= digits[i] <= '9')
    && Value(digits) == n && (|digits| > 1 ==> digits[0] != '0')
  }

  lemma {:induction false} DigitsAreDecimal(n: nat)
    ensures IsDecimal(Digits(n), n) && (n > 0 ==> Digits(n)[0] != '0')
  {
    var last := (n % 10 + '0' as int) as char;
    if n < 10 {
      assert Digits(n) == [last];
      assert [last][..0] == "";
    } else {
      var front := Digits(n / 10);
      DigitsAreDecimal(n / 10);
      assert Digits(n) == front + [last];
      assert (front + [last])[..|front|] == front;
    }
  }

  /** A fact tagged `meta` that tells how many facts were dropped, and when. */
  ghost predicate IsMarker(f: Fact, dropped: nat, now: string) {
    && f.timestamp == now && f.tags == ["meta"]
    && exists digits :: IsDecimal(digits, dropped) &&
         f.content == "[compacted] Dropped " + digits + " old facts on " + now
  }

  lemma MarkerTells(dropped: nat, now: string)
    ensures IsMarker(Marker(dropped, now), dropped, now)
  {
    DigitsAreDecimal(dropped);
  }

  predicate AllCanonical(facts: seq<Fact>) {
    forall f :: f in facts ==> Canonical(f)
  }

  /** A clock text such as `2024-05-01T09:30:00Z`. */
  predicate CleanClock(now: string) {
    now != "" && !IsSpace(now[|now| - 1]) && ']' !in now && '\n' !in now
  }

  lemma {:induction false} DigitsAreDigits(n: nat)
    ensures forall c :: c in Digits(n) ==> '0' <= c <= '9'
  {
    if n >= 10 {
      DigitsAreDigits(n / 10);
    }
  }

  lemma MarkerIsCanonical(dropped: nat, now: string)
    requires CleanClock(now)
    ensures Canonical(Marker(dropped, now))
  {
    var content := Marker(dropped, now).content;
    DigitsAreDigits(dropped);
    assert '\n' !in "[compacted] Dropped " && '\n' !in " old facts on ";
    assert content[0] == '[' && content[|content| - 1] == now[|now| - 1];
    assert !IsSpace('[');
    assert '`' !in "meta" && '\n' !in "meta";
  }

  lemma CanonicalParts(a: seq<Fact>, b: seq<Fact>)
    ensures AllCanonical(a + b) <==> AllCanonical(a) && AllCanonical(b)
  {
    if AllCanonical(a + b) {
      forall f | f in a ensures Canonical(f) {
        assert f in a + b;
      }
      forall f | f in b ensures Canonical(f) {
        assert f in a + b;
      }
    }
  }

  lemma CompactedIsCanonical(facts: seq<Fact>, now: string)
    requires |facts| >= COMPACT_KEEP && AllCanonical(facts) && CleanClock(now)
    ensures AllCanonical(Compacted(facts, now))
  {
    var d := |facts| - COMPACT_KEEP;
    assert facts == facts[..d] + facts[d..];
    CanonicalParts(facts[..d], facts[d..]);
    MarkerIsCanonical(d, now);
    CanonicalParts([Marker(d, now)], facts[d..]);
  }

  /** Compaction keeps a store canonical, marker included. */
  lemma AppendedIsCanonical(facts: seq<Fact>, f: Fact, now: string)
    requires AllCanonical(facts) && Canonical(f) && CleanClock(now)
    ensures AllCanonical(Appended(facts, f, now))
  {
    CanonicalParts(facts, [f]);
    if |facts| + 1 > MAX_FACTS {
      CompactedIsCanonical(facts + [f], now);
    }
  }

  lemma NewestStays(facts: seq<Fact>, f: Fact, now: string)
    ensures var s := Appended(facts, f, now); s != [] && s[|s| - 1] == f
  {
  }

  /** The store and its file. Tags and clock readings are the caller's. */
  class Memory {
    var facts: seq<Fact>
    var file: string

    /** `load_or_create`: an existing file is parsed, a missing one is an empty list. */
    constructor (existing: Option<string>)
      ensures facts == if existing.Some? then Parsed(existing.value) else []
    {
      facts := [];
      file := "";
      new;
      if existing.Some? {
        facts := ParseMarkdownFacts(existing.value);
        file := existing.value;
      }
    }

    method AppendFact(content: string, tags: seq<string>, now: string, compactedAt: string) returns (fact: Fact)
      modifies this
      ensures fact == Fact(now, tags, content)
      ensures facts == Appended(old(facts), fact, compactedAt)
      ensures facts != [] && facts[|facts| - 1] == fact
      ensures |facts| <= 200
      ensures file == Markdown(facts)
      ensures AllCanonical(old(facts)) && Canonical(fact) && CleanClock(compactedAt) ==>
                AllCanonical(facts) && Parsed(file) == facts
    {
      fact := Fact(now, tags, content);
      facts := facts + [fact];
      if |facts| > MAX_FACTS {
        Compact(compactedAt);
      }
      NewestStays(old(facts), fact, compactedAt);
      Save();
      if AllCanonical(old(facts)) && Canonical(fact) && CleanClock(compactedAt) {
        AppendedIsCanonical(old(facts), fact, compactedAt);
        CanonicalReloads(facts);
      }
    }

    method Compact(now: string)
      requires |facts| >= COMPACT_KEEP
      modifies this`facts
      ensures facts == Compacted(old(facts), now)
      ensures facts != [] && IsMarker(facts[0], |old(facts)| - 100, now)
      ensures facts[1..] == old(facts)[|old(facts)| - 100..]
    {
      MarkerTells(|facts| - COMPACT_KEEP, now);
      var total := |facts|;
      var keepFrom := total - COMPACT_KEEP;
      var marker := Marker(keepFrom, now);
      facts := facts[keepFrom..];
      facts := [marker] + facts;
    }

    method Save()
      modifies this`file
      ensures file == Markdown(facts)
    {
      file := ToMarkdown(facts);
    }
  }

  /** From any loaded store, however long, one append leaves at most 200 facts. */
  lemma AppendIsBounded(facts: seq<Fact>, f: Fact, now: string)
    ensures |Appended(facts, f, now)| == if |facts| < 200 then |facts| + 1 else 101
  {
  }

  /** The store after appending a whole history to `start`, each with its clock reading. */
  function Stored(start: seq<Fact>, history: seq<(Fact, string)>): seq<Fact> {
    if history == [] then start
    else
      var n := |history| - 1;
      Appended(Stored(start, history[..n]), history[n].0, history[n].1)
  }

  function FactsOf(history: seq<(Fact, string)>): seq<Fact> {
    seq(|history|, i requires 0 <= i < |history| => history[i].0)
  }

  /** The length after `n` appends to an empty store. */
  function LengthAfter(n: nat): nat {
    if n <= 200 then n else 101 + (n - 201) % 100
  }

  /** Apart from its first fact, `s` is the newest part of `h`. */
  predicate NewestOf(s: seq<Fact>, h: seq<Fact>) {
    s != [] && |s| - 1 <= |h| && s[1..] == h[|h| - (|s| - 1)..]
  }

  lemma NewestGrows(s: seq<Fact>, h: seq<Fact>, f: Fact)
    requires NewestOf(s, h)
    ensures NewestOf(s + [f], h + [f])
  {
    var k := |h| - (|s| - 1);
    assert (s + [f])[1..] == s[1..] + [f];
    assert (h + [f])[k..] == h[k..] + [f];
  }

  lemma NewestIsCut(s: seq<Fact>, h: seq<Fact>, marker: Fact, d: nat)
    requires NewestOf(s, h) && 1 <= d <= |s|
    ensures NewestOf([marker] + s[d..], h)
  {
    var k := |h| - (|s| - 1);
    assert ([marker] + s[d..])[1..] == s[d..] == s[1..][d - 1..] == h[k..][d - 1..] == h[k + (d - 1)..];
  }

  lemma OneMoreFact(history: seq<(Fact, string)>, n: nat)
    requires |history| == n + 1
    ensures FactsOf(history) == FactsOf(history[..n]) + [history[n].0]
  {
  }

  /** The first fact after a compaction is the marker, and it counts what was dropped. */
  predicate Marked(s: seq<Fact>) {
    s != [] && s[0].tags == ["meta"] && s[0].content == "[compacted] Dropped 101 old facts on " + s[0].timestamp
  }

  lemma MarkerOf101(now: string)
    ensures Marker(COMPACT_KEEP + 1, now).content == "[compacted] Dropped 101 old facts on " + now
  {
    assert Digits(1) == "1" && Digits(10) == Digits(1) + "0" && Digits(101) == Digits(10) + "1";
    assert "1" + "0" == "10" && "10" + "1" == "101";
    assert "[compacted] Dropped " + "101" + " old facts on " == "[compacted] Dropped 101 old facts on ";
  }

  lemma AppendedCases(s: seq<Fact>, f: Fact, now: string)
    requires |s| <= MAX_FACTS
    ensures Appended(s, f, now) ==
            if |s| < MAX_FACTS then s + [f] else [Marker(COMPACT_KEEP + 1, now)] + (s + [f])[COMPACT_KEEP + 1..]
  {
  }

  /**
   What a store is of the history `h` appended to it since it was empty: its length is a closed form,
   and its facts are the history, or one compaction marker and then exactly the newest part of it.
   */
  predicate StoreOf(h: seq<Fact>, s: seq<Fact>) {
    && |s| == LengthAfter(|h|)
    && (|h| <= 200 ==> s == h)
    && (|h| > 200 ==> Marked(s) && NewestOf(s, h))
  }

  lemma StoreGrows(h: seq<Fact>, s: seq<Fact>, f: Fact, now: string)
    requires StoreOf(h, s)
    ensures StoreOf(h + [f], Appended(s, f, now))
  {
    LengthSteps(|h|);
    AppendedCases(s, f, now);
    MarkerOf101(now);
    if |h| >= MAX_FACTS {
      assert s == h ==> NewestOf(s, h);
      NewestGrows(s, h, f);
      if |s| == MAX_FACTS {
        NewestIsCut(s + [f], h + [f], Marker(COMPACT_KEEP + 1, now), COMPACT_KEEP + 1);
        assert Marker(COMPACT_KEEP + 1, now).timestamp == now;
      } else {
        assert (s + [f])[0] == s[0];
      }
    }
  }

  /** Every history of appends to an empty store. */
  lemma {:induction false} HistoryIsSuffix(history: seq<(Fact, string)>)
    ensures StoreOf(FactsOf(history), Stored([], history))
  {
    if history != [] {
      var n := |history| - 1;
      HistoryIsSuffix(history[..n]);
      OneMoreFact(history, n);
      StoreGrows(FactsOf(history[..n]), Stored([], history[..n]), history[n].0, history[n].1);
    }
  }

  /** The entries of a history are clean: canonical facts at clean clock readings. */
  predicate CleanHistory(history: seq<(Fact, string)>) {
    forall i :: 0 <= i < |history| ==> Canonical(history[i].0) && CleanClock(history[i].1)
  }

  lemma {:induction false} StoredIsCanonical(start: seq<Fact>, history: seq<(Fact, string)>)
    requires AllCanonical(start) && CleanHistory(history)
    ensures AllCanonical(Stored(start, history))
  {
    if history != [] {
      var n := |history| - 1;
      StoredIsCanonical(start, history[..n]);
      AppendedIsCanonical(Stored(start, history[..n]), history[n].0, history[n].1);
    }
  }

  /** After every clean history, compactions included, a reload of the file gives the store back. */
  lemma HistoryReloads(start: seq<Fact>, history: seq<(Fact, string)>)
    requires AllCanonical(start) && CleanHistory(history)
    ensures Parsed(Markdown(Stored(start, history))) == Stored(start, history)
  {
    StoredIsCanonical(start, history);
    CanonicalReloads(Stored(start, history));
  }

  lemma LengthSteps(n: nat)
    ensures LengthAfter(n) <= MAX_FACTS
    ensures LengthAfter(n + 1) == if LengthAfter(n) < MAX_FACTS then LengthAfter(n) + 1 else COMPACT_KEEP + 1
  {
  }
}
