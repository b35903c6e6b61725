/**
 * Packing retrieved memories into the byte budget of a context section.
 */
module MemoryIndex {
  import opened Text
  import Utf8

  const HEADER_WORDS: string :=
    "\U{957F}\U{671F}\U{8BB0}\U{5FC6}\U{FF08}\U{8DE8}\U{5408}\U{540C}\U{6C89}\U{6DC0}\U{FF09}"
  const HEADER_TEXT: string := "## " + HEADER_WORDS + "\n\n"
  const HEADER_BYTES: nat := 38
  const ITEM_OVERHEAD_BYTES: nat := 200
  const ELLIPSIS: string := "\U{2026}"
  const MARKER_LINE: string := "[" + ELLIPSIS + "truncated" + ELLIPSIS + "]"
  const TRUNCATION_MARKER: string := "\n" + MARKER_LINE

  /** A memory as it is shown; `score` is already formatted to two decimals. */
  datatype RetrievedMemory = RetrievedMemory(
    title: string, bodyMd: string, kind: string, score: string, tags: seq<string>, source: string)

  /** The characters at which a text is cut into lines. */
  predicate IsLineBreak(c: char) {
    '\n' <= c <= '\r' || '\U{1C}' <= c <= '\U{1E}' || c in {'\U{85}', '\U{2028}', '\U{2029}'}
  }

  function LineEnd(s: string): (n: nat)
    ensures n <= |s|
    decreases s
  {
    if s == "" || IsLineBreak(s[0]) then 0 else 1 + LineEnd(s[1..])
  }

  function SplitLines(s: string): seq<string>
    decreases |s|
  {
    var n := LineEnd(s);
    if s == "" then []
    else if n == |s| then [s]
    else [s[..n]] + SplitLines(s[if "\r\n" <= s[n..] then n + 2 else n + 1..])
  }

  function Indented(lines: seq<string>): seq<string> {
    seq(|lines|, i requires 0 <= i < |lines| => if lines[i] == "" then "" else "  " + lines[i])
  }

  function Hashed(tags: seq<string>): seq<string> {
    seq(|tags|, i requires 0 <= i < |tags| => "#" + tags[i])
  }

  function Headline(m: RetrievedMemory): string {
    "- **" + m.title + "** (" + m.kind + ", score=" + m.score + ", source=" + m.source + ")"
  }

  /** The lines above the body. */
  function HeadLines(m: RetrievedMemory): seq<string> {
    var tags := Join(Hashed(m.tags), ", ");
    [Headline(m)] + (if tags == "" then [] else ["  " + tags])
  }

  function Render(m: RetrievedMemory): string {
    Join(HeadLines(m) + Indented(SplitLines(m.bodyMd)), "\n")
  }

  function Rendered(memories: seq<RetrievedMemory>): seq<string> {
    seq(|memories|, i requires 0 <= i < |memories| => Render(memories[i]))
  }

  function RenderSection(memories: seq<RetrievedMemory>): string {
    if memories == [] then "" else HEADER_TEXT + Join(Rendered(memories), "\n\n") + "\n"
  }

  /** The ten line breaks, by code point. */
  lemma LineBreaksExactly(c: char)
    ensures IsLineBreak(c) <==> c as int in {0x0A, 0x0B, 0x0C, 0x0D, 0x1C, 0x1D, 0x1E, 0x85, 0x2028, 0x2029}
  {
  }

  /** How an item looks: headline, tags if there are any, body; here with two
      tags and a body of one line. */
  lemma RenderedItem(m: RetrievedMemory, a: string, b: string)
    requires m.bodyMd != "" && forall i :: 0 <= i < |m.bodyMd| ==> !IsLineBreak(m.bodyMd[i])
    ensures Headline(m) == "- **" + m.title + "** (" + m.kind + ", score=" + m.score + ", source=" + m.source + ")"
    ensures Render(m.(tags := [])) == Headline(m) + "\n" + ("  " + m.bodyMd)
    ensures Render(m.(tags := [a, b]))
         == Headline(m) + "\n" + ("  " + ("#" + a + ", " + ("#" + b)) + "\n" + ("  " + m.bodyMd))
  {
    LineIsWhole(m.bodyMd);
    var body := "  " + m.bodyMd;
    assert SplitLines(m.bodyMd) == [m.bodyMd];
    assert Indented([m.bodyMd]) == [body];
    var tags := "#" + a + ", " + ("#" + b);
    assert Hashed([a, b]) == ["#" + a, "#" + b] && Hashed([a, b])[1..] == ["#" + b];
    assert Join(Hashed([a, b]), ", ") == tags;
    assert Hashed([]) == [] && Join([], ", ") == "";
    TwoLines(Headline(m), body);
    assert [Headline(m)] + [] == [Headline(m)];
    assert HeadLines(m.(tags := [])) == [Headline(m)];
    assert [Headline(m)] + [body] == [Headline(m), body];
    assert HeadLines(m.(tags := [a, b])) == [Headline(m), "  " + tags];
    assert [Headline(m), "  " + tags] + [body] == [Headline(m), "  " + tags, body];
    assert [Headline(m), "  " + tags, body][1..] == ["  " + tags, body];
    TwoLines("  " + tags, body);
  }

  lemma TwoLines(a: string, b: string)
    ensures Join([a, b], "\n") == a + "\n" + b
  {
    assert [a, b][1..] == [b];
  }

  lemma {:induction false} LineIsWhole(s: string)
    requires forall i :: 0 <= i < |s| ==> !IsLineBreak(s[i])
    ensures LineEnd(s) == |s|
    decreases s
  {
    if s != "" {
      LineIsWhole(s[1..]);
    }
  }

  /** The size of the section that would really be written, in bytes. */
  function SectionSize(memories: seq<RetrievedMemory>): nat {
    Utf8.Size(RenderSection(memories))
  }

  /** How many characters of the body of a lone item are kept. */
  function BodyBudget(budget: int): nat {
    if budget > HEADER_BYTES + ITEM_OVERHEAD_BYTES then budget - HEADER_BYTES - ITEM_OVERHEAD_BYTES else 0
  }

  function TruncateToBudget(item: RetrievedMemory, budget: int): RetrievedMemory {
    if |item.bodyMd| <= BodyBudget(budget) then item
    else item.(bodyMd := item.bodyMd[..BodyBudget(budget)] + TRUNCATION_MARKER)
  }

  function ItemSize(item: RetrievedMemory): nat {
    Utf8.Size(Render(item))
  }

  /** The running account kept while packing: header and trailing newline, the
      items, and a two-byte separator between neighbours. */
  function PackedSize(items: seq<RetrievedMemory>, k: nat): nat
    requires k <= |items|
  {
    if k == 0 then HEADER_BYTES + 1
    else PackedSize(items, k - 1) + (if k > 1 then 2 else 0) + ItemSize(items[k - 1])
  }

  /** The longest prefix within the budget by that account; or the first item
      alone, cut short, when not even that item fits. */
  predicate IsPacking(items: seq<RetrievedMemory>, budget: int, selected: seq<RetrievedMemory>) {
    if items == [] then selected == []
    else if PackedSize(items, 1) > budget then selected == [TruncateToBudget(items[0], budget)]
    else
      1 <= |selected| <= |items| && selected == items[..|selected|] &&
      PackedSize(items, |selected|) <= budget &&
      (|selected| < |items| ==> PackedSize(items, |selected| + 1) > budget)
  }

  /** Greedy packing, best score first. */
  method FitToBudget(items: seq<RetrievedMemory>, budget: int) returns (selected: seq<RetrievedMemory>)
    ensures IsPacking(items, budget, selected)
  {
    hide ItemSize, TruncateToBudget;
    selected := [];
    var total := HEADER_BYTES + 1; // the trailing newline
    var i := 0;
    while i < |items|
      invariant 0 <= i <= |items|
      invariant selected == items[..i]
      invariant total == PackedSize(items, i)
      invariant i > 0 ==> total <= budget && PackedSize(items, 1) <= budget
    {
      var size := ItemSize(items[i]);
      if selected != [] {
        size := size + 2;
      }
      if total + size <= budget {
        selected := selected + [items[i]];
        total := total + size;
        i := i + 1;
        continue;
      }
      if selected == [] {
        return [TruncateToBudget(items[i], budget)];
      }
      return;
    }
  }

  /** The account is the size of the section that would really be written, so
      the packing above keeps the longest prefix of the ranked items whose
      section fits the budget. */
  lemma LongestPrefixThatFits(items: seq<RetrievedMemory>, n: nat, budget: int)
    requires 1 <= n <= |items| && PackedSize(items, n) <= budget
    requires n < |items| ==> PackedSize(items, n + 1) > budget
    ensures forall k :: 1 <= k <= |items| ==> (SectionSize(items[..k]) <= budget <==> k <= n)
  {
    forall k | 1 <= k <= |items|
      ensures SectionSize(items[..k]) <= budget <==> k <= n
    {
      PackedIsSection(items, k);
      if k <= n {
        PackedGrows(items, k, n);
      } else {
        PackedGrows(items, n + 1, k);
      }
    }
  }

  /** The running account is the size in bytes of the section as rendered. */
  lemma {:induction false} PackedIsSection(items: seq<RetrievedMemory>, k: nat)
    requires 1 <= k <= |items|
    ensures PackedSize(items, k) == SectionSize(items[..k])
  {
    var before, last := Rendered(items[..k - 1]), Render(items[k - 1]);
    assert Rendered(items[..k]) == before + [last];
    JoinAppend(before, last, "\n\n");
    SizeOfSection(Join(before + [last], "\n\n"));
    if k > 1 {
      PackedIsSection(items, k - 1);
      SizeOfSection(Join(before, "\n\n"));
      SizeOfThree(Join(before, "\n\n"), "\n\n", last);
      NewlineSize();
    }
  }

  lemma {:induction false} PackedGrows(items: seq<RetrievedMemory>, j: nat, k: nat)
    requires j <= k <= |items|
    ensures PackedSize(items, j) <= PackedSize(items, k)
    decreases k - j
  {
    if j < k {
      PackedGrows(items, j, k - 1);
    }
  }

  lemma NewlineSize()
    ensures Utf8.Size("\n") == 1 && Utf8.Size("\n\n") == 2
  {
    assert "\n"[1..] == "" && "\n\n"[1..] == "\n";
  }

  lemma HeaderSize()
    ensures Utf8.Size(HEADER_TEXT) == HEADER_BYTES
  {
    HeaderWordsSize();
    SizeOfThree("## ", HEADER_WORDS, "\n\n");
    NewlineSize();
    assert "## "[1..] == "# " && "# "[1..] == " " && " "[1..] == "";
  }

  lemma HeaderWordsSize()
    ensures Utf8.Size(HEADER_WORDS) == 33
  {
    WideSize(HEADER_WORDS);
  }

  lemma SizeOfThree(a: string, b: string, c: string)
    ensures Utf8.Size(a + b + c) == Utf8.Size(a) + Utf8.Size(b) + Utf8.Size(c)
  {
    Utf8.EncodeAppend(a, b);
    Utf8.EncodeAppend(a + b, c);
  }

  lemma {:induction false} WideSize(s: string)
    requires forall i :: 0 <= i < |s| ==> 0x800 <= s[i] as int < 0x1_0000
    ensures Utf8.Size(s) == 3 * |s|
    decreases s
  {
    if s != "" {
      WideSize(s[1..]);
    }
  }

  lemma SizeOfSection(body: string)
    ensures Utf8.Size(HEADER_TEXT + body + "\n") == HEADER_BYTES + Utf8.Size(body) + 1
  {
    HeaderSize();
    Utf8.EncodeAppend(HEADER_TEXT, body);
    Utf8.EncodeAppend(HEADER_TEXT + body, "\n");
    NewlineSize();
  }

  // ----- the one path that may overflow -----

  lemma {:induction false} LineEndAt(line: string, rest: string)
    requires forall i :: 0 <= i < |line| ==> !IsLineBreak(line[i])
    requires rest == "" || IsLineBreak(rest[0])
    ensures LineEnd(line + rest) == |line|
    decreases line
  {
    if line == "" {
      assert line + rest == rest;
    } else {
      assert (line + rest)[1..] == line[1..] + rest;
      LineEndAt(line[1..], rest);
    }
  }

  lemma {:induction false} LineEndMeans(s: string)
    ensures forall i :: 0 <= i < LineEnd(s) ==> !IsLineBreak(s[i])
    ensures LineEnd(s) < |s| ==> IsLineBreak(s[LineEnd(s)])
    decreases s
  {
    if s != "" && !IsLineBreak(s[0]) {
      LineEndMeans(s[1..]);
    }
  }

  /** A line feed put after `text` adds an empty line when it starts one. */
  predicate EndsWithOpenLine(text: string) {
    text == "" || (IsLineBreak(text[|text| - 1]) && text[|text| - 1] != '\r')
  }

  /** The lines of a text that is followed by a line feed. */
  function LinesBefore(text: string): seq<string> {
    SplitLines(text) + if EndsWithOpenLine(text) then [""] else []
  }

  predicate IsOneLine(line: string) {
    line != "" && forall i :: 0 <= i < |line| ==> !IsLineBreak(line[i])
  }

  lemma OneLine(line: string)
    requires IsOneLine(line)
    ensures SplitLines(line) == [line]
  {
    LineEndAt(line, "");
    assert line + "" == line;
  }

  /** What follows the line break at the start of `rest`. */
  function AfterBreak(rest: string): string
    requires rest != ""
  {
    if "\r\n" <= rest then rest[2..] else rest[1..]
  }

  /** How one line is split off. */
  lemma SplitStep(line: string, rest: string)
    requires forall i :: 0 <= i < |line| ==> !IsLineBreak(line[i])
    requires rest != "" && IsLineBreak(rest[0])
    ensures SplitLines(line + rest) == [line] + SplitLines(AfterBreak(rest))
  {
    var s := line + rest;
    LineEndAt(line, rest);
    assert s[..|line|] == line && s[|line|..] == rest;
    var k := if "\r\n" <= rest then 2 else 1;
    assert s[|line| + k..] == rest[k..];
  }

  lemma BreakBefore(marker: string)
    ensures AfterBreak("\n" + marker) == marker && AfterBreak("\r" + ("\n" + marker)) == marker &&
            AfterBreak("\r") == ""
    ensures SplitLines("") == []
  {
    assert ("\n" + marker)[0] == '\n';
    assert "\r" + ("\n" + marker) == "\r\n" + marker;
  }

  lemma BreakIsSame(rest: string, more: string)
    requires rest != "" && rest != "\r"
    ensures AfterBreak(rest + more) == AfterBreak(rest) + more
  {
    if |rest| >= 2 {
      assert (rest + more)[..2] == rest[..2];
    } else {
      assert (rest + more)[0] == rest[0] && rest == [rest[0]];
    }
  }

  lemma OpenLineAfterBreak(line: string, rest: string)
    requires rest != "" && rest != "\r" && IsLineBreak(rest[0])
    ensures |AfterBreak(rest)| < |rest|
    ensures EndsWithOpenLine(AfterBreak(rest)) == EndsWithOpenLine(line + rest)
  {
  }

  lemma {:induction false} SplitBeforeMarker(text: string, marker: string)
    requires IsOneLine(marker)
    ensures SplitLines(text + ("\n" + marker)) == LinesBefore(text) + [marker]
    decreases |text|
  {
    hide SplitLines, AfterBreak;
    var n, more := LineEnd(text), "\n" + marker;
    var line, rest := text[..n], text[n..];
    LineEndMeans(text);
    OneLine(marker);
    BreakBefore(marker);
    assert text == line + rest;
    if rest == "" {
      SplitStep(text, more);
      LoneLine(text);
    } else {
      assert text + more == line + (rest + more);
      SplitLonger(line, rest, more);
      if rest != "\r" {
        OpenLineAfterBreak(line, rest);
        SplitBeforeMarker(AfterBreak(rest), marker);
        Regroup(line, SplitLines(AfterBreak(rest)), if EndsWithOpenLine(text) then [""] else [], marker);
      }
    }
  }

  lemma Regroup(line: string, lines: seq<string>, tail: seq<string>, marker: string)
    ensures [line] + (lines + tail + [marker]) == [line] + lines + tail + [marker]
  {
  }

  lemma SplitLonger(line: string, rest: string, more: string)
    requires forall i :: 0 <= i < |line| ==> !IsLineBreak(line[i])
    requires rest != "" && IsLineBreak(rest[0])
    ensures SplitLines(line + rest) == [line] + SplitLines(AfterBreak(rest))
    ensures SplitLines(line + (rest + more)) == [line] + SplitLines(AfterBreak(rest + more))
    ensures rest != "\r" ==> AfterBreak(rest + more) == AfterBreak(rest) + more
  {
    hide SplitLines, AfterBreak;
    SplitStep(line, rest);
    SplitStep(line, rest + more);
    if rest != "\r" {
      BreakIsSame(rest, more);
    }
  }

  lemma LoneLine(text: string)
    requires LineEnd(text) == |text|
    ensures LinesBefore(text) == [text]
  {
    LineEndMeans(text);
    if text != "" {
      OneLine(text);
    }
  }

  /** What indented body lines take, each with the line feed before it. */
  function LinesSize(lines: seq<string>): nat {
    if lines == [] then 0
    else
      var last := lines[|lines| - 1];
      LinesSize(lines[..|lines| - 1]) + 1 + if last == "" then 0 else 2 + Utf8.Size(last)
  }

  function Shown(line: string): string {
    if line == "" then "" else "  " + line
  }

  lemma IndentedAppend(head: seq<string>, lines: seq<string>, last: string)
    ensures head + Indented(lines + [last]) == head + Indented(lines) + [Shown(last)]
  {
    assert Indented(lines + [last]) == Indented(lines) + [Shown(last)];
  }

  lemma {:induction false} SizeOfLines(head: seq<string>, lines: seq<string>)
    requires head != []
    ensures Utf8.Size(Join(head + Indented(lines), "\n")) == Utf8.Size(Join(head, "\n")) + LinesSize(lines)
    decreases |lines|
  {
    if lines == [] {
      assert head + Indented(lines) == head;
    } else {
      var front, last := lines[..|lines| - 1], lines[|lines| - 1];
      SizeOfLines(head, front);
      IndentedAppend(head, front, last);
      assert lines == front + [last];
      OneMoreLine(head + Indented(front), last);
    }
  }

  lemma OneMoreLine(parts: seq<string>, line: string)
    requires parts != []
    ensures Utf8.Size(Join(parts + [Shown(line)], "\n"))
         == Utf8.Size(Join(parts, "\n")) + 1 + if line == "" then 0 else 2 + Utf8.Size(line)
  {
    JoinAppend(parts, Shown(line), "\n");
    SizeOfThree(Join(parts, "\n"), "\n", Shown(line));
    NewlineSize();
    IndentSize(line);
  }

  lemma IndentSize(line: string)
    ensures Utf8.Size("  " + line) == 2 + Utf8.Size(line)
    ensures Utf8.Size("") == 0
  {
    Utf8.EncodeAppend("  ", line);
    assert "  "[1..] == " " && " "[1..] == "";
  }

  function HeadSize(item: RetrievedMemory): nat {
    Utf8.Size(Join(HeadLines(item), "\n"))
  }

  const MARKER_SIZE: nat := 20

  /** The size of the section that holds the item alone, cut to `cut`: header,
      head lines, the lines of the cut, the marker line, and a line feed. */
  function TruncatedSize(item: RetrievedMemory, cut: string): nat {
    HEADER_BYTES + HeadSize(item) + LinesSize(LinesBefore(cut)) + MARKER_SIZE + 1
  }

  lemma MarkerIsOneLine()
    ensures IsOneLine(MARKER_LINE)
  {
  }

  lemma SizeOfMarker(open: string, dots: string, word: string, close: string)
    ensures Utf8.Size(open + dots + word + dots + close)
         == Utf8.Size(open) + 2 * Utf8.Size(dots) + Utf8.Size(word) + Utf8.Size(close)
  {
    SizeOfThree(open, dots, word);
    SizeOfThree(open + dots + word, dots, close);
  }

  lemma MarkerLineSize()
    ensures 3 + Utf8.Size(MARKER_LINE) == MARKER_SIZE
  {
    SizeOfMarker("[", ELLIPSIS, "truncated", "]");
    WideSize(ELLIPSIS);
    AsciiSize("truncated");
    AsciiSize("[");
    AsciiSize("]");
  }

  lemma {:induction false} AsciiSize(s: string)
    requires forall i :: 0 <= i < |s| ==> s[i] as int < 0x80
    ensures Utf8.Size(s) == |s|
    decreases s
  {
    if s != "" {
      AsciiSize(s[1..]);
    }
  }

  /** The size of a lone item's section, for every body and every budget. */
  lemma SizeOfTruncated(item: RetrievedMemory, budget: int)
    ensures SectionSize([TruncateToBudget(item, budget)])
         == if |item.bodyMd| <= BodyBudget(budget) then SectionSize([item])
            else TruncatedSize(item, item.bodyMd[..BodyBudget(budget)])
  {
    if |item.bodyMd| > BodyBudget(budget) {
      var cut, short := item.bodyMd[..BodyBudget(budget)], TruncateToBudget(item, budget);
      assert short.bodyMd == cut + ("\n" + MARKER_LINE);
      MarkerIsOneLine();
      MarkerLineSize();
      SplitBeforeMarker(cut, MARKER_LINE);
      SizeOfLines(HeadLines(short), LinesBefore(cut) + [MARKER_LINE]);
      assert (LinesBefore(cut) + [MARKER_LINE])[..|LinesBefore(cut)|] == LinesBefore(cut);
      assert HeadLines(short) == HeadLines(item);
      LoneSection(short);
    }
  }

  lemma LoneSection(item: RetrievedMemory)
    ensures SectionSize([item]) == HEADER_BYTES + Utf8.Size(Render(item)) + 1
  {
    assert Rendered([item]) == [Render(item)];
    SizeOfSection(Render(item));
  }

  /** When the section written from a packing fits the budget: always, if the
      first item fits; otherwise exactly when that item's body is cut and its
      head lines, the cut and the marker line together fit.  All of it can be
      seen beforehand from the first item and the budget. */
  lemma PackingFitsExactly(items: seq<RetrievedMemory>, budget: int, selected: seq<RetrievedMemory>)
    requires IsPacking(items, budget, selected) && items != []
    ensures SectionSize(selected) <= budget <==>
              SectionSize([items[0]]) <= budget ||
              (|items[0].bodyMd| > BodyBudget(budget) &&
               TruncatedSize(items[0], items[0].bodyMd[..BodyBudget(budget)]) <= budget)
  {
    var first := items[0];
    PackedIsSection(items, 1);
    assert items[..1] == [first];
    if PackedSize(items, 1) > budget {
      SizeOfTruncated(first, budget);
    } else {
      PackedIsSection(items, |selected|);
    }
  }

  /** An item with an ASCII body of one line fits exactly when its head lines
      stay within 176 bytes of the 200 set aside for them. */
  lemma AsciiLineFits(item: RetrievedMemory, budget: int)
    requires BodyBudget(budget) > 0 && |item.bodyMd| > BodyBudget(budget)
    requires forall i :: 0 <= i < |item.bodyMd| ==> item.bodyMd[i] as int < 0x80 && !IsLineBreak(item.bodyMd[i])
    ensures SectionSize([TruncateToBudget(item, budget)]) <= budget <==> HeadSize(item) <= 176
  {
    var cut := item.bodyMd[..BodyBudget(budget)];
    SizeOfTruncated(item, budget);
    OneLine(cut);
    AsciiSize(cut);
    OneLineSize(cut);
  }

  lemma OneLineSize(cut: string)
    requires IsOneLine(cut)
    ensures LinesSize(LinesBefore(cut)) == 3 + Utf8.Size(cut)
  {
    OneLine(cut);
    assert LinesBefore(cut) == [cut] && [cut][..0] == [];
  }

  /** With no room for a body, only the head lines and the marker are written. */
  lemma NoRoomForBody(item: RetrievedMemory, budget: int)
    requires BodyBudget(budget) == 0 && item.bodyMd != ""
    ensures SectionSize([TruncateToBudget(item, budget)]) == HEADER_BYTES + HeadSize(item) + 1 + MARKER_SIZE + 1
  {
    SizeOfTruncated(item, budget);
    assert item.bodyMd[..0] == "" && LinesBefore("") == [""] && [""][..0] == [];
  }

  /** The cut counts characters while the budget counts bytes: a body outside
      ASCII overflows even a budget well above the reserved overhead. */
  lemma TruncatedItemCanOverflow(item: RetrievedMemory, budget: int)
    requires budget >= 2 * (HEADER_BYTES + ITEM_OVERHEAD_BYTES)
    requires |item.bodyMd| > budget && forall i :: 0 <= i < |item.bodyMd| ==> item.bodyMd[i] == '\U{957F}'
    ensures SectionSize([TruncateToBudget(item, budget)]) > budget
  {
    var cut := item.bodyMd[..BodyBudget(budget)];
    SizeOfTruncated(item, budget);
    WideSize(cut);
    OneLineSize(cut);
  }
}
