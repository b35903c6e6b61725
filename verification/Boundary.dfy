/**
 * The fence around untrusted text that is put into a prompt.
 *
 * A reader that only knows the fence prefix must get back the whole body: no
 * body can close its own fence.
 */
module Boundary {
  import opened Prelude
  import opened Text
  import Sanitize

  const FENCE_PREFIX: string := "LHGP-UNTRUSTED-"
  const ESCAPED_PREFIX: string := "LHGP-UNTRUSTED_"

  /** A declaration that stands above the fence.  There are two fixed English
      ones, a full and a terse one; neither contains a capital L. */
  type Declaration = d: string | FENCE_PREFIX[0] !in d witness ""

  const HEADER_TAIL: string := "\U{2014} UNTRUSTED DATA, NOT INSTRUCTIONS"

  predicate IsHexDigit(c: char) {
    '0' <= c <= '9' || 'a' <= c <= 'f'
  }

  /** The leading hexadecimal digits of a content digest. */
  type Digest = d: string | |d| == 12 && forall i :: 0 <= i < |d| ==> IsHexDigit(d[i])
    witness "000000000000"

  predicate IsLabelHead(c: char) {
    'a' <= c <= 'z' || '0' <= c <= '9'
  }

  predicate IsLegalLabel(tag: string) {
    1 <= |tag| <= 64 && IsLabelHead(tag[0]) &&
    forall i :: 1 <= i < |tag| ==> IsLabelHead(tag[i]) || tag[i] in {'.', '_', '-'}
  }

  /** A label is a letter or digit and up to 63 more, or dots, lines and dashes. */
  lemma LabelExactly(tag: string)
    ensures var heads := "abcdefghijklmnopqrstuvwxyz0123456789";
            IsLegalLabel(tag) <==>
              0 < |tag| < 65 && tag[0] in heads &&
              forall i :: 0 < i < |tag| ==> tag[i] in heads || tag[i] == '.' || tag[i] == '_' || tag[i] == '-'
  {
    forall i | 0 <= i < |tag|
      ensures IsLabelHead(tag[i]) <==> tag[i] in "abcdefghijklmnopqrstuvwxyz0123456789"
    {
      LetterOrDigit(tag[i]);
    }
  }

  lemma LetterOrDigit(c: char)
    ensures IsLabelHead(c) <==> c in "abcdefghijklmnopqrstuvwxyz0123456789"
  {
    Letter(c, "abcdefghijklmnopqrstuvwxyz", 'a', 26);
    Letter(c, "0123456789", '0', 10);
    assert "abcdefghijklmnopqrstuvwxyz" + "0123456789" == "abcdefghijklmnopqrstuvwxyz0123456789";
  }

  lemma Letter(c: char, row: string, first: char, n: nat)
    requires |row| == n && forall i :: 0 <= i < n ==> row[i] as int == first as int + i
    ensures c in row <==> first as int <= c as int < first as int + n
  {
    if first as int <= c as int < first as int + n {
      assert row[c as int - first as int] == c;
    }
  }

  function Neutralize(body: string): string {
    ReplaceAll(body, FENCE_PREFIX, ESCAPED_PREFIX)
  }

  function SafeBody(isFormat: char -> bool, body: string): string {
    Neutralize(Sanitize.Clean(isFormat, body))
  }

  datatype LabelError = InvalidLabel(tag: string)

  function MakeUntrustedBlock(isFormat: char -> bool, digest: string -> Digest, declare: bool -> Declaration,
                              tag: string, title: string, body: string, terse: bool)
    : (r: Result<string, LabelError>)
    ensures r.Ok? <==> IsLegalLabel(tag)
  {
    if !IsLegalLabel(tag) then Err(InvalidLabel(tag))
    else
      var safe := SafeBody(isFormat, body);
      Ok(Block(title, declare(terse), digest(safe), tag, safe))
  }

  function Block(title: string, declaration: string, digest: string, tag: string, safe: string): string {
    Layout(FENCE_PREFIX, HEADER_TAIL, title, declaration, digest, tag, safe)
  }

  function Layout(prefix: string, headerTail: string, title: string, declaration: string,
                  digest: string, tag: string, safe: string): string {
    var fence := prefix + digest;
    "## " + title + " " + headerTail + "\n" + declaration + "\n\n<<<" + fence + " label=" + tag + "\n"
    + safe + "\n" + fence + ">>>\n"
  }

  /** A reader that trusts nothing but the prefix: skip the line that holds its
      first occurrence, and take everything up to the next one. */
  function ReadFenced(block: string): Option<string> {
    ReadBetween(block, FENCE_PREFIX)
  }

  function ReadBetween(block: string, prefix: string): Option<string>
    requires prefix != ""
  {
    var start := Find(block, prefix);
    FindBounds(block, prefix);
    var fromFence := block[start..];
    var eol := Find(fromFence, "\n");
    FindBounds(fromFence, "\n");
    if eol == |fromFence| then None
    else
      var inside := fromFence[eol + 1..];
      var end := Find(inside, prefix);
      FindBounds(inside, prefix);
      if end == |inside| || end == 0 || inside[end - 1] != '\n' then None
      else Some(inside[..end - 1])
  }

  // ----- no fence inside the body -----

  lemma PrefixBreaks()
    ensures Breaks(FENCE_PREFIX, ESCAPED_PREFIX)
  {
    assert FENCE_PREFIX[14] != ESCAPED_PREFIX[14];
  }

  lemma NeutralizedHasNoPrefix(body: string)
    ensures Count(Neutralize(body), FENCE_PREFIX) == 0
  {
    PrefixBreaks();
    ReplacedIsGone(body, FENCE_PREFIX, ESCAPED_PREFIX);
  }

  /** Only bodies that hold the prefix are rewritten. */
  lemma NeutralizeIsIdentityWithoutPrefix(body: string)
    ensures Neutralize(body) == body <==> Count(body, FENCE_PREFIX) == 0
  {
    NeutralizedHasNoPrefix(body);
    if Count(body, FENCE_PREFIX) == 0 {
      NothingToReplace(body, FENCE_PREFIX, ESCAPED_PREFIX);
    }
  }

  // ----- the block, piece by piece, for any prefix of the right shape -----

  /** All the proofs need to know of the prefix. */
  predicate IsFencePrefix(prefix: string) {
    prefix != "" && prefix[0] !in prefix[1..] && ' ' !in prefix && '<' !in prefix && '\n' !in prefix
  }

  /** The parts of a block that are not chosen by whoever wrote title and body. */
  datatype Frame = Frame(prefix: string, headerTail: string, declaration: string, digest: string, tag: string)
  {
    function Opening(): string { headerTail + "\n" + declaration + "\n\n<<" }
    function Line(): string { digest + " label=" + tag }
    function Closing(): string { digest + ">>>\n" }
    function Fenced(safe: string): string {
      prefix + (Line() + ['\n'] + (safe + ['\n'] + (prefix + Closing())))
    }

    ghost predicate Valid() {
      IsFencePrefix(prefix) && prefix[0] !in Opening() && prefix[0] !in Line() && prefix[0] !in Closing() &&
      prefix[0] != '#' && '\n' !in Line()
    }
  }

  lemma LayoutPieces(f: Frame, title: string, safe: string)
    ensures Layout(f.prefix, f.headerTail, title, f.declaration, f.digest, f.tag, safe)
         == "##" + [' '] + (title + [' '] + (f.Opening() + ['<'] + f.Fenced(safe)))
  {
    var head := "## " + title + " " + f.headerTail + "\n" + f.declaration + "\n\n<<<";
    assert head == "##" + [' '] + (title + [' '] + (f.Opening() + ['<']));
    var tail := f.prefix + f.digest + " label=" + f.tag + "\n" + safe + "\n" + f.prefix + f.digest + ">>>\n";
    assert tail == f.Fenced(safe);
    assert Layout(f.prefix, f.headerTail, title, f.declaration, f.digest, f.tag, safe) == head + tail;
  }

  lemma FencedCount(f: Frame, safe: string)
    requires f.Valid() && Count(safe, f.prefix) == 0
    ensures Count(f.Fenced(safe), f.prefix) == 2
  {
    var end := f.prefix + f.Closing();
    CountAbsent(f.Closing(), f.prefix);
    CountAtFront(f.prefix, f.Closing());
    CountAcross(safe, '\n', end, f.prefix);
    CountAbsent(f.Line(), f.prefix);
    CountAcross(f.Line(), '\n', safe + ['\n'] + end, f.prefix);
    CountAtFront(f.prefix, f.Line() + ['\n'] + (safe + ['\n'] + end));
  }

  lemma LayoutCount(f: Frame, title: string, safe: string)
    requires f.Valid() && Count(safe, f.prefix) == 0
    ensures Count(Layout(f.prefix, f.headerTail, title, f.declaration, f.digest, f.tag, safe), f.prefix)
         == 2 + Count(title, f.prefix)
  {
    LayoutPieces(f, title, safe);
    FencedCount(f, safe);
    CountAbsent(f.Opening(), f.prefix);
    CountAcross(f.Opening(), '<', f.Fenced(safe), f.prefix);
    var fromTail := f.Opening() + ['<'] + f.Fenced(safe);
    CountAcross(title, ' ', fromTail, f.prefix);
    CountAbsent("##", f.prefix);
    CountAcross("##", ' ', title + [' '] + fromTail, f.prefix);
  }

  lemma ReadInside(f: Frame, safe: string)
    requires f.Valid() && Count(safe, f.prefix) == 0
    ensures var fenced := f.Fenced(safe);
            var eol := Find(fenced, "\n");
            eol < |fenced| &&
            var inside := fenced[eol + 1..];
            Find(inside, f.prefix) == |safe| + 1 && |safe| + 1 < |inside| &&
            inside[|safe|] == '\n' && inside[..|safe|] == safe
  {
    hide Find, Count;
    var fenced := f.Fenced(safe);
    var opening := f.prefix + f.Line();
    var inside := safe + ['\n'] + f.prefix + f.Closing();
    assert inside == safe + ['\n'] + (f.prefix + f.Closing());
    assert fenced == opening + ['\n'] + inside;
    FindChar(opening, '\n', inside);
    assert fenced[|opening| + 1..] == inside;
    FindAfter(safe, '\n', f.prefix, f.Closing());
  }

  lemma FindFence(f: Frame, title: string, safe: string)
    requires f.Valid() && Count(title, f.prefix) == 0
    ensures var block := Layout(f.prefix, f.headerTail, title, f.declaration, f.digest, f.tag, safe);
            var start := Find(block, f.prefix);
            start <= |block| && block[start..] == f.Fenced(safe)
  {
    var before := "##" + [' '] + (title + [' '] + f.Opening());
    var rest := f.Line() + ['\n'] + (safe + ['\n'] + (f.prefix + f.Closing()));
    LayoutPieces(f, title, safe);
    BeforeFence(f, title, safe);
    CountAbsent(f.Opening(), f.prefix);
    CountAcross(title, ' ', f.Opening(), f.prefix);
    CountAbsent("##", f.prefix);
    CountAcross("##", ' ', title + [' '] + f.Opening(), f.prefix);
    FindAfter(before, '<', f.prefix, rest);
  }

  lemma BeforeFence(f: Frame, title: string, safe: string)
    ensures var before := "##" + [' '] + (title + [' '] + f.Opening());
            var rest := f.Line() + ['\n'] + (safe + ['\n'] + (f.prefix + f.Closing()));
            "##" + [' '] + (title + [' '] + (f.Opening() + ['<'] + f.Fenced(safe))) == before + ['<'] + f.prefix + rest
            && (before + ['<'] + f.prefix + rest)[|before| + 1..] == f.Fenced(safe)
  {
  }

  lemma LayoutIsReadBack(f: Frame, title: string, safe: string)
    requires f.Valid() && Count(safe, f.prefix) == 0 && Count(title, f.prefix) == 0
    ensures ReadBetween(Layout(f.prefix, f.headerTail, title, f.declaration, f.digest, f.tag, safe), f.prefix)
         == Some(safe)
  {
    hide Find, Count, Layout, ReadBetween;
    FindFence(f, title, safe);
    ReadInside(f, safe);
    ReadFrom(Layout(f.prefix, f.headerTail, title, f.declaration, f.digest, f.tag, safe), f.prefix, f.Fenced(safe),
             safe);
  }

  lemma ReadFrom(block: string, prefix: string, fenced: string, safe: string)
    requires prefix != "" && Find(block, prefix) <= |block| && block[Find(block, prefix)..] == fenced
    requires var eol := Find(fenced, "\n");
             eol < |fenced| &&
             var inside := fenced[eol + 1..];
             Find(inside, prefix) == |safe| + 1 && |safe| + 1 < |inside| &&
             inside[|safe|] == '\n' && inside[..|safe|] == safe
    ensures ReadBetween(block, prefix) == Some(safe)
  {
  }

  // ----- the block as it is made -----

  function MadeFrame(digest: Digest, declaration: Declaration, tag: string): Frame {
    Frame(FENCE_PREFIX, HEADER_TAIL, declaration, digest, tag)
  }

  lemma PrefixIsFencePrefix()
    ensures IsFencePrefix(FENCE_PREFIX) && FENCE_PREFIX[0] == 'L'
  {
  }

  lemma HeaderTailHasNoL()
    ensures 'L' !in HEADER_TAIL
  {
  }

  lemma LabelsLack(tag: string)
    requires IsLegalLabel(tag)
    ensures 'L' !in tag && '\n' !in tag && 'L' !in " label=" && '\n' !in " label=" && 'L' !in ">\n<"
  {
  }

  lemma FrameIsValid(f: Frame)
    requires IsFencePrefix(f.prefix) && f.prefix[0] == 'L'
    requires 'L' !in f.Opening() && 'L' !in f.Line() && 'L' !in f.Closing() && '\n' !in f.Line()
    ensures f.Valid()
  {
  }

  lemma MadeFrameIsValid(digest: Digest, declaration: Declaration, tag: string)
    requires IsLegalLabel(tag)
    ensures MadeFrame(digest, declaration, tag).Valid()
  {
    var f := MadeFrame(digest, declaration, tag);
    PrefixIsFencePrefix();
    HeaderTailHasNoL();
    LabelsLack(tag);
    PartsLack(f, 'L');
    LineIsOneLine(f);
    FrameIsValid(f);
  }

  lemma LineIsOneLine(f: Frame)
    requires '\n' !in f.digest && '\n' !in f.tag && '\n' !in " label="
    ensures '\n' !in f.Line()
  {
  }

  lemma PartsLack(f: Frame, c: char)
    requires c !in f.headerTail && c !in f.declaration && c !in f.digest && c !in f.tag
    requires c !in " label=" && c !in ">\n<"
    ensures c !in f.Opening() && c !in f.Line() && c !in f.Closing()
  {
  }

  /** The prefix occurs twice in the block, plus once for each time the title
      carries it: the body adds none. */
  lemma BlockCount(isFormat: char -> bool, digest: string -> Digest, declare: bool -> Declaration,
                   tag: string, title: string, body: string, terse: bool)
    requires IsLegalLabel(tag)
    ensures Count(MakeUntrustedBlock(isFormat, digest, declare, tag, title, body, terse).value, FENCE_PREFIX)
         == 2 + Count(title, FENCE_PREFIX)
  {
    var safe := SafeBody(isFormat, body);
    NeutralizedHasNoPrefix(Sanitize.Clean(isFormat, body));
    MadeFrameIsValid(digest(safe), declare(terse), tag);
    LayoutCount(MadeFrame(digest(safe), declare(terse), tag), title, safe);
  }

  /** What the reader finds inside the fence is exactly the neutralized body,
      whatever the body tries; only the title must not carry the prefix. */
  lemma FenceHoldsWholeBody(isFormat: char -> bool, digest: string -> Digest, declare: bool -> Declaration,
                            tag: string, title: string, body: string, terse: bool)
    requires IsLegalLabel(tag) && Count(title, FENCE_PREFIX) == 0
    ensures ReadFenced(MakeUntrustedBlock(isFormat, digest, declare, tag, title, body, terse).value)
         == Some(SafeBody(isFormat, body))
  {
    var safe := SafeBody(isFormat, body);
    NeutralizedHasNoPrefix(Sanitize.Clean(isFormat, body));
    MadeFrameIsValid(digest(safe), declare(terse), tag);
    LayoutIsReadBack(MadeFrame(digest(safe), declare(terse), tag), title, safe);
  }

  lemma LayoutStart(prefix: string, headerTail: string, title: string, declaration: string,
                    digest: string, tag: string, safe: string)
    ensures "## " + title + " " + headerTail + "\n" + declaration + "\n\n<<<" + prefix
         <= Layout(prefix, headerTail, title, declaration, digest, tag, safe)
  {
    var front := "## " + title + " " + headerTail + "\n" + declaration + "\n\n<<<" + prefix;
    var rest := digest + " label=" + tag + "\n" + safe + "\n" + (prefix + digest) + ">>>\n";
    assert Layout(prefix, headerTail, title, declaration, digest, tag, safe) == front + rest;
  }

  /** The header and the declaration asked for stand in front of the fence. */
  lemma BlockStartsWithDeclaration(isFormat: char -> bool, digest: string -> Digest, declare: bool -> Declaration,
                                   tag: string, title: string, body: string, terse: bool)
    requires IsLegalLabel(tag)
    ensures "## " + title + " " + HEADER_TAIL + "\n" + declare(terse) + "\n\n<<<" + FENCE_PREFIX
         <= MakeUntrustedBlock(isFormat, digest, declare, tag, title, body, terse).value
  {
    hide Layout;
    var safe := SafeBody(isFormat, body);
    LayoutStart(FENCE_PREFIX, HEADER_TAIL, title, declare(terse), digest(safe), tag, safe);
  }

  /** The boundary can be checked: the token after the prefix is the digest of the
      very text a reader finds inside the fence, and the label follows it. */
  lemma TokenIsDigestOfBody(isFormat: char -> bool, digest: string -> Digest, declare: bool -> Declaration,
                            tag: string, title: string, body: string, terse: bool)
    requires IsLegalLabel(tag) && Count(title, FENCE_PREFIX) == 0
    ensures var block := MakeUntrustedBlock(isFormat, digest, declare, tag, title, body, terse).value;
            var start := Find(block, FENCE_PREFIX);
            ReadFenced(block).Some? && start + 15 <= |block| &&
            digest(ReadFenced(block).value) + " label=" + tag + "\n" <= block[start + 15..]
  {
    hide Find, Count, ReadBetween, Neutralize, Layout, Frame.Valid;
    var safe := SafeBody(isFormat, body);
    var f := MadeFrame(digest(safe), declare(terse), tag);
    FenceHoldsWholeBody(isFormat, digest, declare, tag, title, body, terse);
    NeutralizedHasNoPrefix(Sanitize.Clean(isFormat, body));
    MadeFrameIsValid(digest(safe), declare(terse), tag);
    FindFence(f, title, safe);
    AfterToken(f, safe);
  }

  lemma AfterToken(f: Frame, safe: string)
    requires |f.prefix| == 15
    ensures |f.Fenced(safe)| >= 15 && f.digest + " label=" + f.tag + "\n" <= f.Fenced(safe)[15..]
  {
    var rest := safe + ['\n'] + (f.prefix + f.Closing());
    assert f.Fenced(safe)[15..] == f.Line() + ['\n'] + rest;
  }

  // ----- a title with the prefix -----

  /** What a reader finds that starts in `line`: it stops at the latest at the
      end of `before`, and sees nothing beyond. */
  function ReadWithin(before: string, prefix: string): Option<string>
    requires prefix != ""
  {
    var start := Find(before, prefix);
    FindBounds(before, prefix);
    var fromPrefix := before[start..];
    var eol := Find(fromPrefix, "\n");
    FindBounds(fromPrefix, "\n");
    if eol == |fromPrefix| then None
    else
      var rest := fromPrefix[eol + 1..];
      var end := Find(rest, prefix);
      FindBounds(rest, prefix);
      if end == |rest| || end == 0 || rest[end - 1] != '\n' then None else Some(rest[..end - 1])
  }

  /** The reader's three searches end within `before`. */
  lemma ReadsWithin(before: string, prefix: string, more: string, start: nat, eol: nat)
    requires prefix != "" && start < |before| && Find(before, prefix) == start
    requires Find(before + more, prefix) == start
    requires eol < |before| - start && Find(before[start..], "\n") == eol
    requires Find(before[start..] + more, "\n") == eol
    requires Count(before[start..][eol + 1..], prefix) > 0
    ensures ReadBetween(before + more, prefix) == ReadWithin(before, prefix)
  {
    hide Find, Count;
    var fromPrefix := before[start..];
    var rest := fromPrefix[eol + 1..];
    assert (before + more)[start..] == fromPrefix + more;
    assert (fromPrefix + more)[eol + 1..] == rest + more;
    FindEarly(rest, more, prefix);
    var end := Find(rest, prefix);
    assert end > 0 ==> (rest + more)[end - 1] == rest[end - 1];
    assert (rest + more)[..end] == rest[..end];
    assert end > 0 ==> (rest + more)[..end - 1] == rest[..end - 1];
  }

  lemma FirstLineEnd(line: string, between: string, prefix: string, start: nat, more: string) returns (eol: nat)
    requires prefix != "" && start <= |line|
    ensures var fromPrefix := (line + ("\n" + between + prefix))[start..];
            eol <= |line| - start && Find(fromPrefix, "\n") == eol && Find(fromPrefix + more, "\n") == eol &&
            eol < |fromPrefix| && Count(fromPrefix[eol + 1..], prefix) > 0
  {
    var a := line[start..];
    var fromPrefix := a + ['\n'] + (between + prefix);
    assert fromPrefix == (line + ("\n" + between + prefix))[start..];
    OccursCounts(a, '\n', between + prefix);
    FindEarly(fromPrefix, more, "\n");
    EarlyLineEnd(a, between + prefix);
    eol := Find(fromPrefix, "\n");
    EndsWithPrefix(a, between, prefix, eol);
  }

  lemma ReadEarly(line: string, between: string, prefix: string, more: string)
    requires prefix != "" && Count(line, prefix) > 0
    ensures var before := line + ("\n" + between + prefix);
            ReadBetween(before + more, prefix) == ReadWithin(before, prefix)
  {
    hide ReadBetween, ReadWithin;
    var tail := "\n" + between + prefix;
    var start := Find(line, prefix);
    FindEarly(line, tail, prefix);
    FindEarly(line, tail + more, prefix);
    assert line + tail + more == line + (tail + more);
    var eol := FirstLineEnd(line, between, prefix, start, more);
    ReadsWithin(line + tail, prefix, more, start, eol);
  }

  lemma OccursCounts(a: string, c: char, b: string)
    ensures Count(a + [c] + b, [c]) > 0
  {
    CountGrows(a, [c] + b, [c]);
    assert a + [c] + b == a + ([c] + b);
    assert [c] <= [c] + b;
  }

  lemma EarlyLineEnd(a: string, b: string)
    ensures Find(a + ['\n'] + b, "\n") <= |a|
  {
    if Count(a, "\n") > 0 {
      FindEarly(a, ['\n'] + b, "\n");
      assert a + ['\n'] + b == a + (['\n'] + b);
    } else {
      NoNewline(a);
      FindChar(a, '\n', b);
    }
  }

  lemma {:induction false} NoNewline(a: string)
    requires Count(a, "\n") == 0
    ensures '\n' !in a
    decreases a
  {
    if a != "" {
      NoNewline(a[1..]);
      assert "\n" <= a <==> a[0] == '\n';
    }
  }

  lemma EndsWithPrefix(a: string, between: string, prefix: string, eol: nat)
    requires prefix != "" && eol <= |a|
    ensures var rest := (a + ['\n'] + (between + prefix))[eol + 1..];
            Count(rest, prefix) > 0
  {
    var whole := a + ['\n'] + (between + prefix);
    var front := (a + ['\n'] + between)[eol + 1..];
    assert whole[eol + 1..] == front + prefix;
    CountGrows(front, prefix, prefix);
    assert prefix <= prefix;
  }

  /** The fence holds every body whole exactly when the title is free of the
      prefix: with the prefix in the title the reader stops before the fence and
      finds the same for all bodies. */
  lemma TitleDecides(isFormat: char -> bool, digest: string -> Digest, declare: bool -> Declaration,
                     tag: string, title: string, terse: bool)
    requires IsLegalLabel(tag)
    ensures Count(title, FENCE_PREFIX) == 0 <==>
            forall body: string ::
              ReadFenced(MakeUntrustedBlock(isFormat, digest, declare, tag, title, body, terse).value)
                == Some(SafeBody(isFormat, body))
  {
    if Count(title, FENCE_PREFIX) == 0 {
      forall body: string
        ensures ReadFenced(MakeUntrustedBlock(isFormat, digest, declare, tag, title, body, terse).value)
             == Some(SafeBody(isFormat, body))
      {
        FenceHoldsWholeBody(isFormat, digest, declare, tag, title, body, terse);
      }
    } else {
      SpoiledTitle(isFormat, digest, declare, tag, title, "", "\n", terse);
      TwoSafeBodies(isFormat);
    }
  }

  lemma TwoSafeBodies(isFormat: char -> bool)
    ensures SafeBody(isFormat, "") != SafeBody(isFormat, "\n")
  {
    assert "\n"[1..] == "";
    assert Sanitize.Clean(isFormat, "\n") == "\n";
  }

  lemma SpoiledTitle(isFormat: char -> bool, digest: string -> Digest, declare: bool -> Declaration,
                     tag: string, title: string, body1: string, body2: string, terse: bool)
    requires IsLegalLabel(tag) && Count(title, FENCE_PREFIX) > 0
    ensures ReadFenced(MakeUntrustedBlock(isFormat, digest, declare, tag, title, body1, terse).value)
         == ReadFenced(MakeUntrustedBlock(isFormat, digest, declare, tag, title, body2, terse).value)
  {
    TitleIsRead(digest(SafeBody(isFormat, body1)), declare(terse), tag, title, SafeBody(isFormat, body1));
    TitleIsRead(digest(SafeBody(isFormat, body2)), declare(terse), tag, title, SafeBody(isFormat, body2));
  }

  lemma TitleIsRead(digest: Digest, declaration: Declaration, tag: string, title: string, safe: string)
    requires Count(title, FENCE_PREFIX) > 0
    ensures var line, between := "##" + [' '] + (title + [' '] + HEADER_TAIL), declaration + "\n\n<<<";
            ReadFenced(Block(title, declaration, digest, tag, safe))
              == ReadWithin(line + ("\n" + between + FENCE_PREFIX), FENCE_PREFIX)
  {
    hide ReadBetween, ReadWithin;
    var f := MadeFrame(digest, declaration, tag);
    var line, between := "##" + [' '] + (title + [' '] + HEADER_TAIL), declaration + "\n\n<<<";
    LayoutAtPrefix(f, title, safe);
    TitleCounts(title, HEADER_TAIL, FENCE_PREFIX);
    ReadEarly(line, between, FENCE_PREFIX, AfterPrefix(f, safe));
  }

  lemma TitleCounts(title: string, headerTail: string, prefix: string)
    requires prefix != "" && Count(title, prefix) > 0
    ensures Count("##" + [' '] + (title + [' '] + headerTail), prefix) > 0
  {
    CountGrows(title, [' '] + headerTail, prefix);
    assert title + ([' '] + headerTail) == title + [' '] + headerTail;
    CountGrows("##" + [' '], title + [' '] + headerTail, prefix);
  }

  function AfterPrefix(f: Frame, safe: string): string {
    f.Line() + ['\n'] + (safe + ['\n'] + (f.prefix + f.Closing()))
  }

  lemma LayoutAtPrefix(f: Frame, title: string, safe: string)
    ensures var line, between := "##" + [' '] + (title + [' '] + f.headerTail), f.declaration + "\n\n<<<";
            Layout(f.prefix, f.headerTail, title, f.declaration, f.digest, f.tag, safe)
              == line + ("\n" + between + f.prefix) + AfterPrefix(f, safe)
  {
    LayoutPieces(f, title, safe);
    var line, between := "##" + [' '] + (title + [' '] + f.headerTail), f.declaration + "\n\n<<<";
    assert f.Opening() + ['<'] == f.headerTail + ("\n" + between);
    assert f.Fenced(safe) == f.prefix + AfterPrefix(f, safe);
    assert "##" + [' '] + (title + [' '] + (f.Opening() + ['<'] + f.Fenced(safe)))
        == line + ("\n" + between) + f.Fenced(safe);
  }
}
