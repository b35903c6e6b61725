/**
 * Structural cleaning of untrusted process output.
 *
 * The scanner below walks the text with an index and skips whole escape
 * sequences by lookahead.  It is proved against a one-character-at-a-time
 * automaton, and the promises about control functions (ECMA-48 sections 5.4
 * and 5.6, and the escape sequences of ECMA-35) are proved of the automaton.
 */
module Sanitize {
  const ESC: char := '\U{1B}'
  const BEL: char := '\U{07}'
  const DEL: char := '\U{7F}'
  const ZWNJ: char := '\U{200C}'
  const ZWJ: char := '\U{200D}'

  /** Where the reader stands with respect to the escape sequence it is in, if any. */
  datatype Mode = Ground | Escape | Intermediate | Csi | ControlString | StringEscape

  /** Characters that introduce a control string: OSC, DCS, SOS, PM and APC. */
  predicate IsStringIntroducer(c: char) {
    c in {']', 'P', 'X', '^', '_'}
  }

  /** A character that survives cleaning when it is met outside every escape
      sequence; `isFormat` is membership in the Unicode category Cf. */
  predicate IsKept(isFormat: char -> bool, c: char) {
    if c < ' ' || c == DEL then c in {'\t', '\n', '\r'}
    else if '\U{80}' <= c <= '\U{9F}' then false
    else !isFormat(c) || c in {ZWNJ, ZWJ}
  }

  function Next(mode: Mode, c: char): Mode {
    match mode
    case Ground => if c == ESC then Escape else Ground
    case Escape =>
      if c == '[' then Csi
      else if IsStringIntroducer(c) then ControlString
      else if ' ' <= c <= '/' then Intermediate
      else if c == ESC then Escape
      else Ground
    case Intermediate => if ' ' <= c <= '/' then Intermediate else if c == ESC then Escape else Ground
    case Csi => if ' ' <= c <= '?' then Csi else if c == ESC then Escape else Ground
    case ControlString => if c == BEL then Ground else if c == ESC then StringEscape else ControlString
    case StringEscape =>
      if c == '\\' || c == BEL then Ground else if c == ESC then StringEscape else ControlString
  }

  /** Whether `c` is read as ordinary text: outside every sequence, or because
      it cannot belong to the sequence that was open and so aborts it. */
  predicate IsText(mode: Mode, c: char) {
    mode.Ground? || ((mode.Escape? || mode.Intermediate? || mode.Csi?) && !(' ' <= c <= '~'))
  }

  /** The text the automaton lets through, starting in `mode`. */
  function Filter(isFormat: char -> bool, mode: Mode, s: string): string
    decreases s
  {
    if s == "" then ""
    else (if IsText(mode, s[0]) && IsKept(isFormat, s[0]) then [s[0]] else "")
         + Filter(isFormat, Next(mode, s[0]), s[1..])
  }

  function After(mode: Mode, s: string): Mode
    decreases s
  {
    if s == "" then mode else After(Next(mode, s[0]), s[1..])
  }

  /** What the automaton lets through of `text` from position `i` on. */
  function FilterFrom(isFormat: char -> bool, mode: Mode, text: string, i: nat): string
    requires i <= |text|
    decreases |text| - i
  {
    if i == |text| then ""
    else (if IsText(mode, text[i]) && IsKept(isFormat, text[i]) then [text[i]] else "")
         + FilterFrom(isFormat, Next(mode, text[i]), text, i + 1)
  }

  /** No escape sequence is open at the end of `s`. */
  predicate EndsInGround(s: string) {
    After(Ground, s) == Ground
  }

  function Clean(isFormat: char -> bool, s: string): string {
    Filter(isFormat, Ground, s)
  }

  // ----- the scanner -----

  /** Index just past the escape sequence that starts at `index`; a sequence cut
      short is dropped up to the character that cannot belong to it. */
  method SkipEscape(isFormat: char -> bool, text: string, index: nat) returns (next: nat)
    requires index < |text| && text[index] == ESC
    ensures index < next <= |text|
    ensures FilterFrom(isFormat, Ground, text, index) == FilterFrom(isFormat, Ground, text, next)
  {
    var cursor := index + 1;
    if cursor >= |text| {
      return |text|;
    }
    var intro := text[cursor];
    if intro == '[' {
      cursor := cursor + 1;
      while cursor < |text|
        invariant index + 2 <= cursor <= |text|
        invariant FilterFrom(isFormat, Ground, text, index) == FilterFrom(isFormat, Csi, text, cursor)
      {
        if '@' <= text[cursor] <= '~' {
          return cursor + 1;
        }
        if !(' ' <= text[cursor] <= '?') {
          return cursor;
        }
        cursor := cursor + 1;
      }
      return |text|;
    }
    if IsStringIntroducer(intro) {
      cursor := cursor + 1;
      while cursor < |text|
        invariant index + 2 <= cursor <= |text|
        invariant FilterFrom(isFormat, Ground, text, index) == FilterFrom(isFormat, ControlString, text, cursor)
      {
        if text[cursor] == BEL {
          return cursor + 1;
        }
        if text[cursor] == ESC && cursor + 1 < |text| && text[cursor + 1] == '\\' {
          return cursor + 2;
        }
        cursor := cursor + 1;
      }
      return |text|;
    }
    while cursor < |text| && ' ' <= text[cursor] <= '/'
      invariant index + 1 <= cursor <= |text|
      invariant FilterFrom(isFormat, Ground, text, index) == FilterFrom(isFormat, Intermediate, text, cursor)
    {
      cursor := cursor + 1;
    }
    if cursor < |text| && '0' <= text[cursor] <= '~' {
      return cursor + 1;
    }
    return cursor;
  }

  method SanitizeTerminalText(isFormat: char -> bool, text: string) returns (clean: string)
    ensures clean == Clean(isFormat, text)
  {
    if text == "" {
      return "";
    }
    FromIsSuffix(isFormat, Ground, text, 0);
    clean := "";
    var index := 0;
    while index < |text|
      invariant 0 <= index <= |text|
      invariant clean + FilterFrom(isFormat, Ground, text, index) == Clean(isFormat, text)
    {
      var c := text[index];
      if c == ESC {
        index := SkipEscape(isFormat, text, index);
        continue;
      }
      Regroup(clean, c, FilterFrom(isFormat, Ground, text, index + 1));
      if c < ' ' || c == DEL {
        if c in {'\t', '\n', '\r'} {
          clean := clean + [c];
        }
        index := index + 1;
        continue;
      }
      if '\U{80}' <= c <= '\U{9F}' {
        index := index + 1;
        continue;
      }
      if isFormat(c) && c !in {ZWNJ, ZWJ} {
        index := index + 1;
        continue;
      }
      clean := clean + [c];
      index := index + 1;
    }
  }

  method HasTerminalControls(isFormat: char -> bool, text: string) returns (has: bool)
    ensures has <==> exists i :: 0 <= i < |text| && !IsKept(isFormat, text[i])
  {
    if text == "" {
      return false;
    }
    var clean := SanitizeTerminalText(isFormat, text);
    CleanFixpoint(isFormat, text);
    return clean != text;
  }

  // ----- how the automaton reads one character -----

  lemma Regroup(head: string, c: char, tail: string)
    ensures head + ([c] + tail) == head + [c] + tail && head + ("" + tail) == head + tail
  {
  }

  lemma {:induction false} FromIsSuffix(isFormat: char -> bool, mode: Mode, text: string, i: nat)
    requires i <= |text|
    ensures FilterFrom(isFormat, mode, text, i) == Filter(isFormat, mode, text[i..])
    decreases |text| - i
  {
    if i < |text| {
      FromIsSuffix(isFormat, Next(mode, text[i]), text, i + 1);
      assert text[i..][1..] == text[i + 1..];
    }
  }

  lemma {:induction false} FilterAppend(isFormat: char -> bool, mode: Mode, p: string, q: string)
    ensures Filter(isFormat, mode, p + q) == Filter(isFormat, mode, p) + Filter(isFormat, After(mode, p), q)
    ensures After(mode, p + q) == After(After(mode, p), q)
    decreases p
  {
    hide Next, IsText, IsKept;
    if p == "" {
      assert p + q == q;
    } else {
      assert (p + q)[1..] == p[1..] + q;
      FilterAppend(isFormat, Next(mode, p[0]), p[1..], q);
    }
  }

  // ----- idempotence -----

  predicate AllKept(isFormat: char -> bool, s: string) {
    forall i :: 0 <= i < |s| ==> IsKept(isFormat, s[i])
  }

  lemma {:induction false} FilterKeeps(isFormat: char -> bool, mode: Mode, s: string)
    ensures AllKept(isFormat, Filter(isFormat, mode, s))
    ensures |Filter(isFormat, mode, s)| <= |s|
    decreases s
  {
    if s != "" {
      FilterKeeps(isFormat, Next(mode, s[0]), s[1..]);
    }
  }

  lemma {:induction false} KeptTextIsClean(isFormat: char -> bool, s: string)
    requires AllKept(isFormat, s)
    ensures Clean(isFormat, s) == s && EndsInGround(s)
  {
    if s != "" {
      KeptTextIsClean(isFormat, s[1..]);
      assert [s[0]] + s[1..] == s;
    }
  }

  /** The texts that cleaning leaves alone are exactly those made of kept
      characters only. */
  lemma CleanFixpoint(isFormat: char -> bool, s: string)
    ensures Clean(isFormat, s) == s <==> AllKept(isFormat, s)
  {
    if AllKept(isFormat, s) {
      KeptTextIsClean(isFormat, s);
    } else if Clean(isFormat, s) == s {
      FilterKeeps(isFormat, Ground, s);
    }
  }

  lemma CleanIdempotent(isFormat: char -> bool, s: string)
    ensures Clean(isFormat, Clean(isFormat, s)) == Clean(isFormat, s)
  {
    FilterKeeps(isFormat, Ground, s);
    KeptTextIsClean(isFormat, Clean(isFormat, s));
  }

  // ----- which characters survive -----

  /** No C0 but tab, line feed and carriage return, no DEL, no C1, and no format
      character but the two joiners; so no direction override. */
  lemma CleanedCharacters(isFormat: char -> bool, s: string)
    ensures forall c :: c in Clean(isFormat, s) ==>
              (c >= ' ' || c in {'\t', '\n', '\r'}) && c != '\U{7F}' && !('\U{80}' <= c <= '\U{9F}') &&
              (isFormat(c) && c >= ' ' ==> c == '\U{200C}' || c == '\U{200D}')
  {
    FilterKeeps(isFormat, Ground, s);
  }

  /** Conversely, outside every sequence exactly those characters stay, in their
      order: a character that does not open a sequence adds itself or nothing. */
  lemma SurvivesExactly(isFormat: char -> bool, s: string, c: char)
    requires EndsInGround(s) && c != ESC
    ensures EndsInGround(s + [c])
    ensures Clean(isFormat, s + [c]) == Clean(isFormat, s) +
              if c < ' ' then (if c == '\t' || c == '\n' || c == '\r' then [c] else "")
              else if '\U{7F}' <= c <= '\U{9F}' then ""
              else if isFormat(c) && c != '\U{200C}' && c != '\U{200D}' then ""
              else [c]
  {
    FilterAppend(isFormat, Ground, s, [c]);
    assert [c][1..] == "";
  }

  /** A sequence cut short ends in front of the character that cannot belong to
      it: cleaning goes on there as if a text began. */
  lemma CutShortExactly(isFormat: char -> bool, s: string, c: char, rest: string)
    requires After(Ground, s) in {Escape, Intermediate, Csi} && !(' ' <= c <= '~')
    ensures Clean(isFormat, s + [c] + rest) == Clean(isFormat, s) + Clean(isFormat, [c] + rest)
  {
    assert s + [c] + rest == s + ([c] + rest);
    FilterAppend(isFormat, Ground, s, [c] + rest);
  }

  // ----- the standard's control functions -----

  const CSI8: char := '\U{9B}'
  const SOS8: char := '\U{98}'
  const ST8: char := '\U{9C}'

  /** Every character of `s` lies between `low` and `high`. */
  predicate Within(s: string, low: char, high: char) {
    forall i :: 0 <= i < |s| ==> low <= s[i] <= high
  }

  /** CONTROL SEQUENCE INTRODUCER, as an escape sequence or as one C1 character. */
  predicate IsCsi(opening: string) {
    opening == [ESC, '['] || opening == [CSI8]
  }

  /** What follows the introducer, ECMA-48 section 5.4: parameter bytes,
      intermediate bytes, one final byte. */
  predicate IsSequenceBody(params: string, inters: string, final: char) {
    Within(params, '0', '?') && Within(inters, ' ', '/') && '@' <= final <= '~'
  }

  /** The opening delimiters of command strings: APC, DCS, OSC and PM, section 5.6. */
  predicate OpensCommand(opening: string) {
    |opening| >= 1 &&
    if |opening| == 2 then opening[0] == ESC && opening[1] in {'_', 'P', ']', '^'}
    else |opening| == 1 && opening[0] in {'\U{9F}', '\U{90}', '\U{9D}', '\U{9E}'}
  }

  /** A command string: format effectors from BS to CR, and printable characters. */
  predicate IsCommandBody(body: string) {
    forall i :: 0 <= i < |body| ==> '\U{08}' <= body[i] <= '\r' || ' ' <= body[i] <= '~'
  }

  /** START OF STRING, which opens a character string. */
  predicate OpensCharacters(opening: string) {
    opening == [ESC, 'X'] || opening == [SOS8]
  }

  /** A character string may hold anything but SOS and ST, in either form. */
  predicate IsCharacterBody(body: string) {
    forall i :: 0 <= i < |body| ==>
      body[i] !in {SOS8, ST8} && (i + 1 < |body| && body[i] == ESC ==> body[i + 1] !in {'X', '\\'})
  }

  /** STRING TERMINATOR. */
  predicate IsSt(terminator: string) {
    terminator == [ESC, '\\'] || terminator == [ST8]
  }

  /** An escape sequence, ECMA-35: intermediate bytes and one final byte that does
      not open one of the above. */
  predicate IsEscapeBody(inters: string, final: char) {
    Within(inters, ' ', '/') && '0' <= final <= '~' && (inters == "" ==> final != '[' && !IsStringIntroducer(final))
  }

  // ----- what can be inserted without a trace -----

  /** The text is cleaned to nothing and leaves no sequence open. */
  predicate IsSilent(isFormat: char -> bool, s: string) {
    Clean(isFormat, s) == "" && EndsInGround(s)
  }

  /** Put anywhere no sequence is open, it leaves the cleaned text as it was. */
  ghost predicate IsInvisible(isFormat: char -> bool, s: string) {
    forall p: string, q: string :: EndsInGround(p) ==> Clean(isFormat, p + s + q) == Clean(isFormat, p + q)
  }

  lemma InsertionIsInvisible(isFormat: char -> bool, p: string, s: string, q: string)
    requires EndsInGround(p) && IsSilent(isFormat, s)
    ensures Clean(isFormat, p + s + q) == Clean(isFormat, p + q)
  {
    FilterAppend(isFormat, Ground, p, s);
    FilterAppend(isFormat, Ground, p + s, q);
    FilterAppend(isFormat, Ground, p, q);
  }

  /** A text can be inserted without a trace exactly when it is silent. */
  lemma InvisibleMeansSilent(isFormat: char -> bool, s: string)
    requires !isFormat('A')
    ensures IsInvisible(isFormat, s) <==> IsSilent(isFormat, s)
  {
    if IsSilent(isFormat, s) {
      forall p: string, q: string | EndsInGround(p)
        ensures Clean(isFormat, p + s + q) == Clean(isFormat, p + q)
      {
        InsertionIsInvisible(isFormat, p, s, q);
      }
    } else if IsInvisible(isFormat, s) {
      assert "" + s + "" == s && "" + "" == "";
      assert Clean(isFormat, "" + s + "") == Clean(isFormat, "" + "");
      assert !EndsInGround(s);
      assert Clean(isFormat, "" + s + "A") == Clean(isFormat, "" + "A");
      assert "" + s + "A" == s + "A" && "" + "A" == "A";
      LetterIsLost(isFormat, s);
      assert false;
    }
  }

  lemma SilentPrefix(isFormat: char -> bool, s: string, t: string)
    requires IsSilent(isFormat, s)
    ensures IsSilent(isFormat, s + t) <==> IsSilent(isFormat, t)
  {
    FilterAppend(isFormat, Ground, s, t);
  }

  // ----- one function at a time -----

  lemma {:induction false} RunIsSilent(isFormat: char -> bool, mode: Mode, s: string, low: char, high: char)
    requires Within(s, low, high) && ' ' <= low
    requires (mode.Csi? && high <= '?') || (mode.Intermediate? && high <= '/')
    ensures Filter(isFormat, mode, s) == "" && After(mode, s) == mode
  {
    if s != "" {
      RunIsSilent(isFormat, mode, s[1..], low, high);
    }
  }

  lemma Opened(isFormat: char -> bool, c: char, tail: string)
    requires ' ' <= c <= '~'
    ensures Clean(isFormat, [ESC, c] + tail) == Filter(isFormat, Next(Escape, c), tail)
    ensures After(Ground, [ESC, c] + tail) == After(Next(Escape, c), tail)
  {
    var s := [ESC, c] + tail;
    assert s[1..] == [c] + tail && s[1..][1..] == tail;
    assert Clean(isFormat, s) == "" + Filter(isFormat, Escape, s[1..]);
    assert Filter(isFormat, Escape, s[1..]) == "" + Filter(isFormat, Next(Escape, c), tail);
  }

  lemma OneCharacter(isFormat: char -> bool, mode: Mode, c: char)
    requires !IsText(mode, c)
    ensures Filter(isFormat, mode, [c]) == "" && After(mode, [c]) == Next(mode, c)
  {
    assert [c][1..] == "";
  }

  /** A C1 character is dropped, and nothing after it. */
  lemma DroppedAlone(isFormat: char -> bool, c: char, tail: string)
    requires '\U{80}' <= c <= '\U{9F}'
    ensures IsSilent(isFormat, [c] + tail) <==> IsSilent(isFormat, tail)
    ensures Clean(isFormat, [c] + tail) == Clean(isFormat, tail)
  {
    assert ([c] + tail)[1..] == tail;
  }

  /** Printable ASCII is not of category Cf. */
  ghost predicate SparesAscii(isFormat: char -> bool) {
    forall c: char :: ' ' <= c <= '~' ==> !isFormat(c)
  }

  lemma {:induction false} PrintableIsKept(isFormat: char -> bool, s: string)
    requires SparesAscii(isFormat) && Within(s, ' ', '~')
    ensures Clean(isFormat, s) == s && EndsInGround(s)
  {
    assert AllKept(isFormat, s);
    KeptTextIsClean(isFormat, s);
  }

  /** A control sequence introduced by ESC leaves no trace; one introduced by the
      C1 character leaves all but that character in the text. */
  lemma ControlSequenceExactly(isFormat: char -> bool, opening: string, params: string, inters: string, final: char)
    requires SparesAscii(isFormat) && IsCsi(opening) && IsSequenceBody(params, inters, final)
    ensures IsSilent(isFormat, opening + (params + inters + [final])) <==> opening[0] == ESC
    ensures opening[0] != ESC ==>
              Clean(isFormat, opening + (params + inters + [final])) == params + inters + [final]
  {
    var body := params + inters + [final];
    if opening[0] == ESC {
      RunIsSilent(isFormat, Csi, params, '0', '?');
      RunIsSilent(isFormat, Csi, inters, ' ', '/');
      FilterAppend(isFormat, Csi, params, inters);
      FilterAppend(isFormat, Csi, params + inters, [final]);
      OneCharacter(isFormat, Csi, final);
      Opened(isFormat, '[', body);
    } else {
      DroppedAlone(isFormat, CSI8, body);
      assert Within(body, ' ', '~');
      PrintableIsKept(isFormat, body);
      assert body[|body| - 1] == final;
    }
  }

  lemma EscapeSequenceIsSilent(isFormat: char -> bool, inters: string, final: char)
    requires IsEscapeBody(inters, final)
    ensures IsSilent(isFormat, [ESC] + (inters + [final]))
  {
    if inters == "" {
      Opened(isFormat, final, "");
      assert [ESC] + (inters + [final]) == [ESC, final] + "";
    } else {
      var tail := inters[1..];
      RunIsSilent(isFormat, Intermediate, tail, ' ', '/');
      FilterAppend(isFormat, Intermediate, tail, [final]);
      OneCharacter(isFormat, Intermediate, final);
      Opened(isFormat, inters[0], tail + [final]);
      assert [ESC] + (inters + [final]) == [ESC, inters[0]] + (tail + [final]);
    }
  }

  // ----- control strings -----

  /** Inside a string: nothing comes out, and without BEL and ST it goes on. */
  lemma {:induction false} StringGoesOn(isFormat: char -> bool, mode: Mode, body: string)
    requires mode.ControlString? || (mode.StringEscape? && (body == "" || body[0] != '\\'))
    requires BEL !in body && HoldsNoSt7(body)
    ensures Filter(isFormat, mode, body) == "" && After(mode, body) in {ControlString, StringEscape}
    decreases body
  {
    if body != "" {
      assert forall i :: 0 <= i < |body[1..]| ==> body[1..][i] == body[i + 1];
      StringGoesOn(isFormat, Next(mode, body[0]), body[1..]);
    }
  }

  /** No ESC is followed by a backslash. */
  predicate HoldsNoSt7(body: string) {
    forall i :: 0 <= i < |body| - 1 ==> body[i] == ESC ==> body[i + 1] != '\\'
  }

  lemma StringCloses(isFormat: char -> bool, mode: Mode)
    requires mode in {ControlString, StringEscape}
    ensures Filter(isFormat, mode, [ESC, '\\']) == "" && After(mode, [ESC, '\\']) == Ground
    ensures Filter(isFormat, mode, [BEL]) == "" && After(mode, [BEL]) == Ground
    ensures After(mode, [ST8]) != Ground
  {
    assert [ESC, '\\'][1..] == ['\\'];
    OneCharacter(isFormat, mode, ESC);
    OneCharacter(isFormat, StringEscape, '\\');
    FilterAppend(isFormat, mode, [ESC], ['\\']);
    assert [ESC] + ['\\'] == [ESC, '\\'];
    OneCharacter(isFormat, mode, BEL);
    OneCharacter(isFormat, mode, ST8);
  }

  /** A string opened by ESC, without BEL and ST inside, leaves no trace exactly
      when it is closed by ESC and backslash: the C1 terminator is not seen. */
  lemma StringExactly(isFormat: char -> bool, intro: char, body: string, terminator: string)
    requires IsStringIntroducer(intro) && BEL !in body && HoldsNoSt7(body) && IsSt(terminator)
    ensures IsSilent(isFormat, [ESC, intro] + (body + terminator)) <==> terminator == [ESC, '\\']
  {
    StringGoesOn(isFormat, ControlString, body);
    StringCloses(isFormat, After(ControlString, body));
    FilterAppend(isFormat, ControlString, body, terminator);
    Opened(isFormat, intro, body + terminator);
  }

  /** BEL ends a string opened by ESC: what follows is read as text. */
  lemma StringEndsAtBel(isFormat: char -> bool, intro: char, body: string, rest: string)
    requires IsStringIntroducer(intro) && BEL !in body && HoldsNoSt7(body)
    ensures IsSilent(isFormat, [ESC, intro] + (body + [BEL]))
    ensures Clean(isFormat, [ESC, intro] + (body + [BEL]) + rest) == Clean(isFormat, rest)
    ensures IsSilent(isFormat, [ESC, intro] + (body + [BEL]) + rest) <==> IsSilent(isFormat, rest)
  {
    StringGoesOn(isFormat, ControlString, body);
    StringCloses(isFormat, After(ControlString, body));
    FilterAppend(isFormat, ControlString, body, [BEL]);
    Opened(isFormat, intro, body + [BEL]);
    SilentPrefix(isFormat, [ESC, intro] + (body + [BEL]), rest);
    FilterAppend(isFormat, Ground, [ESC, intro] + (body + [BEL]), rest);
  }

  /** Format effectors that cleaning drops: BS, VT and FF. */
  predicate IsDroppedEffector(c: char) {
    c in {'\U{08}', '\U{0B}', '\U{0C}'}
  }

  lemma {:induction false} CommandBodyAsText(isFormat: char -> bool, body: string)
    requires SparesAscii(isFormat) && IsCommandBody(body)
    ensures EndsInGround(body)
    ensures Clean(isFormat, body) == "" <==> forall i :: 0 <= i < |body| ==> IsDroppedEffector(body[i])
  {
    if body != "" {
      CommandBodyAsText(isFormat, body[1..]);
      assert IsKept(isFormat, body[0]) <==> !IsDroppedEffector(body[0]);
    }
  }

  lemma TerminatorsAreSilent(isFormat: char -> bool, terminator: string)
    requires IsSt(terminator)
    ensures IsSilent(isFormat, terminator)
  {
    if terminator == [ST8] {
      DroppedAlone(isFormat, ST8, "");
      assert [ST8] + "" == [ST8];
    } else {
      EscapeSequenceIsSilent(isFormat, "", '\\');
      assert [ESC] + ("" + ['\\']) == [ESC, '\\'];
    }
  }

  /** A command string of the standard leaves no trace exactly when it is opened
      and closed by escape sequences; or when it is opened by the C1 character and
      holds nothing but format effectors that are dropped anyway. */
  lemma CommandStringExactly(isFormat: char -> bool, opening: string, body: string, terminator: string)
    requires SparesAscii(isFormat) && OpensCommand(opening) && IsCommandBody(body) && IsSt(terminator)
    ensures IsSilent(isFormat, opening + (body + terminator)) <==>
            if opening[0] == ESC then terminator == [ESC, '\\']
            else forall i :: 0 <= i < |body| ==> IsDroppedEffector(body[i])
  {
    if opening[0] == ESC {
      assert opening == [ESC, opening[1]];
      StringExactly(isFormat, opening[1], body, terminator);
    } else {
      assert opening == [opening[0]];
      DroppedAlone(isFormat, opening[0], body + terminator);
      CommandBodyAsText(isFormat, body);
      TerminatorsAreSilent(isFormat, terminator);
      FilterAppend(isFormat, Ground, body, terminator);
    }
  }

  /** The text that is left to be read as text when BEL has ended a string. */
  function AfterBel(body: string): string
    requires BEL in body
    decreases body
  {
    if body[0] == BEL then body[1..] else AfterBel(body[1..])
  }

  lemma {:induction false} BelSplits(body: string) returns (front: string)
    requires BEL in body
    ensures BEL !in front && body == front + [BEL] + AfterBel(body)
    decreases body
  {
    if body[0] == BEL {
      front := "";
    } else {
      front := BelSplits(body[1..]);
      front := [body[0]] + front;
      assert body == [body[0]] + body[1..];
    }
  }

  /** A character string of the standard: opened by ESC and without BEL it leaves
      no trace exactly when closed by an escape sequence; with BEL, exactly when
      what follows the first BEL leaves none as text of its own; opened by the C1
      character, exactly when all of it but that character leaves none. */
  lemma CharacterStringExactly(isFormat: char -> bool, opening: string, body: string, terminator: string)
    requires OpensCharacters(opening) && IsCharacterBody(body) && IsSt(terminator)
    ensures IsSilent(isFormat, opening + (body + terminator)) <==>
            if opening[0] != ESC then IsSilent(isFormat, body + terminator)
            else if BEL !in body then terminator == [ESC, '\\']
            else IsSilent(isFormat, AfterBel(body) + terminator)
  {
    assert HoldsNoSt7(body);
    if opening[0] != ESC {
      DroppedAlone(isFormat, SOS8, body + terminator);
    } else if BEL !in body {
      StringExactly(isFormat, 'X', body, terminator);
    } else {
      var front := BelSplits(body);
      var rest := AfterBel(body) + terminator;
      assert forall i :: 0 <= i < |front| ==> front[i] == body[i];
      StringEndsAtBel(isFormat, 'X', front, rest);
      assert opening + (body + terminator) == [ESC, 'X'] + (front + [BEL]) + rest;
    }
  }

  // ----- the standard's functions, all of them -----

  /** The control functions that are longer than one character, in all the forms
      the standards give them. */
  datatype ControlFunction =
    | ControlSequence(opening: string, params: string, inters: string, final: char)
    | CommandString(opening: string, body: string, terminator: string)
    | CharacterString(opening: string, body: string, terminator: string)
    | EscapeSequence(inters: string, final: char)

  predicate IsStandard(f: ControlFunction) {
    match f
    case ControlSequence(opening, params, inters, final) => IsCsi(opening) && IsSequenceBody(params, inters, final)
    case CommandString(opening, body, terminator) => OpensCommand(opening) && IsCommandBody(body) && IsSt(terminator)
    case CharacterString(opening, body, terminator) =>
      OpensCharacters(opening) && IsCharacterBody(body) && IsSt(terminator)
    case EscapeSequence(inters, final) => IsEscapeBody(inters, final)
  }

  function TextOf(f: ControlFunction): string {
    match f
    case ControlSequence(opening, params, inters, final) => opening + (params + inters + [final])
    case CommandString(opening, body, terminator) => opening + (body + terminator)
    case CharacterString(opening, body, terminator) => opening + (body + terminator)
    case EscapeSequence(inters, final) => [ESC] + (inters + [final])
  }

  /** What the scanner needs to read the function as one whole: escape sequences
      for its delimiters, and no BEL in a string.  Failing that, whatever it reads
      as text instead must leave no trace by itself. */
  predicate LeavesNoTrace(isFormat: char -> bool, f: ControlFunction) {
    match f
    case ControlSequence(opening, _, _, _) => [ESC] <= opening
    case CommandString(opening, body, terminator) =>
      if [ESC] <= opening then terminator == [ESC, '\\']
      else forall i :: 0 <= i < |body| ==> IsDroppedEffector(body[i])
    case CharacterString(opening, body, terminator) =>
      if !([ESC] <= opening) then IsSilent(isFormat, body + terminator)
      else if BEL !in body then terminator == [ESC, '\\']
      else IsSilent(isFormat, AfterBel(body) + terminator)
    case EscapeSequence(_, _) => true
  }

  /** Which of the standards' control functions can be put anywhere no sequence is
      open without changing the cleaned text: exactly these.  Colour codes are
      among them in their escape form, so in that form they cannot break a fence. */
  lemma ControlFunctionExactly(isFormat: char -> bool, f: ControlFunction)
    requires SparesAscii(isFormat) && IsStandard(f)
    ensures IsInvisible(isFormat, TextOf(f)) <==> LeavesNoTrace(isFormat, f)
  {
    InvisibleMeansSilent(isFormat, TextOf(f));
    match f {
      case ControlSequence(opening, params, inters, final) =>
        ControlSequenceExactly(isFormat, opening, params, inters, final);
      case CommandString(opening, body, terminator) =>
        CommandStringExactly(isFormat, opening, body, terminator);
      case CharacterString(opening, body, terminator) =>
        CharacterStringExactly(isFormat, opening, body, terminator);
      case EscapeSequence(inters, final) =>
        EscapeSequenceIsSilent(isFormat, inters, final);
    }
  }

  /** Strings closed by BEL, as terminals accept them though the standard does
      not, leave no trace either. */
  lemma BelClosedStringIsSilent(isFormat: char -> bool, intro: char, body: string)
    requires !isFormat('A') && IsStringIntroducer(intro) && BEL !in body && HoldsNoSt7(body)
    ensures IsInvisible(isFormat, [ESC, intro] + (body + [BEL]))
  {
    StringEndsAtBel(isFormat, intro, body, "");
    InvisibleMeansSilent(isFormat, [ESC, intro] + (body + [BEL]));
  }

  /** The colour code introduced by the C1 character leaves its parameters. */
  lemma EightBitColourLeaks(isFormat: char -> bool)
    requires SparesAscii(isFormat)
    ensures Clean(isFormat, [CSI8] + "31m") == "31m"
  {
    ControlSequenceExactly(isFormat, [CSI8], "31", "", 'm');
    assert "31" + "" + ['m'] == "31m";
  }

  /** A BEL inside a character string lets the rest of it out. */
  lemma BelLeaks(isFormat: char -> bool)
    requires SparesAscii(isFormat)
    ensures Clean(isFormat, [ESC, 'X'] + ("a" + [BEL]) + ("b" + [ESC, '\\'])) == "b"
  {
    StringEndsAtBel(isFormat, 'X', "a", "b" + [ESC, '\\']);
    PrintableIsKept(isFormat, "b");
    TerminatorsAreSilent(isFormat, [ESC, '\\']);
    FilterAppend(isFormat, Ground, "b", [ESC, '\\']);
  }

  // ----- cuts -----

  /** Cleaning distributes over a cut of the text exactly when no sequence is
      open at the cut.  Letters are not format characters, which is all the
      proof needs to know of `isFormat`. */
  lemma SplitsExactlyAtGround(isFormat: char -> bool, p: string)
    requires !isFormat('A')
    ensures EndsInGround(p)
       <==> forall q: string :: Clean(isFormat, p + q) == Clean(isFormat, p) + Clean(isFormat, q)
  {
    if EndsInGround(p) {
      forall q: string
        ensures Clean(isFormat, p + q) == Clean(isFormat, p) + Clean(isFormat, q)
      {
        FilterAppend(isFormat, Ground, p, q);
      }
    } else {
      LetterIsLost(isFormat, p);
    }
  }

  lemma LetterIsLost(isFormat: char -> bool, p: string)
    requires !isFormat('A') && !EndsInGround(p)
    ensures Clean(isFormat, p + "A") == Clean(isFormat, p) && Clean(isFormat, "A") == "A"
    ensures Clean(isFormat, p + "A") != Clean(isFormat, p) + Clean(isFormat, "A")
  {
    FilterAppend(isFormat, Ground, p, "A");
    var mode := After(Ground, p);
    assert "A"[1..] == "";
    assert Filter(isFormat, mode, "A") == "" && Clean(isFormat, "A") == "A";
    assert |Clean(isFormat, p) + "A"| == |Clean(isFormat, p)| + 1;
  }
}
