/**
 * Quoting of free text for YAML front matter.
 *
 * The writer applies four global replacements in sequence.  It is proved equal
 * to a single per-character escape map and inverted by a decoder written from
 * YAML 1.2.2 (escaped characters, section 5.7; double-quoted style, section
 * 7.3.1).
 */
module Yaml {
  import opened Prelude
  import opened Text

  /** Backslashes first, or the later replacements would be escaped again. */
  function Escaped(value: string): string {
    var s1 := ReplaceAll(value, "\\", "\\\\");
    var s2 := ReplaceAll(s1, "\"", "\\\"");
    var s3 := ReplaceAll(s2, "\r", "\\r");
    ReplaceAll(s3, "\n", "\\n")
  }

  function Scalar(value: string): string {
    "\"" + Escaped(value) + "\""
  }

  function Quoted(values: seq<string>): seq<string> {
    seq(|values|, i requires 0 <= i < |values| => Scalar(values[i]))
  }

  function List(values: seq<string>): string {
    if values == [] then "[]" else "[" + Join(Quoted(values), ", ") + "]"
  }

  // ----- one pass, one map -----

  function EscapeChar(c: char): string {
    if c == '\\' then "\\\\"
    else if c == '\"' then "\\\""
    else if c == '\r' then "\\r"
    else if c == '\n' then "\\n"
    else [c]
  }

  /** The map after only the first `k` of the four replacements. */
  function EscapeUpTo(k: nat, c: char): string {
    if c == '\\' && k >= 1 then "\\\\"
    else if c == '\"' && k >= 2 then "\\\""
    else if c == '\r' && k >= 3 then "\\r"
    else if c == '\n' && k >= 4 then "\\n"
    else [c]
  }

  lemma {:induction false} OneMoreReplacement(s: string, k: nat, target: char, replacement: string)
    requires 1 <= k < 4 && target == "\\\"\r\n"[k]
    requires replacement == ["\\\\", "\\\"", "\\r", "\\n"][k]
    ensures ReplaceAll(MapChars(s, c => EscapeUpTo(k, c)), [target], replacement)
            == MapChars(s, c => EscapeUpTo(k + 1, c))
    decreases s
  {
    var escape := c => EscapeUpTo(k, c);
    var replace := x => if x == target then replacement else [x];
    ReplaceCharIsMap(MapChars(s, escape), target, replacement);
    if s != "" {
      OneMoreReplacement(s[1..], k, target, replacement);
      ReplaceCharIsMap(MapChars(s[1..], escape), target, replacement);
      MapCharsAppend(escape(s[0]), MapChars(s[1..], escape), replace);
      var e := escape(s[0]);
      assert |e| == 1 || (|e| == 2 && e[0] == '\\');
      assert MapChars(e[1..], replace) == if |e| == 1 then "" else replace(e[1]) + MapChars(e[1..][1..], replace);
      assert MapChars(e, replace) == EscapeUpTo(k + 1, s[0]);
    }
  }

  /** The four replacements together are the per-character map. */
  lemma EscapedIsOneMap(value: string)
    ensures Escaped(value) == MapChars(value, EscapeChar)
  {
    ReplaceCharIsMap(value, '\\', "\\\\");
    SameMap(value, c => if c == '\\' then "\\\\" else [c], c => EscapeUpTo(1, c));
    OneMoreReplacement(value, 1, '\"', "\\\"");
    OneMoreReplacement(value, 2, '\r', "\\r");
    OneMoreReplacement(value, 3, '\n', "\\n");
    SameMap(value, c => EscapeUpTo(4, c), EscapeChar);
  }

  lemma {:induction false} SameMap(s: string, f: char -> string, g: char -> string)
    requires forall c :: f(c) == g(c)
    ensures MapChars(s, f) == MapChars(s, g)
    decreases s
  {
    if s != "" {
      SameMap(s[1..], f, g);
    }
  }

  // ----- the decoder -----

  /** The characters a double-quoted scalar may hold as they are: nb-json, less
      the quote and the backslash. */
  predicate IsPlain(c: char) {
    (c == '\t' || c >= ' ') && c != '\"' && c != '\\'
  }

  /** The one-letter escape sequences of section 5.7. */
  function Unescape(c: char): Option<char> {
    match c
    case '0' => Some('\0')
    case 'a' => Some('\U{07}')
    case 'b' => Some('\U{08}')
    case 't' => Some('\t')
    case '\t' => Some('\t')
    case 'n' => Some('\n')
    case 'v' => Some('\U{0B}')
    case 'f' => Some('\U{0C}')
    case 'r' => Some('\r')
    case 'e' => Some('\U{1B}')
    case ' ' => Some(' ')
    case '\"' => Some('\"')
    case '/' => Some('/')
    case '\\' => Some('\\')
    case 'N' => Some('\U{85}')
    case '_' => Some('\U{A0}')
    case 'L' => Some('\U{2028}')
    case 'P' => Some('\U{2029}')
    case _ => None
  }

  /** Read up to the closing quote; the value and what follows the quote. */
  function ReadQuoted(s: string): Option<(string, string)>
    decreases s
  {
    if s == "" then None
    else if s[0] == '\"' then Some(("", s[1..]))
    else if s[0] == '\\' then
      if |s| < 2 || Unescape(s[1]).None? then None
      else
        match ReadQuoted(s[2..])
        case None => None
        case Some((value, rest)) => Some(([Unescape(s[1]).value] + value, rest))
    else if !IsPlain(s[0]) then None
    else
      match ReadQuoted(s[1..])
      case None => None
      case Some((value, rest)) => Some(([s[0]] + value, rest))
  }

  function DecodeScalar(s: string): Option<string> {
    if s == "" || s[0] != '\"' then None
    else
      match ReadQuoted(s[1..])
      case None => None
      case Some((value, rest)) => if rest == "" then Some(value) else None
  }

  /** Read scalars separated by ", " up to the closing bracket. */
  function ReadItems(s: string): Option<seq<string>>
    decreases |s|
  {
    if s == "" || s[0] != '\"' then None
    else
      var r := ReadQuoted(s[1..]);
      if r.None? then None
      else
        var (value, rest) := r.value;
        ReadQuotedConsumes(s[1..]);
        if rest == "]" then Some([value])
        else if ", " <= rest then
          match ReadItems(rest[2..])
          case None => None
          case Some(values) => Some([value] + values)
        else None
  }

  function DecodeList(s: string): Option<seq<string>> {
    if s == "[]" then Some([])
    else if s == "" || s[0] != '[' then None
    else ReadItems(s[1..])
  }

  lemma {:induction false} ReadQuotedConsumes(s: string)
    ensures ReadQuoted(s).Some? ==> |ReadQuoted(s).value.1| < |s|
    decreases s
  {
    if s != "" && s[0] != '\"' {
      if s[0] != '\\' {
        ReadQuotedConsumes(s[1..]);
      } else if |s| >= 2 {
        ReadQuotedConsumes(s[2..]);
      }
    }
  }

  // ----- round trips -----

  /** No control character other than tab, line feed and carriage return. */
  predicate IsRepresentable(value: string) {
    forall i :: 0 <= i < |value| ==> value[i] >= ' ' || value[i] in {'\t', '\n', '\r'}
  }

  lemma {:induction false} ReadBack(value: string, rest: string)
    ensures ReadQuoted(MapChars(value, EscapeChar) + "\"" + rest)
         == if IsRepresentable(value) then Some((value, rest)) else None
    decreases value
  {
    var s := MapChars(value, EscapeChar) + "\"" + rest;
    if value == "" {
      assert s == "\"" + rest;
    } else {
      var c, tail := value[0], MapChars(value[1..], EscapeChar) + "\"" + rest;
      ReadBack(value[1..], rest);
      assert s == EscapeChar(c) + tail;
      assert value == [c] + value[1..];
      assert IsRepresentable(value) <==> (c >= ' ' || c in {'\t', '\n', '\r'}) && IsRepresentable(value[1..]);
      if |EscapeChar(c)| == 2 {
        assert s[0] == '\\' && s[2..] == tail && Unescape(s[1]) == Some(c);
      } else {
        assert s[0] == c && s[1..] == tail;
      }
    }
  }

  /** A scalar decodes to the value it was made from exactly when the value has
      no raw control character, which double-quoted style cannot hold. */
  lemma ScalarRoundTrip(value: string)
    ensures DecodeScalar(Scalar(value)) == if IsRepresentable(value) then Some(value) else None
  {
    EscapedIsOneMap(value);
    ReadBack(value, "");
    var body := MapChars(value, EscapeChar);
    assert Scalar(value)[1..] == body + "\"" + "";
  }

  predicate AllRepresentable(values: seq<string>) {
    forall i :: 0 <= i < |values| ==> IsRepresentable(values[i])
  }

  lemma FirstItem(first: string, rest: string)
    ensures var s := Scalar(first) + rest;
            s[0] == '\"' &&
            ReadQuoted(s[1..]) == if IsRepresentable(first) then Some((first, rest)) else None
  {
    EscapedIsOneMap(first);
    ReadBack(first, rest);
    assert (Scalar(first) + rest)[1..] == MapChars(first, EscapeChar) + "\"" + rest;
  }

  lemma JoinStep(values: seq<string>)
    requires values != []
    ensures var rest := if |values| == 1 then "]" else ", " + (Join(Quoted(values[1..]), ", ") + "]");
            Join(Quoted(values), ", ") + "]" == Scalar(values[0]) + rest
  {
    assert Quoted(values)[1..] == Quoted(values[1..]);
  }

  lemma {:induction false} ItemsRoundTrip(values: seq<string>)
    requires values != []
    ensures ReadItems(Join(Quoted(values), ", ") + "]") == if AllRepresentable(values) then Some(values) else None
    decreases values
  {
    var first, tail := values[0], values[1..];
    JoinStep(values);
    AllRepresentableStep(values);
    assert values == [first] + tail;
    if tail == [] {
      FirstItem(first, "]");
      assert ReadItems(Scalar(first) + "]") == if IsRepresentable(first) then Some([first]) else None;
      assert AllRepresentable(tail) && values == [first];
    } else {
      var items := Join(Quoted(tail), ", ") + "]";
      var rest := ", " + items;
      FirstItem(first, rest);
      ItemsRoundTrip(tail);
      assert rest[2..] == items && ", " <= rest && rest != "]";
      assert Join(Quoted(values), ", ") + "]" == Scalar(first) + rest;
    }
  }

  lemma AllRepresentableStep(values: seq<string>)
    requires values != []
    ensures AllRepresentable(values) <==> IsRepresentable(values[0]) && AllRepresentable(values[1..])
  {
    assert values == [values[0]] + values[1..];
  }

  /** A list reads back as exactly the values it was made from, under the same
      condition on each of them. */
  lemma ListRoundTrip(values: seq<string>)
    ensures DecodeList(List(values))
         == if AllRepresentable(values) then Some(values) else None
  {
    if values != [] {
      var items := Join(Quoted(values), ", ") + "]";
      assert List(values) == "[" + items && List(values)[1..] == items;
      ItemsRoundTrip(values);
      assert Quoted(values)[0] == Scalar(values[0]) && |items| >= 2;
      assert items[0] == '\"';
    }
  }
}
