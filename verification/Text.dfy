/**
 * Substring search and global replacement on strings, as the text-handling
 * modules use them.
 */
module Text {

  /** `needle` occurs in `s`, starting at position `i`. */
  predicate OccursAt(s: string, needle: string, i: nat) {
    i + |needle| <= |s| && s[i..i + |needle|] == needle
  }

  ghost predicate Occurs(s: string, needle: string) {
    exists i: nat :: OccursAt(s, needle, i)
  }

  /** The same, computed by trying every position in turn. */
  predicate Contains(s: string, needle: string)
    decreases s
  {
    needle <= s || (s != "" && Contains(s[1..], needle))
  }

  lemma OccursLater(s: string, needle: string, i: nat)
    requires s != ""
    ensures OccursAt(s, needle, i + 1) <==> OccursAt(s[1..], needle, i)
  {
    if i + 1 + |needle| <= |s| {
      assert s[i + 1..i + 1 + |needle|] == s[1..][i..i + |needle|];
    }
  }

  lemma {:induction false} ContainsIsOccurs(s: string, needle: string)
    ensures Contains(s, needle) <==> Occurs(s, needle)
    decreases s
  {
    assert OccursAt(s, needle, 0) <==> needle <= s;
    if s != "" && !(needle <= s) {
      ContainsIsOccurs(s[1..], needle);
      if i: nat :| OccursAt(s, needle, i) {
        OccursLater(s, needle, i - 1);
      }
      if i: nat :| OccursAt(s[1..], needle, i) {
        OccursLater(s, needle, i);
      }
    }
  }

  /** Replace the occurrences of `pattern` met in one scan from the left. */
  function ReplaceAll(s: string, pattern: string, replacement: string): string
    requires pattern != ""
    decreases s
  {
    if |s| < |pattern| then s
    else if pattern <= s then replacement + ReplaceAll(s[|pattern|..], pattern, replacement)
    else [s[0]] + ReplaceAll(s[1..], pattern, replacement)
  }

  /** The number of positions at which `needle` occurs. */
  function Count(s: string, needle: string): nat
    requires needle != ""
    decreases s
  {
    if s == "" then 0 else (if needle <= s then 1 else 0) + Count(s[1..], needle)
  }

  /** The first position at which `needle` occurs, or |s| if there is none. */
  function Find(s: string, needle: string): nat
    requires needle != ""
    decreases s
  {
    if s == "" || needle <= s then 0 else 1 + Find(s[1..], needle)
  }

  lemma {:induction false} FindBounds(s: string, needle: string)
    requires needle != ""
    ensures Find(s, needle) <= |s|
    ensures Find(s, needle) < |s| <==> Count(s, needle) > 0
    ensures Find(s, needle) < |s| ==> OccursAt(s, needle, Find(s, needle))
    decreases s
  {
    if s != "" && !(needle <= s) {
      FindBounds(s[1..], needle);
      var k := Find(s[1..], needle);
      if k < |s[1..]| {
        assert s[1..][k..k + |needle|] == s[k + 1..k + 1 + |needle|];
      }
    }
  }

  /** A character foreign to the needle separates the text: no occurrence
      reaches across it. */
  lemma {:induction false} CountAcross(a: string, c: char, b: string, needle: string)
    requires needle != "" && c !in needle
    ensures Count(a + [c] + b, needle) == Count(a, needle) + Count(b, needle)
    decreases a
  {
    var s := a + [c] + b;
    if a == "" {
      assert s[0] == c && s[1..] == b;
    } else {
      assert s[1..] == a[1..] + [c] + b;
      CountAcross(a[1..], c, b, needle);
      PrefixStopsBefore(a, c, b, needle);
    }
  }

  lemma PrefixStopsBefore(a: string, c: char, b: string, needle: string)
    requires c !in needle
    ensures needle <= a + [c] + b <==> needle <= a
  {
    var s := a + [c] + b;
    assert s[|a|] == c;
    if needle <= s {
      assert |needle| <= |a|;
      assert forall i :: 0 <= i < |needle| ==> needle[i] == s[i] == a[i];
    }
  }

  /** Text free of the needle's first character can be skipped. */
  lemma {:induction false} CountSkips(a: string, b: string, needle: string)
    requires needle != "" && needle[0] !in a
    ensures Count(a + b, needle) == Count(b, needle)
    decreases a
  {
    if a == "" {
      assert a + b == b;
    } else {
      assert (a + b)[1..] == a[1..] + b && (a + b)[0] == a[0];
      CountSkips(a[1..], b, needle);
    }
  }

  lemma CountAbsent(a: string, needle: string)
    requires needle != "" && needle[0] !in a
    ensures Count(a, needle) == 0
  {
    CountSkips(a, "", needle);
    assert a + "" == a;
  }

  /** A needle whose first character does not come back in it counts once. */
  lemma CountAtFront(needle: string, b: string)
    requires needle != "" && needle[0] !in needle[1..]
    ensures Count(needle + b, needle) == 1 + Count(b, needle)
  {
    assert (needle + b)[1..] == needle[1..] + b;
    CountSkips(needle[1..], b, needle);
  }

  /** The first occurrence after text without any is found where it stands. */
  lemma {:induction false} FindAfter(a: string, c: char, needle: string, b: string)
    requires needle != "" && c !in needle && Count(a, needle) == 0
    ensures Find(a + [c] + needle + b, needle) == |a| + 1
    decreases a
  {
    var s := a + [c] + needle + b;
    assert s == a + [c] + (needle + b);
    PrefixStopsBefore(a, c, needle + b, needle);
    if a == "" {
      assert s[1..] == needle + b;
    } else {
      assert s[1..] == a[1..] + [c] + needle + b;
      FindAfter(a[1..], c, needle, b);
    }
  }

  lemma {:induction false} FindChar(a: string, c: char, b: string)
    requires c !in a
    ensures Find(a + [c] + b, [c]) == |a|
    decreases a
  {
    var s := a + [c] + b;
    if a == "" {
      assert s[..1] == [c];
    } else {
      assert s[1..] == a[1..] + [c] + b && s[0] == a[0];
      FindChar(a[1..], c, b);
    }
  }

  /** An occurrence found early stays the first one, whatever follows. */
  lemma {:induction false} FindEarly(a: string, b: string, needle: string)
    requires needle != "" && Count(a, needle) > 0
    ensures Find(a + b, needle) == Find(a, needle) < |a|
    decreases a
  {
    assert (a + b)[1..] == a[1..] + b;
    if needle <= a {
      assert needle <= a + b;
    } else {
      FindEarly(a[1..], b, needle);
      FindBounds(a[1..], needle);
      if needle <= a + b {
        NeedleReaches(a, b, needle);
      }
    }
  }

  lemma NeedleReaches(a: string, b: string, needle: string)
    requires needle != "" && needle <= a + b && Count(a, needle) > 0
    ensures needle <= a
  {
    CountNeedsRoom(a, needle);
    assert needle == (a + b)[..|needle|] == a[..|needle|];
  }

  lemma {:induction false} CountNeedsRoom(a: string, needle: string)
    requires needle != "" && Count(a, needle) > 0
    ensures |needle| <= |a|
    decreases a
  {
    if !(needle <= a) {
      CountNeedsRoom(a[1..], needle);
    }
  }

  lemma {:induction false} CountGrows(a: string, b: string, needle: string)
    requires needle != ""
    ensures Count(a + b, needle) >= Count(a, needle)
    ensures Count(a + b, needle) >= Count(b, needle)
    decreases a
  {
    if a == "" {
      assert a + b == b;
    } else {
      assert (a + b)[1..] == a[1..] + b;
      CountGrows(a[1..], b, needle);
      if needle <= a {
        assert needle <= a + b;
      }
    }
  }

  function Join(parts: seq<string>, separator: string): string {
    if parts == [] then ""
    else if |parts| == 1 then parts[0]
    else parts[0] + separator + Join(parts[1..], separator)
  }

  lemma {:induction false} JoinAppend(parts: seq<string>, last: string, separator: string)
    ensures Join(parts + [last], separator) == if parts == [] then last else Join(parts, separator) + separator + last
    decreases parts
  {
    if |parts| == 1 {
      assert (parts + [last])[1..] == [last];
    } else if parts != [] {
      assert (parts + [last])[1..] == parts[1..] + [last];
      JoinAppend(parts[1..], last, separator);
    }
  }

  // ----- replacing so that nothing is left to replace -----

  /** `new` can take the place of `pattern` without ever building it again. */
  predicate Breaks(pattern: string, replacement: string) {
    |pattern| > 0 && |replacement| == |pattern| && replacement != pattern && replacement[0] == pattern[0] &&
    pattern[0] !in pattern[1..] && pattern[0] !in replacement[1..]
  }

  lemma {:induction false} ReplacedTailWasThere(t: string, pattern: string, replacement: string, k: nat)
    requires Breaks(pattern, replacement) && 1 <= k <= |pattern|
    requires pattern[k..] <= ReplaceAll(t, pattern, replacement)
    ensures pattern[k..] <= t
    decreases t
  {
    if k < |pattern| && |pattern| <= |t| {
      var r := ReplaceAll(t, pattern, replacement);
      assert r[0] == pattern[k..][0] == pattern[1..][k - 1];
      assert !(pattern <= t);
      assert r[1..] == ReplaceAll(t[1..], pattern, replacement);
      assert pattern[k + 1..] == pattern[k..][1..] <= r[1..];
      ReplacedTailWasThere(t[1..], pattern, replacement, k + 1);
      assert pattern[k..] == [pattern[k]] + pattern[k + 1..];
    }
  }

  lemma {:induction false} ReplacedIsGone(s: string, pattern: string, replacement: string)
    requires Breaks(pattern, replacement)
    ensures Count(ReplaceAll(s, pattern, replacement), pattern) == 0
    decreases s
  {
    var r := ReplaceAll(s, pattern, replacement);
    if |s| < |pattern| {
      CountShort(s, pattern);
    } else if pattern <= s {
      var rest := ReplaceAll(s[|pattern|..], pattern, replacement);
      ReplacedIsGone(s[|pattern|..], pattern, replacement);
      CountSkips(replacement[1..], rest, pattern);
      assert r[1..] == replacement[1..] + rest;
      assert r[..|pattern|] == replacement;
    } else {
      ReplacedIsGone(s[1..], pattern, replacement);
      assert r[1..] == ReplaceAll(s[1..], pattern, replacement);
      if pattern <= r {
        assert pattern[1..] <= r[1..];
        ReplacedTailWasThere(s[1..], pattern, replacement, 1);
        assert false;
      }
    }
  }

  lemma {:induction false} CountShort(s: string, needle: string)
    requires |s| < |needle|
    ensures Count(s, needle) == 0
    decreases s
  {
    if s != "" {
      CountShort(s[1..], needle);
    }
  }

  lemma {:induction false} NothingToReplace(s: string, pattern: string, replacement: string)
    requires pattern != "" && Count(s, pattern) == 0
    ensures ReplaceAll(s, pattern, replacement) == s
    decreases s
  {
    if |pattern| <= |s| {
      NothingToReplace(s[1..], pattern, replacement);
    }
  }

  // ----- replacing single characters -----

  /** Apply a per-character escape map. */
  function MapChars(s: string, escape: char -> string): string
    decreases s
  {
    if s == "" then "" else escape(s[0]) + MapChars(s[1..], escape)
  }

  lemma {:induction false} MapCharsAppend(a: string, b: string, escape: char -> string)
    ensures MapChars(a + b, escape) == MapChars(a, escape) + MapChars(b, escape)
    decreases a
  {
    if a == "" {
      assert a + b == b;
    } else {
      assert (a + b)[1..] == a[1..] + b;
      MapCharsAppend(a[1..], b, escape);
    }
  }

  lemma {:induction false} ReplaceCharIsMap(s: string, c: char, replacement: string)
    ensures ReplaceAll(s, [c], replacement) == MapChars(s, x => if x == c then replacement else [x])
    decreases s
  {
    if s != "" {
      ReplaceCharIsMap(s[1..], c, replacement);
      assert [c] <= s <==> s[0] == c;
    }
  }
}
