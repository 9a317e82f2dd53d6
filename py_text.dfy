/**
 * The few Python `str` and `list` operations the validators rely on, with
 * their Python meaning: `sub in s`, `s.startswith(p)`, `s.rstrip()`,
 * `s.split(sep)` for a one-character separator, and list order.
 */
module PyText {

  /** `sub` appears in `s` starting at index `i`. */
  ghost predicate MatchesAt(s: string, sub: string, i: int)
  {
    0 <= i && i + |sub| <= |s| && s[i..i + |sub|] == sub
  }

  /** Declarative substring occurrence: `sub` appears at some index of `s`. */
  ghost predicate Occurs(sub: string, s: string)
  {
    exists i :: MatchesAt(s, sub, i)
  }

  /** Python's `sub in s` on strings, by scanning the start positions left to right. */
  function Contains(s: string, sub: string): (b: bool)
    ensures b <==> Occurs(sub, s)
    decreases |s|
  {
    if |sub| > |s| then false
    else if s[..|sub|] == sub then
      assert MatchesAt(s, sub, 0);
      true
    else
      var b := Contains(s[1..], sub);
      assert b ==> Occurs(sub, s) by {
        if b {
          var i :| MatchesAt(s[1..], sub, i);
          assert s[i + 1..i + 1 + |sub|] == s[1..][i..i + |sub|];
          assert MatchesAt(s, sub, i + 1);
        }
      }
      assert Occurs(sub, s) ==> b by {
        if Occurs(sub, s) {
          var i :| MatchesAt(s, sub, i);
          assert i != 0;
          assert s[1..][i - 1..i - 1 + |sub|] == s[i..i + |sub|];
          assert MatchesAt(s[1..], sub, i - 1);
        }
      }
      b
  }

  /** Python's `s.startswith(prefix)`: `prefix` occurs in `s` at index 0. */
  predicate StartsWith(s: string, prefix: string): (b: bool)
    ensures b <==> MatchesAt(s, prefix, 0)
  {
    prefix <= s
  }

  /** The characters Python's `str.isspace()` accepts, which `rstrip()` removes. */
  predicate IsSpace(c: char)
  {
    || c == ' ' || c == '\t' || c == '\n' || c == '\r'
    || c == '\U{B}' || c == '\U{C}'
    || ('\U{1C}' <= c <= '\U{1F}')
    || c == '\U{85}' || c == '\U{A0}' || c == '\U{1680}'
    || ('\U{2000}' <= c <= '\U{200A}')
    || c == '\U{2028}' || c == '\U{2029}' || c == '\U{202F}' || c == '\U{205F}' || c == '\U{3000}'
  }

  /** Python's `s.rstrip()`: `s` without its trailing whitespace. */
  function RStrip(s: string): (r: string)
    ensures r <= s
    ensures r == [] || !IsSpace(r[|r| - 1])
  {
    if s == [] || !IsSpace(s[|s| - 1]) then s
    else RStrip(s[..|s| - 1])
  }

  /** `rstrip()` removes whitespace only. */
  lemma {:induction false} RStripRemovesWhitespaceOnly(s: string)
    ensures forall i :: |RStrip(s)| <= i < |s| ==> IsSpace(s[i])
    decreases |s|
  {
    if s != [] && IsSpace(s[|s| - 1]) {
      var shorter := s[..|s| - 1];
      RStripRemovesWhitespaceOnly(shorter);
      forall i | |RStrip(s)| <= i < |s| ensures IsSpace(s[i]) {
        if i < |s| - 1 {
          assert s[i] == shorter[i];
        }
      }
    }
  }

  /** Joins `parts` with `sep` between neighbours, as `sep.join(parts)`. */
  function Join(parts: seq<string>, sep: char): string
  {
    if |parts| == 0 then ""
    else if |parts| == 1 then parts[0]
    else parts[0] + [sep] + Join(parts[1..], sep)
  }

  /** True when no part contains the separator. */
  predicate SeparatorFree(parts: seq<string>, sep: char)
  {
    forall k :: 0 <= k < |parts| ==> sep !in parts[k]
  }

  /**
   * Python's `s.split(sep)` for a one-character separator: every piece
   * between separators, including empty ones, so `"".split("\n") == [""]`
   * and `"a\n".split("\n") == ["a", ""]`.
   */
  function Split(s: string, sep: char): (parts: seq<string>)
    ensures |parts| >= 1
    ensures SeparatorFree(parts, sep)
    ensures Join(parts, sep) == s
  {
    if s == [] then [""]
    else
      var tail := Split(s[1..], sep);
      if s[0] == sep then
        assert [s[0]] + s[1..] == s;
        [""] + tail
      else
        var parts := [[s[0]] + tail[0]] + tail[1..];
        assert parts[1..] == tail[1..];
        assert s == [s[0]] + s[1..];
        parts
  }

  /** `Split` on a text that starts with the separator: an empty first piece. */
  lemma SplitAtSeparator(s: string, sep: char)
    requires s != [] && s[0] == sep
    ensures Split(s, sep) == [""] + Split(s[1..], sep)
  {
  }

  /** `Split` on a text that starts with another character: it opens the first piece. */
  lemma SplitAtOther(s: string, sep: char)
    requires s != [] && s[0] != sep
    ensures var tail := Split(s[1..], sep);
            Split(s, sep) == [[s[0]] + tail[0]] + tail[1..]
  {
  }

  /** Splitting a joined list of separator-free lines gives the lines back. */
  lemma {:induction false} SplitJoin(parts: seq<string>, sep: char)
    requires |parts| >= 1 && SeparatorFree(parts, sep)
    ensures Split(Join(parts, sep), sep) == parts
    decreases |parts|, |parts[0]|
  {
    var head := parts[0];
    if |parts| == 1 {
      if head != [] {
        assert Join(parts, sep) == head;
        SplitJoin([head[1..]], sep);
        SplitAtOther(head, sep);
        assert [head[0]] + head[1..] == head;
      }
    } else if head == [] {
      var rest := Join(parts[1..], sep);
      assert Join(parts, sep) == [sep] + rest;
      SplitJoin(parts[1..], sep);
      SplitAtSeparator([sep] + rest, sep);
      assert ([sep] + rest)[1..] == rest;
      assert parts == [""] + parts[1..];
    } else {
      var shorter := [head[1..]] + parts[1..];
      assert shorter[1..] == parts[1..];
      var rest := Join(shorter, sep);
      assert Join(parts, sep) == [head[0]] + rest;
      SplitJoin(shorter, sep);
      SplitAtOther([head[0]] + rest, sep);
      assert ([head[0]] + rest)[1..] == rest;
      assert [head[0]] + head[1..] == head;
      assert parts == [head] + parts[1..];
    }
  }

  /** `a` keeps some elements of `b` in their original order. */
  ghost predicate IsSubsequence<T>(a: seq<T>, b: seq<T>)
  {
    a == [] || (b != [] && ((a[0] == b[0] && IsSubsequence(a[1..], b[1..])) || IsSubsequence(a, b[1..])))
  }
}
