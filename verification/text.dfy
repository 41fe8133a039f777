/**
 The string primitives the screens rely on: `toLowerCase` (over ASCII),
 `includes` (substring test), and `split(' ')` / `join` as used by the avatar
 fallback.
 */
module Text {

  predicate IsUpper(c: char) {
    'A' <= c <= 'Z'
  }

  /** ASCII `toLowerCase` of one character. */
  function LowerChar(c: char): (d: char)
    ensures !IsUpper(d)
    ensures IsUpper(c) ==> d as int - c as int == 'a' as int - 'A' as int
    ensures !IsUpper(c) ==> d == c
  {
    if IsUpper(c) then (c as int - 'A' as int + 'a' as int) as char else c
  }

  /** ASCII `toLowerCase` of a string: same length, no upper-case letter left. */
  function Lower(s: string): (r: string)
    ensures |r| == |s|
    ensures forall i :: 0 <= i < |r| ==> !IsUpper(r[i])
    ensures forall i :: 0 <= i < |s| && !IsUpper(s[i]) ==> r[i] == s[i]
    ensures forall i :: 0 <= i < |s| && IsUpper(s[i]) ==> r[i] as int - s[i] as int == 'a' as int - 'A' as int
  {
    seq(|s|, i requires 0 <= i < |s| => LowerChar(s[i]))
  }

  lemma LowerIdempotent(s: string)
    ensures Lower(Lower(s)) == Lower(s)
  {
  }

  /** `needle` sits in `hay` starting at position `i`. */
  predicate OccursAt(hay: string, needle: string, i: nat) {
    i + |needle| <= |hay| && hay[i..i + |needle|] == needle
  }

  /** Reference definition of a substring: an occurrence at some position. */
  ghost predicate Occurs(hay: string, needle: string) {
    exists i: nat :: i <= |hay| && OccursAt(hay, needle, i)
  }

  /** An occurrence in `hay` is one at the front or one in `hay[1..]`. */
  lemma {:induction false} OccursFrontOrTail(hay: string, needle: string)
    requires |hay| > 0
    ensures Occurs(hay, needle) <==> OccursAt(hay, needle, 0) || Occurs(hay[1..], needle)
  {
    if Occurs(hay[1..], needle) {
      var i: nat :| i <= |hay[1..]| && OccursAt(hay[1..], needle, i);
      assert hay[1..][i..i + |needle|] == hay[i + 1..i + 1 + |needle|];
      assert OccursAt(hay, needle, i + 1);
    }
    if Occurs(hay, needle) {
      var i: nat :| i <= |hay| && OccursAt(hay, needle, i);
      if i > 0 {
        assert hay[1..][i - 1..i - 1 + |needle|] == hay[i..i + |needle|];
        assert OccursAt(hay[1..], needle, i - 1);
      }
    }
  }

  /** `hay.includes(needle)`, scanning left to right; it holds exactly when `needle` occurs somewhere in `hay`. */
  function Contains(hay: string, needle: string): (b: bool)
    ensures b <==> Occurs(hay, needle)
    decreases |hay|
  {
    if |hay| == 0 then
      assert Occurs(hay, needle) <==> OccursAt(hay, needle, 0);
      |needle| == 0
    else
      OccursFrontOrTail(hay, needle);
      (|needle| <= |hay| && hay[..|needle|] == needle) || Contains(hay[1..], needle)
  }

  /** Every string includes the empty string. */
  lemma ContainsEmpty(hay: string)
    ensures Contains(hay, "")
  {
    assert OccursAt(hay, "", 0);
  }

  /** A character of `hay` that `needle` lacks, and that every window of `|needle|` characters covers, rules out an occurrence. */
  lemma NotContainsByBlocker(hay: string, needle: string, b: nat)
    requires b < |hay| && hay[b] !in needle
    requires |hay| - |needle| <= b < |needle|
    ensures !Contains(hay, needle)
  {
    forall i: nat | i <= |hay| && OccursAt(hay, needle, i)
      ensures false
    {
    }
  }

  /** `s.startsWith(prefix)`. */
  predicate StartsWith(s: string, prefix: string) {
    |prefix| <= |s| && s[..|prefix|] == prefix
  }

  /** `s.endsWith(suffix)`. */
  predicate EndsWith(s: string, suffix: string) {
    |suffix| <= |s| && s[|s| - |suffix|..] == suffix
  }

  /** Number of occurrences of `c` in `s`. */
  function CountChar(s: string, c: char): nat
    decreases |s|
  {
    if |s| == 0 then 0 else (if s[0] == c then 1 else 0) + CountChar(s[1..], c)
  }

  /**
   `s.split(sep)` for a one-character separator: the pieces between separators,
   including empty pieces for adjacent, leading or trailing separators.
   */
  function Split(s: string, sep: char): (words: seq<string>)
    ensures |words| == CountChar(s, sep) + 1
    ensures forall w :: w in words ==> sep !in w
    ensures forall w, c :: w in words && c in w ==> c in s
    decreases |s|
  {
    if |s| == 0 then [""]
    else
      var rest := Split(s[1..], sep);
      if s[0] == sep then [""] + rest
      else [[s[0]] + rest[0]] + rest[1..]
  }

  /** `words.join(sep)`. */
  function Join(words: seq<string>, sep: char): string
    decreases |words|
  {
    if |words| == 0 then ""
    else if |words| == 1 then words[0]
    else words[0] + [sep] + Join(words[1..], sep)
  }

  /** Joining the pieces of a split gives back the original string. */
  lemma {:induction false} JoinSplit(s: string, sep: char)
    ensures Join(Split(s, sep), sep) == s
    decreases |s|
  {
    if |s| > 0 {
      var rest := Split(s[1..], sep);
      JoinSplit(s[1..], sep);
      if s[0] == sep {
        assert Split(s, sep) == [""] + rest;
        assert ([""] + rest)[1..] == rest;
        assert s == [sep] + s[1..];
      } else {
        var words := Split(s, sep);
        assert words == [[s[0]] + rest[0]] + rest[1..];
        if |rest| == 1 {
          assert s == [s[0]] + s[1..];
        } else {
          assert words[1..] == rest[1..];
          assert Join(rest, sep) == rest[0] + [sep] + Join(rest[1..], sep);
          assert s == [s[0]] + s[1..];
        }
      }
    }
  }

  /** Splitting `w + t` when `w` holds no separator glues `w` onto the first piece of `t`. */
  lemma {:induction false} SplitGlue(w: string, t: string, sep: char)
    requires sep !in w
    ensures Split(w + t, sep) == [w + Split(t, sep)[0]] + Split(t, sep)[1..]
    decreases |w|
  {
    var st := Split(t, sep);
    if |w| == 0 {
      assert w + t == t && w + st[0] == st[0];
      assert [st[0]] + st[1..] == st;
    } else {
      assert (w + t)[1..] == w[1..] + t;
      assert (w + t)[0] == w[0];
      SplitGlue(w[1..], t, sep);
      assert [w[0]] + (w[1..] + st[0]) == w + st[0];
    }
  }

  /** Splitting a join of separator-free pieces gives back the pieces. */
  lemma {:induction false} SplitJoin(words: seq<string>, sep: char)
    requires |words| >= 1
    requires forall w :: w in words ==> sep !in w
    ensures Split(Join(words, sep), sep) == words
    decreases |words|
  {
    assert words[0] in words;
    if |words| == 1 {
      SplitGlue(words[0], "", sep);
      assert words[0] + "" == words[0];
    } else {
      var tail := Join(words[1..], sep);
      assert forall w :: w in words[1..] ==> w in words;
      SplitJoin(words[1..], sep);
      assert Join(words, sep) == words[0] + ([sep] + tail);
      SplitGlue(words[0], [sep] + tail, sep);
      assert ([sep] + tail)[1..] == tail;
      assert Split([sep] + tail, sep) == [""] + words[1..];
      assert words[0] + "" == words[0];
      assert words == [words[0]] + words[1..];
    }
  }
}
