/**
 * The Python string operations the core relies on: `str.split` with a
 * one-character separator, `str.join`, and substring containment.
 * Python's `len` on `str` counts code points, as `|s|` does on Dafny strings.
 */
module Strings {

  /** Index of the first `c` in `s`, or `|s|` when `s` has no `c`. */
  function FirstIndex(s: string, c: char): (i: nat)
    ensures i <= |s|
    ensures i < |s| ==> s[i] == c
    ensures forall j :: 0 <= j < i ==> s[j] != c
    ensures i == |s| <==> c !in s
  {
    if |s| == 0 then 0
    else if s[0] == c then 0
    else 1 + FirstIndex(s[1..], c)
  }

  /** The text before the first `c`; all of `s` when there is none. */
  function Before(s: string, c: char): (r: string)
    ensures c !in r
    ensures r <= s
    ensures c !in s ==> r == s
    ensures c in s ==> |r| < |s| && s[|r|] == c
  {
    s[..FirstIndex(s, c)]
  }

  /** The text after the first `c`. */
  function After(s: string, c: char): (r: string)
    requires c in s
    ensures s == Before(s, c) + [c] + r
    ensures |r| < |s|
  {
    var i := FirstIndex(s, c);
    assert s == s[..i] + [c] + s[i + 1..];
    s[i + 1..]
  }

  /** When `head` has no `c`, the first `c` of `head + [c] + rest` is the one after `head`. */
  lemma BeforeAfterJoined(head: string, c: char, rest: string)
    requires c !in head
    ensures c in head + [c] + rest
    ensures Before(head + [c] + rest, c) == head
    ensures After(head + [c] + rest, c) == rest
  {
    var s := head + [c] + rest;
    assert s[|head|] == c;
    assert forall j :: 0 <= j < |head| ==> s[j] == head[j];
    assert FirstIndex(s, c) == |head|;
  }

  /** Python's `s.split(c)`: the pieces between the separators, in order. */
  function Split(s: string, c: char): (r: seq<string>)
    ensures |r| >= 1 && r[0] == Before(s, c)
    ensures |r| >= 2 <==> c in s
    ensures forall i :: 0 <= i < |r| ==> c !in r[i]
    decreases |s|
  {
    if c in s then [Before(s, c)] + Split(After(s, c), c) else [s]
  }

  /** Python's `sep.join(parts)`: empty for no parts, else from the first part to the last. */
  function Join(parts: seq<string>, sep: string): (r: string)
    ensures |parts| == 0 ==> r == ""
    ensures |parts| >= 1 ==> parts[0] <= r
    ensures |parts| >= 1 ==>
      var last := parts[|parts| - 1];
      |last| <= |r| && r[|r| - |last|..] == last
  {
    if |parts| == 0 then ""
    else if |parts| == 1 then parts[0]
    else parts[0] + sep + Join(parts[1..], sep)
  }

  /** Python's `sub in s`: `sub` occurs in `s` at some offset. */
  predicate Contains(s: string, sub: string)
  {
    exists k :: 0 <= k <= |s| && sub <= s[k..]
  }

  /** Re-joining the pieces of a split with the separator gives back the string. */
  lemma {:induction false} JoinSplit(s: string, c: char)
    ensures Join(Split(s, c), [c]) == s
    decreases |s|
  {
    if c in s {
      var rest := After(s, c);
      JoinSplit(rest, c);
      var tail := Split(rest, c);
      assert Split(s, c) == [Before(s, c)] + tail;
      assert Join(Split(s, c), [c]) == Before(s, c) + [c] + Join(tail, [c]);
    }
  }

  /** The second piece of a split is the text between the first and the second separator. */
  lemma SplitSecond(s: string, c: char)
    requires c in s
    ensures |Split(s, c)| >= 2 && Split(s, c)[1] == Before(After(s, c), c)
  {
  }

  /** Splitting parts joined by `c`, none of which holds `c`, gives back the parts. */
  lemma {:induction false} SplitJoin(parts: seq<string>, c: char)
    requires |parts| >= 1
    requires forall i :: 0 <= i < |parts| ==> c !in parts[i]
    ensures Split(Join(parts, [c]), c) == parts
    decreases |parts|
  {
    if |parts| >= 2 {
      var tail := parts[1..];
      assert parts == [parts[0]] + tail;
      assert forall i :: 0 <= i < |tail| ==> tail[i] == parts[i + 1];
      var rest := Join(tail, [c]);
      BeforeAfterJoined(parts[0], c, rest);
      SplitJoin(tail, c);
      assert Split(parts[0] + [c] + rest, c) == [parts[0]] + Split(rest, c);
    }
  }

  /** Joining parts that each hold `c` once, with a separator free of `c`, holds `c` once per part. */
  lemma {:induction false} JoinCount(parts: seq<string>, sep: string, c: char)
    requires forall i :: 0 <= i < |parts| ==> multiset(parts[i])[c] == 1
    requires c !in sep
    ensures multiset(Join(parts, sep))[c] == |parts|
  {
    if |parts| > 1 {
      JoinCount(parts[1..], sep, c);
      assert multiset(sep)[c] == 0;
      assert multiset(Join(parts, sep)) == multiset(parts[0]) + multiset(sep) + multiset(Join(parts[1..], sep));
    }
  }

  /** Every part is contained in the joined string. */
  lemma {:induction false} JoinContains(parts: seq<string>, sep: string, i: nat)
    requires i < |parts|
    ensures Contains(Join(parts, sep), parts[i])
  {
    var j := Join(parts, sep);
    if |parts| == 1 {
      assert parts[0] <= j[0..];
    } else if i == 0 {
      assert j == parts[0] + (sep + Join(parts[1..], sep));
      assert parts[0] <= j[0..];
    } else {
      JoinContains(parts[1..], sep, i - 1);
      var rest := Join(parts[1..], sep);
      var k :| 0 <= k <= |rest| && parts[i] <= rest[k..];
      var pre := parts[0] + sep;
      assert j == pre + rest;
      assert j[|pre| + k..] == rest[k..];
      assert parts[i] <= j[|pre| + k..];
    }
  }
}
