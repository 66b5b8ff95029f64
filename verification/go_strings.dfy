/**
 The functions of Go's `strings` package that the model needs, each restricted
 to a one-character needle or separator: `LastIndex`, `Replace` and `Split`,
 which the generator calls, `Index`, on which `Split` rests, and `Join`, the
 inverse of `Split`.
 A Go string is a sequence of bytes; here each `char` stands for one byte.
 */
module GoStrings {

  /** strings.LastIndex(s, string(c)): the position of the last `c` in `s`, or -1. */
  function LastIndex(s: string, c: char): (pos: int)
    ensures -1 <= pos < |s|
    ensures pos == -1 <==> c !in s
    ensures 0 <= pos ==> s[pos] == c && forall m :: pos < m < |s| ==> s[m] != c
    decreases |s|
  {
    if |s| == 0 then -1
    else if s[|s| - 1] == c then |s| - 1
    else
      var init := s[..|s| - 1];
      assert s == init + [s[|s| - 1]];
      LastIndex(init, c)
  }

  /** strings.Index(s, string(c)): the position of the first `c` in `s`, or -1. */
  function Index(s: string, c: char): (pos: int)
    ensures -1 <= pos < |s|
    ensures pos == -1 <==> c !in s
    ensures 0 <= pos ==> s[pos] == c && forall m :: 0 <= m < pos ==> s[m] != c
    decreases |s|
  {
    if |s| == 0 then -1
    else if s[0] == c then 0
    else
      var tail := s[1..];
      assert s == [s[0]] + tail;
      var pos := Index(tail, c);
      if pos == -1 then -1 else pos + 1
  }

  /**
   strings.Replace(s, string(from), string(to), -1): every `from` in `s`
   becomes `to`, every other character is kept in place.
   */
  function ReplaceAll(s: string, from: char, to: char): (r: string)
    ensures |r| == |s|
    ensures forall i :: 0 <= i < |s| ==> r[i] == (if s[i] == from then to else s[i])
    ensures from != to ==> from !in r
    decreases |s|
  {
    if |s| == 0 then ""
    else [if s[0] == from then to else s[0]] + ReplaceAll(s[1..], from, to)
  }

  /** Replacing characters one by one commutes with concatenation. */
  lemma ReplaceAllAppend(s: string, t: string, from: char, to: char)
    ensures ReplaceAll(s + t, from, to) == ReplaceAll(s, from, to) + ReplaceAll(t, from, to)
  {
  }

  /** strings.Join(parts, string(sep)): the parts with `sep` between neighbours. */
  function Join(parts: seq<string>, sep: char): string
    decreases |parts|
  {
    if |parts| == 0 then ""
    else if |parts| == 1 then parts[0]
    else parts[0] + [sep] + Join(parts[1..], sep)
  }

  /**
   strings.Split(s, string(sep)): the maximal `sep`-free pieces of `s`, in order.
   Every occurrence of `sep` ends one piece, so there is one piece more than
   there are separators, and the empty string splits into one empty piece.
   */
  function Split(s: string, sep: char): (parts: seq<string>)
    ensures |parts| == multiset(s)[sep] + 1
    ensures forall k :: 0 <= k < |parts| ==> sep !in parts[k]
    ensures Join(parts, sep) == s
    ensures s == "" ==> parts == [""]
    decreases |s|
  {
    var i := Index(s, sep);
    if i == -1 then [s]
    else
      var head := s[..i];
      var tail := s[i + 1..];
      var rest := Split(tail, sep);
      SplitStep(s, sep, i, rest);
      [head] + rest
  }

  /** Joining a part in front of at least one more puts a separator after it. */
  lemma JoinCons(head: string, rest: seq<string>, sep: char)
    requires |rest| >= 1
    ensures Join([head] + rest, sep) == head + [sep] + Join(rest, sep)
  {
  }

  /**
   The recursive case of Split: cutting `s` at its first separator `i`, the
   pieces of the tail with the head in front are a split of `s`.
   */
  lemma SplitStep(s: string, sep: char, i: int, rest: seq<string>)
    requires 0 <= i < |s| && s[i] == sep && forall m :: 0 <= m < i ==> s[m] != sep
    requires |rest| == multiset(s[i + 1..])[sep] + 1
    requires forall k :: 0 <= k < |rest| ==> sep !in rest[k]
    requires Join(rest, sep) == s[i + 1..]
    ensures |[s[..i]] + rest| == multiset(s)[sep] + 1
    ensures forall k :: 0 <= k < |[s[..i]] + rest| ==> sep !in ([s[..i]] + rest)[k]
    ensures Join([s[..i]] + rest, sep) == s
  {
    var head := s[..i];
    var tail := s[i + 1..];
    assert s == head + [sep] + tail;
    assert multiset(s) == multiset(head) + multiset([sep]) + multiset(tail);
    assert multiset(head)[sep] == 0;
    JoinCons(head, rest, sep);
    var parts := [head] + rest;
    forall k | 0 <= k < |parts|
      ensures sep !in parts[k]
    {
      if k > 0 {
        assert parts[k] == rest[k - 1];
      }
    }
  }

  /** The first separator of `p + [sep] + t` is the one after `p` when `p` holds none. */
  lemma IndexAfterPrefix(p: string, t: string, sep: char)
    requires sep !in p
    ensures Index(p + [sep] + t, sep) == |p|
  {
    assert (p + [sep] + t)[|p|] == sep;
  }

  /** Splitting a joined list of separator-free parts gives back the parts. */
  lemma {:induction false} SplitJoin(parts: seq<string>, sep: char)
    requires |parts| >= 1
    requires forall k :: 0 <= k < |parts| ==> sep !in parts[k]
    ensures Split(Join(parts, sep), sep) == parts
    decreases |parts|
  {
    if |parts| == 1 {
      assert Index(parts[0], sep) == -1;
    } else {
      var head := parts[0];
      var tail := Join(parts[1..], sep);
      var s := head + [sep] + tail;
      assert Join(parts, sep) == s;
      IndexAfterPrefix(head, tail, sep);
      assert s[..|head|] == head;
      assert s[|head| + 1..] == tail;
      SplitJoin(parts[1..], sep);
      assert Split(s, sep) == [head] + Split(tail, sep);
      assert parts == [head] + parts[1..];
    }
  }
}
