/** `str::contains`, and `str::split` on one character with joining the pieces back. */
module Strings {

  predicate Contains(s: string, part: string) {
    exists i: nat | i <= |s| :: part <= s[i..]
  }

  function IndexOf(s: string, c: char): (i: nat)
    ensures i <= |s| && c !in s[..i] && (i < |s| ==> s[i] == c)
  {
    if s == [] || s[0] == c then 0
    else
      var i := 1 + IndexOf(s[1..], c);
      assert s[..i] == [s[0]] + s[1..][..i - 1];
      i
  }

  function Split(s: string, c: char): (pieces: seq<string>)
    ensures pieces != []
    decreases |s|
  {
    var i := IndexOf(s, c);
    if i == |s| then [s] else [s[..i]] + Split(s[i + 1..], c)
  }

  function Join(pieces: seq<string>, c: char): string
    requires pieces != []
  {
    if |pieces| == 1 then pieces[0] else pieces[0] + [c] + Join(pieces[1..], c)
  }

  lemma IndexOfAppend(a: string, c: char, rest: string)
    requires c !in a
    ensures IndexOf(a + [c] + rest, c) == |a|
  {
    var s := a + [c] + rest;
    var i := IndexOf(s, c);
    assert s[|a|] == c;
    assert forall k: nat | k < |a| :: s[k] in a;
    assert forall k: nat | |a| < k <= |s| :: s[..k][|a|] == c;
  }

  /** Splitting loses nothing and leaves no separator behind. */
  lemma {:induction false} JoinSplit(s: string, c: char)
    ensures Join(Split(s, c), c) == s
    ensures forall p | p in Split(s, c) :: c !in p
    decreases |s|
  {
    var i := IndexOf(s, c);
    if i < |s| {
      JoinSplit(s[i + 1..], c);
      var rest := Split(s[i + 1..], c);
      assert ([s[..i]] + rest)[1..] == rest;
      assert s == s[..i] + [c] + s[i + 1..];
    } else {
      assert s[..i] == s;
    }
  }

  lemma NoSeparator(s: string, c: char)
    requires c !in s
    ensures IndexOf(s, c) == |s|
  {
    assert forall i | 0 <= i < |s| :: s[i] in s;
  }

  /** There is only one way to write a text as separator-free pieces: `Split` inverts `Join`. */
  lemma {:induction false} SplitJoin(pieces: seq<string>, c: char)
    requires pieces != [] && forall p | p in pieces :: c !in p
    ensures Split(Join(pieces, c), c) == pieces
    decreases |pieces|
  {
    var s := Join(pieces, c);
    if |pieces| == 1 {
      assert s == pieces[0];
      NoSeparator(s, c);
    } else {
      var rest := Join(pieces[1..], c);
      IndexOfAppend(pieces[0], c, rest);
      assert s[|pieces[0]| + 1..] == rest && s[..|pieces[0]|] == pieces[0];
      SplitJoin(pieces[1..], c);
    }
  }

  /** The number of pieces is one more than the number of separators. */
  lemma SplitSingle(s: string, c: char)
    ensures |Split(s, c)| == 1 <==> c !in s
  {
    var i := IndexOf(s, c);
    if i == |s| {
      assert s[..i] == s;
    }
  }
}
