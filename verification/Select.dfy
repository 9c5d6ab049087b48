/** Choosing the options of a `<select>` element by their visible text. */
module Select {
  import opened Wrappers
  import opened Utf8
  import opened Strings
  import opened XPath

  // ----- words and substrings -----

  /** The last of the pieces that take the most bytes. */
  function LastLongest(pieces: seq<string>): string
    requires pieces != []
  {
    var last := pieces[|pieces| - 1];
    if |pieces| == 1 then last
    else
      var best := LastLongest(pieces[..|pieces| - 1]);
      if ByteLen(last) >= ByteLen(best) then last else best
  }

  function LongestToken(value: string): string {
    LastLongest(Split(value, ' '))
  }

  lemma {:induction false} LastLongestIsLongest(pieces: seq<string>) returns (k: nat)
    requires pieces != []
    ensures k < |pieces| && pieces[k] == LastLongest(pieces)
    ensures forall i | 0 <= i < |pieces| :: ByteLen(pieces[i]) <= ByteLen(pieces[k])
    ensures forall i | k < i < |pieces| :: ByteLen(pieces[i]) < ByteLen(pieces[k])
  {
    var n := |pieces| - 1;
    k := n;
    if n > 0 {
      var j := LastLongestIsLongest(pieces[..n]);
      if ByteLen(pieces[n]) < ByteLen(pieces[j]) {
        k := j;
      }
    }
  }

  /** Every piece of a split occurs in the text. */
  lemma {:induction false} PieceOccurs(s: string, c: char, k: nat)
    requires k < |Split(s, c)|
    ensures Contains(s, Split(s, c)[k])
    decreases |s|
  {
    var i := IndexOf(s, c);
    if k == 0 {
      assert Split(s, c)[0] <= s[0..];
    } else {
      PieceOccurs(s[i + 1..], c, k - 1);
      var piece := Split(s[i + 1..], c)[k - 1];
      var j: nat :| j <= |s[i + 1..]| && piece <= s[i + 1..][j..];
      assert s[i + 1..][j..] == s[i + 1 + j..];
    }
  }

  /** A part without the separator that starts before the first separator ends before it too. */
  lemma PartFitsPrefix(s: string, i: nat, c: char, part: string, at: nat)
    requires at <= i <= |s| && part <= s[at..] && c !in part && (i < |s| ==> s[i] == c)
    ensures ByteLen(part) <= ByteLen(s[..i])
  {
    hide ByteLen;
    var tail := s[at..];
    assert forall m: nat | m < |part| :: tail[m] in part;
    assert forall j | at <= j < at + |part| :: s[j] == tail[j - at];
    var rest := s[at + |part|..i];
    assert s[..i] == s[..at] + part + rest;
    ByteLenAppend(s[..at] + part, rest);
    ByteLenAppend(s[..at], part);
  }

  /** A part without the separator fits in one piece. */
  lemma {:induction false} PartFitsPiece(s: string, c: char, part: string, at: nat) returns (k: nat)
    requires at <= |s| && part <= s[at..] && c !in part
    ensures k < |Split(s, c)| && ByteLen(part) <= ByteLen(Split(s, c)[k])
    decreases |s|
  {
    hide ByteLen;
    var i := IndexOf(s, c);
    if at <= i {
      k := 0;
      PartFitsPrefix(s, i, c, part, at);
      assert Split(s, c)[0] == s[..i];
    } else {
      assert s[i + 1..][at - i - 1..] == s[at..];
      k := PartFitsPiece(s[i + 1..], c, part, at - i - 1);
      k := k + 1;
    }
  }

  /** The longest word occurs in the text, and no space-free part of the text takes more bytes. */
  lemma LongestTokenOccurs(value: string)
    ensures Contains(value, LongestToken(value)) && ' ' !in LongestToken(value)
    ensures forall part | Contains(value, part) && ' ' !in part :: ByteLen(part) <= ByteLen(LongestToken(value))
  {
    var pieces := Split(value, ' ');
    var k := LastLongestIsLongest(pieces);
    JoinSplit(value, ' ');
    PieceOccurs(value, ' ', k);
    assert pieces[k] in pieces;
    forall part | Contains(value, part) && ' ' !in part
      ensures ByteLen(part) <= ByteLen(LongestToken(value))
    {
      var at: nat :| at <= |value| && part <= value[at..];
      var j := PartFitsPiece(value, ' ', part, at);
    }
  }

  // ----- queries over the options' texts -----

  /** What an escaped text denotes when the browser evaluates it. */
  function Denoted(value: string): (d: string)
    ensures Eval(Escape(value)) == Some(d)
    ensures d == if GainsQuote(value) then value + "\"" else value
  {
    hide Eval, Escape;
    EscapeDenotes(value);
    Eval(Escape(value)).value
  }

  /** `normalize-space` (section 4.2 of XPath 1.0): no blanks at the ends, single spaces inside. */
  function NormalizeSpace(s: string): string {
    if s == [] then []
    else
      var front, last := NormalizeSpace(s[..|s| - 1]), s[|s| - 1];
      if IsSpace(last) then front
      else if front != [] && IsSpace(s[|s| - 2]) then front + [' ', last]
      else front + [last]
  }

  datatype Query = NormalizedIs(value: string) | Holds(value: string) | Any

  predicate Matches(q: Query, text: string) {
    match q
    case NormalizedIs(value) => NormalizeSpace(text) == value
    case Holds(value) => Contains(text, value)
    case Any => true
  }

  /** The positions of the matching options, in document order. */
  function Find(texts: seq<string>, q: Query): seq<nat> {
    if texts == [] then []
    else
      var n := |texts| - 1;
      Find(texts[..n], q) + (if Matches(q, texts[n]) then [n] else [])
  }

  /** Those candidates whose text is exactly the given one. */
  function Among(texts: seq<string>, candidates: seq<nat>, text: string): seq<nat> {
    if candidates == [] then []
    else
      var n := |candidates| - 1;
      var c := candidates[n];
      Among(texts, candidates[..n], text) + (if c < |texts| && texts[c] == text then [c] else [])
  }

  function ExactQuery(text: string): Query { NormalizedIs(Denoted(text)) }

  function Prefilter(text: string): Query {
    var token := LongestToken(text);
    if token == [] then Any else Holds(Denoted(token))
  }

  /** The options a call acts on: all of them in a multi-select, the first one otherwise. */
  function Targets(texts: seq<string>, text: string): seq<nat> {
    var hits := Find(texts, ExactQuery(text));
    if hits != [] || ' ' !in text then hits else Among(texts, Find(texts, Prefilter(text)), text)
  }

  ghost predicate Increasing(s: seq<nat>) {
    forall i, j | 0 <= i < j < |s| :: s[i] < s[j]
  }

  lemma IncreasingNone()
    ensures Increasing([])
  {
  }

  lemma IncreasingSnoc(s: seq<nat>, c: nat)
    requires Increasing(s) && forall x | x in s :: x < c
    ensures Increasing(s + [c])
  {
    assert forall i | 0 <= i < |s| :: s[i] in s;
  }

  lemma {:induction false} FindAll(texts: seq<string>, q: Query)
    ensures forall j: nat :: j in Find(texts, q) <==> j < |texts| && Matches(q, texts[j])
    ensures Increasing(Find(texts, q))
  {
    hide Matches, Increasing;
    if texts == [] {
      IncreasingNone();
    } else {
      var n := |texts| - 1;
      FindAll(texts[..n], q);
      IncreasingSnoc(Find(texts[..n], q), n);
      assert Find(texts[..n], q) + [] == Find(texts[..n], q);
    }
  }

  lemma {:induction false} AmongFound(texts: seq<string>, candidates: seq<nat>, text: string)
    ensures forall j: nat :: j in Among(texts, candidates, text) <==> j in candidates && j < |texts| && texts[j] == text
  {
    if candidates != [] {
      var n := |candidates| - 1;
      assert candidates == candidates[..n] + [candidates[n]];
      AmongFound(texts, candidates[..n], text);
    }
  }

  lemma {:induction false} AmongIncreasing(texts: seq<string>, candidates: seq<nat>, text: string)
    requires Increasing(candidates)
    ensures Increasing(Among(texts, candidates, text))
  {
    if candidates != [] {
      var n := |candidates| - 1;
      var front, c := candidates[..n], candidates[n];
      AmongIncreasing(texts, front, text);
      AmongFound(texts, front, text);
      assert forall i | 0 <= i < |Among(texts, front, text)| :: Among(texts, front, text)[i] in front;
      IncreasingSnoc(Among(texts, front, text), c);
    }
  }

  /** Options are acted on in document order, each at most once. */
  lemma TargetsIncreasing(texts: seq<string>, text: string)
    ensures Increasing(Targets(texts, text))
  {
    hide Among, Prefilter, ExactQuery, LongestToken, Denoted;
    FindAll(texts, ExactQuery(text));
    FindAll(texts, Prefilter(text));
    AmongIncreasing(texts, Find(texts, Prefilter(text)), text);
  }

  lemma AmongNone(texts: seq<string>, text: string)
    ensures Among(texts, [], text) == []
  {
  }

  lemma AmongSnoc(texts: seq<string>, front: seq<nat>, c: nat, text: string)
    ensures Among(texts, front + [c], text) ==
            Among(texts, front, text) + if c < |texts| && texts[c] == text then [c] else []
  {
    assert (front + [c])[..|front|] == front;
  }

  /** Searching a longer list of options appends to the result. */
  lemma AmongAppend(texts: seq<string>, a: seq<nat>, b: seq<nat>, text: string)
    ensures Among(texts, a + b, text) == Among(texts, a, text) + Among(texts, b, text)
  {
    if b == [] {
      assert a + b == a;
    } else {
      assert (a + b)[..|a + b| - 1] == a + b[..|b| - 1];
      AmongAppend(texts, a, b[..|b| - 1], text);
    }
  }

  /** Prefiltering loses nothing, or everything: it depends only on the option text looked for. */
  lemma {:induction false} PrefilterKeeps(texts: seq<string>, prefix: seq<string>, q: Query, text: string)
    requires prefix <= texts
    ensures Among(texts, Find(prefix, q), text) ==
            if Matches(q, text) then Among(texts, Find(prefix, Any), text) else []
  {
    hide Matches;
    if prefix != [] {
      var n := |prefix| - 1;
      PrefilterKeeps(texts, prefix[..n], q, text);
      assert Matches(Any, prefix[n]) by { Trivial(prefix[n]); }
      AmongAppend(texts, Find(prefix[..n], q), if Matches(q, prefix[n]) then [n] else [], text);
      AmongAppend(texts, Find(prefix[..n], Any), [n], text);
      assert [n][..0] == [];
    }
  }

  lemma Trivial(t: string)
    ensures Matches(Any, t)
  {
  }

  lemma PrefilterMatchesIff(text: string)
    ensures Matches(Prefilter(text), text) <==> !GainsQuote(LongestToken(text))
  {
    hide Contains, LongestToken, ByteLen, IsSpace;
    var token := LongestToken(text);
    LongestTokenOccurs(text);
    if GainsQuote(token) {
      ByteLenAppend(token, "\"");
      QuoteWidth();
      assert ' ' !in token + "\"";
    }
  }

  lemma QuoteWidth()
    ensures ByteLen("\"") == 1
  {
    assert "\""[1..] == [];
  }

  /** The fallback acts on exactly the options that a scan of all of them would find, unless the longest
      word is one of the words whose escaping gains a quote: then it finds none of them. */
  lemma FallbackIsFullScanIff(texts: seq<string>, text: string)
    ensures var fallback := Among(texts, Find(texts, Prefilter(text)), text);
            var scan := Among(texts, Find(texts, Any), text);
            && (fallback == scan <==> !GainsQuote(LongestToken(text)) || text !in texts)
            && (fallback == scan || fallback == [])
  {
    hide Matches, LongestToken, Prefilter, GainsQuote, Find, Among;
    PrefilterKeeps(texts, texts, Prefilter(text), text);
    PrefilterMatchesIff(text);
    ScanIs(texts, text);
  }

  lemma ScanIs(texts: seq<string>, text: string)
    ensures forall i: nat | i < |texts| :: i in Among(texts, Find(texts, Any), text) <==> texts[i] == text
    ensures Among(texts, Find(texts, Any), text) == [] <==> text !in texts
  {
    hide Find, Among;
    var scan := Among(texts, Find(texts, Any), text);
    AmongFound(texts, Find(texts, Any), text);
    FindAll(texts, Any);
    if scan != [] {
      assert scan[0] in scan;
    } else {
      assert forall j: nat | j < |texts| && texts[j] == text :: j !in scan;
    }
  }

  /** Some option's normalized text is the given one. */
  ghost predicate Reads(texts: seq<string>, text: string) {
    exists t :: t in texts && NormalizeSpace(t) == text
  }

  /** The options acted on: those whose normalized text is what the escaped text denotes and, only if no option
      is like that, those with the whole text, unless the longest word gains a quote. */
  ghost predicate IsTarget(texts: seq<string>, text: string, i: nat)
    requires i < |texts|
  {
    if Reads(texts, Denoted(text)) then NormalizeSpace(texts[i]) == Denoted(text)
    else ' ' in text && !GainsQuote(LongestToken(text)) && texts[i] == text
  }

  lemma TargetsAre(texts: seq<string>, text: string, i: nat)
    requires i < |texts|
    ensures i in Targets(texts, text) <==> IsTarget(texts, text, i)
  {
    hide LongestToken, NormalizeSpace, GainsQuote, Prefilter, Matches, Find, Among, ExactQuery, Denoted, Reads;
    ExactFinds(texts, Denoted(text));
    ExactQueryIs(text);
    if Find(texts, ExactQuery(text)) == [] && ' ' in text {
      FallbackIsFullScanIff(texts, text);
      ScanIs(texts, text);
    }
  }

  lemma ExactQueryIs(text: string)
    ensures ExactQuery(text) == NormalizedIs(Denoted(text))
  {
    hide Denoted;
  }

  lemma ExactFinds(texts: seq<string>, value: string)
    ensures forall i: nat | i < |texts| :: i in Find(texts, NormalizedIs(value)) <==> NormalizeSpace(texts[i]) == value
    ensures Find(texts, NormalizedIs(value)) == [] <==> !Reads(texts, value)
  {
    hide NormalizeSpace, Find;
    var hits := Find(texts, NormalizedIs(value));
    FindAll(texts, NormalizedIs(value));
    if hits != [] {
      assert hits[0] in hits && texts[hits[0]] in texts;
    } else {
      assert forall t | t in texts :: exists j: nat :: j < |texts| && texts[j] == t && j !in hits;
    }
  }

  // ----- acting on what was asked for -----

  /** The options a call should act on: those whose normalized text is the one asked for and, only if no option
      is like that and the text has a space, those whose whole text is. */
  function Asked(texts: seq<string>, text: string): seq<nat> {
    var exact := Find(texts, NormalizedIs(text));
    if exact != [] || ' ' !in text then exact else Among(texts, Find(texts, Any), text)
  }

  ghost predicate IsAsked(texts: seq<string>, text: string, i: nat)
    requires i < |texts|
  {
    if Reads(texts, text) then NormalizeSpace(texts[i]) == text else ' ' in text && texts[i] == text
  }

  lemma AskedAre(texts: seq<string>, text: string)
    ensures Increasing(Asked(texts, text))
    ensures forall i: nat :: i in Asked(texts, text) <==>
              i < |texts| && IsAsked(texts, text, i)
  {
    hide NormalizeSpace, Matches, Find, Among, Reads, Increasing;
    ExactFinds(texts, text);
    ScanIs(texts, text);
    FindAll(texts, NormalizedIs(text));
    FindAll(texts, Any);
    AmongFound(texts, Find(texts, Any), text);
    AmongIncreasing(texts, Find(texts, Any), text);
  }

  lemma {:induction false} SameElements(a: seq<nat>, b: seq<nat>)
    requires Increasing(a) && Increasing(b) && forall x: nat :: x in a <==> x in b
    ensures a == b
    decreases |a|
  {
    hide Increasing;
    HasElement(a);
    HasElement(b);
    if a != [] && b != [] {
      LastIsGreatest(a);
      LastIsGreatest(b);
      var last := a[|a| - 1];
      assert last in a && b[|b| - 1] in b;
      assert last in b && b[|b| - 1] in a;
      assert b[|b| - 1] == last;
      WithoutLast(a);
      WithoutLast(b);
      var front, front' := a[..|a| - 1], b[..|b| - 1];
      forall x: nat
        ensures x in front <==> x in front'
      {
        assert x in a <==> x in b;
      }
      SameElements(front, front');
      assert a == front + [last] && b == front' + [last];
    }
  }

  lemma LastIsGreatest(a: seq<nat>)
    requires Increasing(a) && a != []
    ensures forall x: nat | x in a :: x <= a[|a| - 1]
  {
  }

  lemma HasElement(a: seq<nat>)
    ensures a == [] || exists x: nat :: x in a
  {
    if a != [] {
      assert a[0] in a;
    }
  }

  lemma WithoutLast(a: seq<nat>)
    requires Increasing(a) && a != []
    ensures Increasing(a[..|a| - 1]) && forall x: nat :: x in a[..|a| - 1] <==> x in a && x != a[|a| - 1]
  {
    assert a == a[..|a| - 1] + [a[|a| - 1]];
  }

  lemma TargetsInRange(texts: seq<string>, text: string)
    ensures forall i | i in Targets(texts, text) :: i < |texts|
  {
    hide Matches, Find, Among, Prefilter, ExactQuery, LongestToken, Denoted;
    FindAll(texts, ExactQuery(text));
    AmongFound(texts, Find(texts, Prefilter(text)), text);
  }

  /** When a call acts on exactly the options asked for. A text that gains a quote must not be mistaken for
      another option's, and it must find its own options by the fallback; and the fallback is lost to a longest
      word that gains a quote. */
  ghost predicate FindsAsked(texts: seq<string>, text: string) {
    && (GainsQuote(text) ==>
          && !Reads(texts, text + "\"")
          && (Reads(texts, text) ==>
                && ' ' in text && !GainsQuote(LongestToken(text))
                && forall t | t in texts && NormalizeSpace(t) == text :: t == text))
    && (!Reads(texts, text) && ' ' in text && GainsQuote(LongestToken(text)) ==> text !in texts)
  }

  lemma ActsOnAskedIff(texts: seq<string>, text: string)
    ensures Targets(texts, text) == Asked(texts, text) <==> FindsAsked(texts, text)
  {
    hide Targets, Asked, LongestToken, NormalizeSpace, GainsQuote, FindsAsked, Reads;
    AskedAre(texts, text);
    TargetsInRange(texts, text);
    TargetsIncreasing(texts, text);
    forall i: nat | i < |texts|
      ensures i in Targets(texts, text) <==> IsTarget(texts, text, i)
    {
      TargetsAre(texts, text, i);
    }
    if FindsAsked(texts, text) {
      FoundAgree(texts, text);
      forall i: nat
        ensures i in Targets(texts, text) <==> i in Asked(texts, text)
      {
        if i < |texts| {
          assert IsTarget(texts, text, i) <==> IsAsked(texts, text, i);
        }
      }
      SameElements(Targets(texts, text), Asked(texts, text));
    } else {
      var i := FoundDiffer(texts, text);
    }
  }

  lemma FoundAgree(texts: seq<string>, text: string)
    requires FindsAsked(texts, text)
    ensures forall i: nat | i < |texts| :: IsTarget(texts, text, i) <==> IsAsked(texts, text, i)
  {
    hide LongestToken, NormalizeSpace, GainsQuote, Escape, Eval;
    assert forall i: nat | i < |texts| :: texts[i] in texts;
  }

  lemma FoundDiffer(texts: seq<string>, text: string) returns (i: nat)
    requires !FindsAsked(texts, text)
    ensures i < |texts| && IsTarget(texts, text, i) != IsAsked(texts, text, i)
  {
    hide LongestToken, NormalizeSpace, GainsQuote, Escape, Eval;
    NormalizeShrinks(text);
    if GainsQuote(text) && Reads(texts, text + "\"") {
      var t :| t in texts && NormalizeSpace(t) == text + "\"";
      i :| i < |texts| && texts[i] == t;
    } else if GainsQuote(text) && Reads(texts, text) {
      var t :| t in texts && NormalizeSpace(t) == text && (' ' in text && !GainsQuote(LongestToken(text)) ==> t != text);
      i :| i < |texts| && texts[i] == t;
    } else {
      i :| i < |texts| && texts[i] == text;
    }
  }

  lemma {:induction false} NormalizeShrinks(s: string)
    ensures |NormalizeSpace(s)| <= |s|
    ensures NormalizeSpace(s) != [] ==> !IsSpace(NormalizeSpace(s)[|NormalizeSpace(s)| - 1])
    ensures s != [] && IsSpace(s[|s| - 1]) ==> |NormalizeSpace(s)| < |s|
  {
    if s != [] {
      NormalizeShrinks(s[..|s| - 1]);
    }
  }

  /** Normalizing a second time changes nothing. */
  lemma {:induction false} NormalizeTwice(s: string)
    ensures NormalizeSpace(NormalizeSpace(s)) == NormalizeSpace(s)
  {
    if s != [] {
      var front, last := NormalizeSpace(s[..|s| - 1]), s[|s| - 1];
      NormalizeTwice(s[..|s| - 1]);
      NormalizeShrinks(s[..|s| - 1]);
      if !IsSpace(last) {
        if front != [] && IsSpace(s[|s| - 2]) {
          assert (front + [' ', last])[..|front| + 1] == front + [' '];
          assert (front + [' '])[..|front|] == front;
          assert NormalizeSpace(front + [' ']) == front;
        } else {
          assert (front + [last])[..|front|] == front;
        }
      }
    }
  }

  lemma NormalizeQuote(text: string)
    requires EndsWithQuote(text)
    ensures NormalizeSpace(text + "\"") == NormalizeSpace(text) + "\""
  {
    assert (text + "\"")[..|text|] == text;
    assert (text + "\"")[|text| - 1] == '\"';
    NormalizeKeepsQuote(text);
  }

  lemma NormalizeKeepsQuote(text: string)
    requires EndsWithQuote(text)
    ensures EndsWithQuote(NormalizeSpace(text))
  {
  }

  /** The texts for which a call acts on what was asked for whatever the options are. */
  predicate AlwaysFinds(text: string) {
    if NormalizeSpace(text) == text then !GainsQuote(text)
    else ' ' !in text || !GainsQuote(LongestToken(text))
  }

  lemma AlwaysActsOnAskedIff(text: string)
    ensures AlwaysFinds(text) <==> forall texts :: Targets(texts, text) == Asked(texts, text)
  {
    hide Targets, Asked, LongestToken, NormalizeSpace, GainsQuote;
    if AlwaysFinds(text) {
      forall texts
        ensures Targets(texts, text) == Asked(texts, text)
      {
        AlwaysFindsAll(texts, text);
        ActsOnAskedIff(texts, text);
      }
    } else {
      var texts := SomeMissed(text);
      ActsOnAskedIff(texts, text);
    }
  }

  lemma AlwaysFindsAll(texts: seq<string>, text: string)
    requires AlwaysFinds(text)
    ensures FindsAsked(texts, text)
  {
    hide LongestToken, NormalizeSpace, GainsQuote;
    if NormalizeSpace(text) == text {
    } else {
      OnlyNormalRead(texts, text);
      if GainsQuote(text) {
        EndsInQuote(text);
        NormalizeQuote(text);
        OnlyNormalRead(texts, text + "\"");
        assert |NormalizeSpace(text) + "\""| == |NormalizeSpace(text)| + 1;
        assert (NormalizeSpace(text) + "\"")[..|NormalizeSpace(text)|] == NormalizeSpace(text);
        assert (text + "\"")[..|text|] == text;
      }
    }
  }

  lemma EndsInQuote(text: string)
    requires GainsQuote(text)
    ensures EndsWithQuote(text)
  {
  }

  lemma OnlyNormalRead(texts: seq<string>, text: string)
    ensures Reads(texts, text) ==> NormalizeSpace(text) == text
  {
    if Reads(texts, text) {
      var t :| t in texts && NormalizeSpace(t) == text;
      NormalizeTwice(t);
    }
  }

  lemma SomeMissed(text: string) returns (texts: seq<string>)
    requires !AlwaysFinds(text)
    ensures !FindsAsked(texts, text)
  {
    hide LongestToken, NormalizeSpace, GainsQuote;
    if NormalizeSpace(text) == text {
      EndsInQuote(text);
      NormalizeQuote(text);
      texts := [text + "\""];
      assert texts[0] in texts;
    } else {
      texts := [text];
      assert texts[0] in texts;
    }
  }

  /** Asked for `'"`, a call acts on an option that reads `'""`, and does not find the option `'"` itself. */
  lemma WrongOptionChosen()
    ensures Targets(["'\"\""], "'\"") == [0] && Targets(["'\""], "'\"") == []
    ensures Asked(["'\"\""], "'\"") == [] && Asked(["'\""], "'\"") == [0]
  {
    hide NormalizeSpace, GainsQuote, LongestToken, Targets, Asked, Denoted, Reads;
    WitnessGains();
    QuotesAreNormal();
    assert ' ' !in "'\"" && |"'\""| == 2 && |"'\"\""| == 3;
    assert "'\"" + "\"" == "'\"\"";
    WitnessDenoted();
    OnlyOption("'\"\"", "'\"");
    OnlyOption("'\"", "'\"");
  }

  lemma WitnessDenoted()
    ensures Denoted("'\"") == "'\"\""
  {
    hide Eval, Escape, GainsQuote;
    WitnessGains();
  }

  lemma QuotesAreNormal()
    ensures NormalizeSpace("'\"") == "'\"" && NormalizeSpace("'\"\"") == "'\"\""
  {
    assert "'"[..0] == [] && "'\""[..1] == "'" && "'\"\""[..2] == "'\"";
    assert NormalizeSpace("'") == "'";
    assert NormalizeSpace("'\"") == "'\"";
  }

  /** What happens to a lone option that is asked for by a text without a space. */
  lemma OnlyOption(option: string, text: string)
    requires ' ' !in text
    ensures Targets([option], text) == if NormalizeSpace(option) == Denoted(text) then [0] else []
    ensures Asked([option], text) == if NormalizeSpace(option) == text then [0] else []
  {
    hide NormalizeSpace, LongestToken, Denoted;
    assert [option][..0] == [] && [option][0] == option;
    assert Find([option], ExactQuery(text)) == if NormalizeSpace(option) == Denoted(text) then [0] else [];
    assert Find([option], NormalizedIs(text)) == if NormalizeSpace(option) == text then [0] else [];
  }

  /** `'"  x` with two spaces: an option with this very text is not found. */
  lemma FallbackMisses()
    ensures var t := "'\"  x"; t in [t] && Targets([t], t) == []
  {
    hide LongestToken, Matches, Denoted, Prefilter, ExactQuery, Find, Among, GainsQuote;
    var t := "'\"  x";
    WitnessToken();
    WitnessGains();
    WitnessNoHit();
    FallbackIsFullScanIff([t], t);
    assert t in [t];
  }

  lemma WitnessGains()
    ensures GainsQuote("'\"") && !GainsQuote("'\"  x")
  {
    assert "'\""[0] == '\'' && "'\""[1] == '\"';
    assert "'\"  x"[4] == 'x';
  }

  lemma WitnessNoHit()
    ensures var t := "'\"  x"; Find([t], ExactQuery(t)) == []
  {
    hide NormalizeSpace, Escape, Eval, GainsQuote;
    var t := "'\"  x";
    WitnessGains();
    WitnessNormalized();
    assert |"'\" x"| == 4 && |t| == 5;
    assert [t][..0] == [] && [t][0] == t;
  }

  lemma WitnessToken()
    ensures LongestToken("'\"  x") == "'\""
  {
    hide Split, ByteLen;
    WitnessSplit();
    WitnessBytes();
    var pieces := ["'\"", "", "x"];
    assert pieces[..2] == ["'\"", ""] && ["'\"", ""][..1] == ["'\""];
    assert LastLongest(["'\"", ""]) == "'\"";
  }

  lemma WitnessBytes()
    ensures ByteLen("'\"") == 2 && ByteLen("") == 0 && ByteLen("x") == 1
  {
    QuoteWidth();
    assert "'\""[1..] == "\"" && "x"[1..] == [];
  }

  lemma WitnessSplit()
    ensures Split("'\"  x", ' ') == ["'\"", "", "x"]
  {
    hide Split;
    var pieces := ["'\"", "", "x"];
    assert pieces[1..] == ["", "x"] && pieces[1..][1..] == ["x"];
    assert Join(["x"], ' ') == "x" && Join(["", "x"], ' ') == " x";
    assert Join(pieces, ' ') == "'\"  x";
    SplitJoin(pieces, ' ');
  }

  lemma WitnessNormalized()
    ensures NormalizeSpace("'\"  x") == "'\" x"
  {
    var t := "'\"  x";
    assert t[..4] == "'\"  " && t[..4][..3] == "'\" " && t[..4][..3][..2] == "'\"" && "'\""[..1] == "'" && "'"[..0] == [];
    assert NormalizeSpace("'") == "'";
    assert NormalizeSpace("'\"") == "'\"";
    assert NormalizeSpace("'\" ") == "'\"";
    assert NormalizeSpace("'\"  ") == "'\"";
  }

  // ----- the element -----

  /** A `<select>` element: its options' texts, which of them are selected, and the clicks it got. */
  class SelectElement {
    const texts: seq<string>
    const multiple: bool
    var selected: seq<bool>
    var clicks: seq<nat>

    constructor (texts: seq<string>, selected: seq<bool>, multiple: bool)
      requires |texts| == |selected|
      ensures Valid() && this.texts == texts && this.multiple == multiple && this.selected == selected && clicks == []
    {
      this.texts, this.multiple, this.selected, clicks := texts, multiple, selected, [];
    }

    ghost predicate Valid()
      reads this
    {
      |selected| == |texts|
    }

    /** Clicking toggles an option of a multi-select, and selects it alone otherwise. */
    method Click(i: nat)
      requires Valid() && i < |texts|
      modifies this
      ensures Valid() && clicks == old(clicks) + [i]
      ensures selected == if multiple then old(selected)[i := !old(selected)[i]] else Alone(|texts|, i)
    {
      clicks := clicks + [i];
      if multiple {
        selected := selected[i := !selected[i]];
      } else {
        selected := Alone(|texts|, i);
      }
    }

    /** `set_selected`: click only if the state differs. */
    method SetSelected(i: nat, select: bool)
      requires Valid() && i < |texts| && (multiple || select)
      modifies this
      ensures Valid() && clicks == old(clicks) + Differing(old(selected), [i], select)
      ensures multiple ==> selected == old(selected)[i := select]
      ensures !multiple ==> selected == if old(selected)[i] then old(selected) else Alone(|texts|, i)
    {
      assert [i][..0] == [];
      if selected[i] != select {
        Click(i);
      }
    }

    /** Deselecting is asked of multi-selects only. In a multi-select the targets end up in the wanted state
        and nothing else changes; otherwise the first target ends up selected. Only options in the other
        state are clicked, in document order, and the call fails exactly when there is no target. */
    method SetSelectionByVisibleText(text: string, select: bool) returns (ok: bool)
      requires Valid() && (multiple || select)
      modifies this
      ensures Valid() && ok == (Targets(texts, text) != [])
      ensures multiple ==>
                && clicks == old(clicks) + Differing(old(selected), Targets(texts, text), select)
                && AllSet(old(selected), selected, Targets(texts, text), select)
      ensures !multiple && ok ==>
                var i := Targets(texts, text)[0];
                && i < |texts| && clicks == old(clicks) + Differing(old(selected), [i], select)
                && selected == if old(selected)[i] then old(selected) else Alone(|texts|, i)
      ensures !ok ==> clicks == old(clicks) && selected == old(selected)
    {
      hide Find, Among, ExactQuery, Prefilter, Denoted, LongestToken, Differing, Split, AllSet;
      ghost var before := selected;
      var options := Find(texts, ExactQuery(text));
      FindAll(texts, ExactQuery(text));
      var matched := false;
      NoneSet(before, select);
      for k := 0 to |options|
        invariant Valid() && matched == (k > 0) && (!multiple ==> k == 0)
        invariant clicks == old(clicks) + Differing(before, options[..k], select)
        invariant AllSet(before, selected, options[..k], select)
        invariant k == 0 ==> selected == before && clicks == old(clicks)
      {
        var c := options[k];
        assert options[..k + 1] == options[..k] + [c];
        assert c in options && c !in options[..k];
        SetOneMore(before, selected, options[..k], c, select);
        SetSelected(c, select);
        if !multiple {
          assert options[..k] == [];
          return true;
        }
        matched := true;
      }
      assert options[..|options|] == options;
      if options == [] && ' ' in text {
        matched := Fallback(text, select);
      }
      ok := matched;
    }

    method Fallback(text: string, select: bool) returns (matched: bool)
      requires Valid() && (multiple || select)
      modifies this
      ensures Valid() && matched == (Fallbacks(text) != [])
      ensures multiple ==>
                && clicks == old(clicks) + Differing(old(selected), Fallbacks(text), select)
                && AllSet(old(selected), selected, Fallbacks(text), select)
      ensures !multiple && matched ==>
                var i := Fallbacks(text)[0];
                && i < |texts| && clicks == old(clicks) + Differing(old(selected), [i], select)
                && selected == if old(selected)[i] then old(selected) else Alone(|texts|, i)
      ensures !matched ==> clicks == old(clicks) && selected == old(selected)
    {
      hide Find, Among, Matches, Prefilter, Differing, Split, LongestToken, Denoted, AllSet;
      ghost var before := selected;
      var candidates := Find(texts, Prefilter(text));
      FindAll(texts, Prefilter(text));
      matched := false;
      NoneSet(before, select);
      AmongNone(texts, text);
      for k := 0 to |candidates|
        invariant Valid() && matched == (Among(texts, candidates[..k], text) != []) && (!multiple ==> !matched)
        invariant clicks == old(clicks) + Differing(before, Among(texts, candidates[..k], text), select)
        invariant AllSet(before, selected, Among(texts, candidates[..k], text), select)
        invariant !matched ==> selected == before && clicks == old(clicks)
      {
        var c := candidates[k];
        ghost var front := Among(texts, candidates[..k], text);
        assert candidates[..k + 1] == candidates[..k] + [c];
        assert candidates[..k + 1][..k] == candidates[..k];
        AmongFound(texts, candidates[..k], text);
        AmongSnoc(texts, candidates[..k], c, text);
        assert c in candidates && c !in front;
        if text == texts[c] {
          SetOneMore(before, selected, front, c, select);
          SetSelected(c, select);
          if !multiple {
            FallbackStarts(text, candidates, k);
            return true;
          }
          matched := true;
        } else {
          assert front + [] == front;
        }
      }
      assert candidates[..|candidates|] == candidates;
    }

    ghost function Fallbacks(text: string): seq<nat> {
      Among(texts, Find(texts, Prefilter(text)), text)
    }

    lemma FallbackStarts(text: string, candidates: seq<nat>, k: nat)
      requires k < |candidates| && candidates[k] < |texts| && texts[candidates[k]] == text
      requires Among(texts, candidates[..k], text) == []
      ensures Among(texts, candidates, text) != [] && Among(texts, candidates, text)[0] == candidates[k]
    {
      assert candidates == candidates[..k + 1] + candidates[k + 1..];
      assert candidates[..k + 1][..k] == candidates[..k];
      AmongAppend(texts, candidates[..k + 1], candidates[k + 1..], text);
    }
  }

  function Alone(n: nat, i: nat): seq<bool> {
    seq(n, j => j == i)
  }

  /** Those of the given options whose state is not the wanted one. */
  function Differing(selected: seq<bool>, options: seq<nat>, select: bool): seq<nat> {
    if options == [] then []
    else
      var n := |options| - 1;
      var c := options[n];
      Differing(selected, options[..n], select) + (if c < |selected| && selected[c] != select then [c] else [])
  }

  ghost predicate AllSet(before: seq<bool>, after: seq<bool>, targets: seq<nat>, select: bool) {
    |after| == |before|
    && forall i | 0 <= i < |before| :: after[i] == if i in targets then select else before[i]
  }

  lemma NoneSet(selected: seq<bool>, select: bool)
    ensures AllSet(selected, selected, [], select) && Differing(selected, [], select) == []
  {
  }

  /** Setting an option that was not among the targets yet. */
  lemma SetOneMore(before: seq<bool>, now: seq<bool>, front: seq<nat>, c: nat, select: bool)
    requires AllSet(before, now, front, select) && c < |before| && c !in front
    ensures AllSet(before, now[c := select], front + [c], select)
    ensures Differing(before, front + [c], select) == Differing(before, front, select) + Differing(now, [c], select)
    ensures now[c] == before[c]
  {
    assert (front + [c])[..|front|] == front && [c][..0] == [];
  }
}
