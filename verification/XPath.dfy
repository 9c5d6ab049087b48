/** `escape_string` and the XPath string expressions it writes. */
module XPath {
  import opened Wrappers
  import opened Strings

  // ----- string expressions: literals and `concat` (sections 3.7 and 4.2 of XPath 1.0) -----

  datatype Scanned = Scanned(value: string, rest: string)

  predicate IsSpace(c: char) {
    c == ' ' || c == '\t' || c == '\r' || c == '\n'
  }

  function SkipSpace(s: string): (r: string)
    ensures |r| <= |s|
  {
    if s != [] && IsSpace(s[0]) then SkipSpace(s[1..]) else s
  }

  /** A literal ends at the next quote of the kind that opened it; there is no escape. */
  function Literal(s: string): (r: Option<Scanned>)
    ensures r.Some? ==> |r.value.rest| < |s|
  {
    if s == [] || (s[0] != '\"' && s[0] != '\'') then None
    else
      var i := IndexOf(s[1..], s[0]);
      if i == |s| - 1 then None else Some(Scanned(s[1..][..i], s[1..][i + 1..]))
  }

  /** The arguments of a call after its opening parenthesis, each a literal. */
  function Arguments(s: string): Option<seq<string>>
    decreases |s|
  {
    var lit := Literal(SkipSpace(s));
    if lit.None? then None
    else
      var rest := SkipSpace(lit.value.rest);
      if rest == [] then None
      else if rest[0] == ')' then (if SkipSpace(rest[1..]) == [] then Some([lit.value.value]) else None)
      else if rest[0] != ',' then None
      else
        var more := Arguments(rest[1..]);
        if more.None? then None else Some([lit.value.value] + more.value)
  }

  function Concat(parts: seq<string>): string {
    if parts == [] then [] else parts[0] + Concat(parts[1..])
  }

  const CONCAT := "concat("

  /** The string a literal or a `concat` of two or more literals denotes; anything else has no value here. */
  function Eval(expr: string): Option<string> {
    var e := SkipSpace(expr);
    if CONCAT <= e then
      var args := Arguments(e[|CONCAT|..]);
      if args.None? || |args.value| < 2 then None else Some(Concat(args.value))
    else
      var lit := Literal(e);
      if lit.None? || SkipSpace(lit.value.rest) != [] then None else Some(lit.value.value)
  }

  // ----- the escaping -----

  const SEPARATOR := ", '\"', "
  const EXTRA := ", '\"'"

  /** Every piece in double quotes, with a quoted double quote between any two. */
  function Quoted(pieces: seq<string>): string {
    if pieces == [] then []
    else Quoted(pieces[..|pieces| - 1]) + Item(|pieces| == 1, pieces[|pieces| - 1])
  }

  function Item(first: bool, piece: string): string {
    (if first then [] else SEPARATOR) + ['\"'] + piece + ['\"']
  }

  predicate EndsWithQuote(s: string) {
    s != [] && s[|s| - 1] == '\"'
  }

  /** `Escaped`: the pieces between double quotes, and one more quote when the text ends in one. */
  method Escaped(value: string) returns (out: string)
    ensures out == EscapedText(value)
  {
    out := [];
    var pieces := Split(value, '\"');
    for i := 0 to |pieces|
      invariant out == Quoted(pieces[..i])
    {
      assert pieces[..i + 1][..i] == pieces[..i];
      if i != 0 {
        out := out + SEPARATOR;
      }
      out := out + ['\"'] + pieces[i] + ['\"'];
      assert Quoted(pieces[..i + 1]) == Quoted(pieces[..i]) + Item(i == 0, pieces[i]);
    }
    assert pieces[..|pieces|] == pieces;
    if EndsWithQuote(value) {
      out := out + EXTRA;
    }
  }

  function EscapedText(value: string): string {
    Quoted(Split(value, '\"')) + if EndsWithQuote(value) then EXTRA else []
  }

  method EscapeString(value: string) returns (out: string)
    ensures out == Escape(value)
  {
    if '\'' in value && '\"' in value {
      var args := Escaped(value);
      out := CONCAT + args + ")";
    } else if '\"' in value {
      out := "'" + value + "'";
    } else {
      out := "\"" + value + "\"";
    }
  }

  function Escape(value: string): string {
    if '\'' in value && '\"' in value then
      CONCAT + EscapedText(value) + ")"
    else if '\"' in value then "'" + value + "'"
    else "\"" + value + "\""
  }

  /** The texts the escaping gets wrong. */
  predicate GainsQuote(value: string) {
    '\'' in value && EndsWithQuote(value)
  }

  // ----- the escaped text denotes the original, or the original and one more double quote -----

  /** A quoted argument and what follows it. */
  function Arg(q: char, p: string, rest: string): (r: string) {
    [q] + p + [q] + rest
  }

  function Comma(more: string): string {
    [','] + ([' '] + more)
  }

  lemma LiteralOfPiece(q: char, p: string, rest: string)
    requires (q == '\"' || q == '\'') && q !in p
    ensures Literal(Arg(q, p, rest)) == Some(Scanned(p, rest))
  {
    hide IndexOf;
    IndexOfAppend(p, q, rest);
    var s := Arg(q, p, rest);
    assert s[0] == q && s[1..] == p + [q] + rest;
    assert s[1..][..|p|] == p && s[1..][|p| + 1..] == rest;
  }

  lemma LastArgument(q: char, p: string)
    requires (q == '\"' || q == '\'') && q !in p
    ensures Arguments(Arg(q, p, ")")) == Some([p])
  {
    hide Literal;
    LiteralOfPiece(q, p, ")");
    assert SkipSpace(Arg(q, p, ")")) == Arg(q, p, ")");
  }

  lemma NextArgument(q: char, p: string, more: string)
    requires (q == '\"' || q == '\'') && q !in p && Arguments(more).Some?
    ensures Arguments(Arg(q, p, Comma(more))) == Some([p] + Arguments(more).value)
  {
    hide Literal;
    var s := Arg(q, p, Comma(more));
    LiteralOfPiece(q, p, Comma(more));
    assert SkipSpace(s) == s;
    assert SkipSpace(Comma(more)) == Comma(more) && Comma(more)[1..] == [' '] + more;
    LeadingBlank(more);
  }

  lemma LeadingBlank(s: string)
    ensures Arguments([' '] + s) == Arguments(s)
  {
    hide Literal;
    assert ([' '] + s)[1..] == s;
    assert SkipSpace([' '] + s) == SkipSpace(s);
  }

  /** The argument list from the front. */
  function ArgumentText(pieces: seq<string>, extra: bool): string {
    if pieces == [] then ")"
    else if |pieces| == 1 then Arg('\"', pieces[0], if extra then Comma(Arg('\'', "\"", ")")) else ")")
    else Arg('\"', pieces[0], Comma(Arg('\'', "\"", Comma(ArgumentText(pieces[1..], extra)))))
  }

  /** `Quoted` read from the front. */
  lemma {:induction false} QuotedCons(p: string, rest: seq<string>)
    requires rest != []
    ensures Quoted([p] + rest) == Item(true, p) + (SEPARATOR + Quoted(rest))
  {
    hide Quoted, Item;
    var front, last := rest[..|rest| - 1], rest[|rest| - 1];
    assert rest == front + [last];
    assert [p] + rest == ([p] + front) + [last];
    QuotedSnoc([p] + front, last);
    QuotedSnoc(front, last);
    if front == [] {
      assert [p] + front == [p];
      QuotedOne(p);
      ItemSeparated(last);
      QuotedOne(last);
      assert rest == [last];
    } else {
      QuotedCons(p, front);
      Regroup(Item(true, p), SEPARATOR, Quoted(front), Item(false, last));
    }
  }

  lemma QuotedSnoc(front: seq<string>, last: string)
    ensures Quoted(front + [last]) == Quoted(front) + Item(front == [], last)
  {
    hide Item;
    assert (front + [last])[..|front|] == front;
  }

  lemma Regroup(a: string, b: string, c: string, d: string)
    ensures a + (b + c) + d == a + (b + (c + d))
  {
  }

  lemma ItemSeparated(p: string)
    ensures Item(false, p) == SEPARATOR + Item(true, p)
  {
    assert SEPARATOR + ['\"'] + p + ['\"'] == SEPARATOR + (['\"'] + p + ['\"']);
    assert [] + ['\"'] == ['\"'];
  }

  lemma QuotedOne(p: string)
    ensures Quoted([p]) == ['\"'] + p + ['\"'] == Item(true, p)
  {
    assert [p][..0] == [];
    assert [] + ['\"'] == ['\"'];
  }

  function Tail(extra: bool): string {
    if extra then EXTRA + ")" else ")"
  }

  lemma {:induction false} QuotedIsText(pieces: seq<string>, extra: bool)
    requires pieces != []
    ensures Quoted(pieces) + Tail(extra) == ArgumentText(pieces, extra)
    decreases |pieces|
  {
    hide Quoted, Tail;
    var p, rest := pieces[0], pieces[1..];
    assert pieces == [p] + rest;
    if rest == [] {
      assert pieces == [p];
      QuotedOne(p);
      TailIsArgument();
    } else {
      QuotedCons(p, rest);
      QuotedIsText(rest, extra);
      SeparatorIsArgument(ArgumentText(rest, extra));
      assert Quoted(pieces) + Tail(extra) == ['\"'] + p + ['\"'] + (SEPARATOR + (Quoted(rest) + Tail(extra)));
    }
  }

  lemma TailIsArgument()
    ensures Tail(true) == Comma(Arg('\'', "\"", ")")) && Tail(false) == ")"
  {
  }

  lemma SeparatorIsArgument(more: string)
    ensures SEPARATOR + more == Comma(Arg('\'', "\"", Comma(more)))
  {
  }

  /** Reading the argument list back gives the pieces and the quotes between them. */
  lemma {:induction false} TextArguments(pieces: seq<string>, extra: bool)
    requires pieces != [] && forall p | p in pieces :: '\"' !in p
    ensures var args := Arguments(ArgumentText(pieces, extra));
            args.Some? && |args.value| >= |pieces| && (|pieces| > 1 ==> |args.value| > 1)
            && Concat(args.value) == Join(pieces, '\"') + if extra then "\"" else []
    decreases |pieces|
  {
    hide Arguments, Arg, Comma;
    var p := pieces[0];
    LastArgument('\'', "\"");
    if |pieces| == 1 {
      LastArgument('\"', p);
      NextArgument('\"', p, Arg('\'', "\"", ")"));
      ConcatCons(p, ["\""]);
      ConcatCons(p, []);
      assert [p] + [] == [p];
    } else {
      TextArguments(pieces[1..], extra);
      var inner := ArgumentText(pieces[1..], extra);
      var args := Arguments(inner).value;
      NextArgument('\'', "\"", inner);
      NextArgument('\"', p, Arg('\'', "\"", Comma(inner)));
      ConcatCons(p, ["\""] + args);
      ConcatCons("\"", args);
      assert "\"" + Concat(args) == ['\"'] + Join(pieces[1..], '\"') + if extra then "\"" else [];
    }
  }

  lemma ConcatCons(p: string, rest: seq<string>)
    ensures Concat([p] + rest) == p + Concat(rest)
  {
    assert ([p] + rest)[1..] == rest;
  }

  /** What the escaped text denotes, for every text. */
  lemma EscapeDenotes(value: string)
    ensures Eval(Escape(value)) == Some(if GainsQuote(value) then value + "\"" else value)
  {
    hide Escape, Eval;
    if '\'' in value && '\"' in value {
      MixedDenotes(value);
    } else {
      PlainDenotes(value);
    }
  }

  lemma MixedDenotes(value: string)
    requires '\'' in value && '\"' in value
    ensures Eval(Escape(value)) == Some(if EndsWithQuote(value) then value + "\"" else value)
  {
    hide Escape, Eval, Arguments, Quoted, Split, Join, ArgumentText, Tail, Concat, EndsWithQuote, IndexOf;
    var pieces := Split(value, '\"');
    var extra := EndsWithQuote(value);
    JoinSplit(value, '\"');
    SplitSingle(value, '\"');
    assert |pieces| > 1;
    TextArguments(pieces, extra);
    QuotedIsText(pieces, extra);
    EvalConcat(ArgumentText(pieces, extra));
    EscapeIsCall(value);
    assert value + [] == value;
  }

  lemma EscapeIsCall(value: string)
    requires '\'' in value && '\"' in value
    ensures Escape(value) == CONCAT + (Quoted(Split(value, '\"')) + Tail(EndsWithQuote(value)))
  {
    hide Quoted, Split;
  }

  lemma PlainDenotes(value: string)
    requires '\'' !in value || '\"' !in value
    ensures Eval(Escape(value)) == Some(value) && !GainsQuote(value)
  {
    hide Eval, Quoted, Split;
    var q := if '\"' in value then '\'' else '\"';
    EvalLiteral(q, value);
    assert Escape(value) == Arg(q, value, []);
  }

  lemma EvalConcat(text: string)
    requires Arguments(text).Some? && |Arguments(text).value| >= 2
    ensures Eval(CONCAT + text) == Some(Concat(Arguments(text).value))
  {
    hide Arguments, Concat;
    assert (CONCAT + text)[|CONCAT|..] == text;
    assert SkipSpace(CONCAT + text) == CONCAT + text;
  }

  lemma EvalLiteral(q: char, p: string)
    requires (q == '\"' || q == '\'') && q !in p
    ensures Eval(Arg(q, p, [])) == Some(p)
  {
    hide Literal, Arguments;
    LiteralOfPiece(q, p, []);
    assert SkipSpace(Arg(q, p, [])) == Arg(q, p, []);
    assert Arg(q, p, [])[0] == q && CONCAT[0] == 'c';
  }

  /** The escaping is faithful exactly for the texts that do not mix both quotes and end in a double one. */
  lemma EscapeFaithfulIff(value: string)
    ensures Eval(Escape(value)) == Some(value) <==> !GainsQuote(value)
  {
    EscapeDenotes(value);
    assert |value + "\""| == |value| + 1;
  }

  /** `'"` is such a text: it is written as `concat("'", '"', "", '"')`. */
  lemma EscapeGainsQuote()
    ensures Escape("'\"") == "concat(\"'\", '\"', \"\", '\"')"
    ensures Eval(Escape("'\"")) == Some("'\"\"")
  {
    hide Split, Eval, Quoted, Item;
    WitnessPieces();
    EscapeDenotes("'\"");
    assert "'\"" + "\"" == "'\"\"";
    assert "'\""[0] == '\'' && "'\""[1] == '\"';
  }

  lemma WitnessPieces()
    ensures Quoted(Split("'\"", '\"')) == "\"'\", '\"', \"\""
  {
    hide Split, Quoted;
    SplitJoin(["'", ""], '\"');
    assert ["'", ""][1..] == [""];
    assert Join([""], '\"') == "" && Join(["'", ""], '\"') == "'\"";
    assert ["'", ""] == ["'"] + [""];
    QuotedCons("'", [""]);
    QuotedOne("");
  }
}
