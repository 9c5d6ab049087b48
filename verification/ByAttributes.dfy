/** The options of a `#[by(..)]` attribute: validating them and turning them into resolver options. */
module ByAttributes {
  import opened Wrappers

  datatype ByToken =
    | Id(text: string)
    | Tag(text: string)
    | LinkText(text: string)
    | PartialLinkText(text: string)
    | Css(text: string)
    | XPath(text: string)
    | Name(text: string)
    | ClassName(text: string)
    | Testid(text: string)
    | Multi
    | NotEmpty
    | AllowEmpty
    | Single
    | First
    | IgnoreErrors
    | Description(text: string)
    | Wait(timeoutMs: string, intervalMs: string)
    | NoWait
    | CustomFn(expr: string)

  /** The names that options are told apart by; no option has the name `TAll`. */
  datatype TypeName =
    | TSelector | TMulti | TNotEmpty | TAllowEmpty | TSingle | TFirst | TIgnoreErrors
    | TDescription | TWait | TNoWait | TCustom | TAll

  function UniqueType(t: ByToken): TypeName {
    match t
    case Multi => TMulti
    case NotEmpty => TNotEmpty
    case AllowEmpty => TAllowEmpty
    case Single => TSingle
    case First => TFirst
    case IgnoreErrors => TIgnoreErrors
    case Description(_) => TDescription
    case Wait(_, _) => TWait
    case NoWait => TNoWait
    case CustomFn(_) => TCustom
    case _ => TSelector
  }

  function DisallowedTypes(t: ByToken): seq<TypeName> {
    match t
    case Single => [TMulti, TCustom, TFirst]
    case First => [TMulti, TCustom, TSingle]
    case NotEmpty => [TCustom, TSingle, TFirst, TAllowEmpty]
    case AllowEmpty => [TCustom, TSingle, TFirst, TNotEmpty]
    case IgnoreErrors => [TCustom]
    case Description(_) => [TCustom]
    case Wait(_, _) => [TCustom, TNoWait]
    case NoWait => [TCustom, TWait]
    case CustomFn(_) =>
      [TMulti, TAll, TSingle, TFirst, TIgnoreErrors, TDescription, TWait, TNoWait, TAllowEmpty]
    case _ => []
  }

  // ----- validation -----

  ghost predicate DistinctTypes(s: seq<ByToken>) {
    forall i, j | 0 <= i < j < |s| :: UniqueType(s[i]) != UniqueType(s[j])
  }

  ghost predicate Compatible(s: seq<ByToken>) {
    forall i, j | 0 <= i < |s| && 0 <= j < |s| :: UniqueType(s[j]) !in DisallowedTypes(s[i])
  }

  ghost predicate ValidTokens(s: seq<ByToken>) {
    DistinctTypes(s) && Compatible(s)
  }

  function Types(s: seq<ByToken>): set<TypeName> {
    set t | t in s :: UniqueType(t)
  }

  /** Accepting depends on which options there are, not on their order. */
  ghost predicate ValidBag(m: multiset<ByToken>) {
    && (forall t | t in m :: m[t] == 1)
    && (forall t, u | t in m && u in m && t != u :: UniqueType(t) != UniqueType(u))
    && (forall t, u | t in m && u in m :: UniqueType(u) !in DisallowedTypes(t))
  }

  lemma CountTwo(s: seq<ByToken>, i: nat, j: nat)
    requires i < j < |s| && s[i] == s[j]
    ensures multiset(s)[s[i]] >= 2
  {
    assert s == s[..j] + [s[j]] + s[j + 1..];
    assert s[i] in s[..j];
  }

  lemma {:induction false} CountOne(s: seq<ByToken>, t: ByToken)
    requires DistinctTypes(s) && t in s
    ensures multiset(s)[t] == 1
  {
    var front, last := s[..|s| - 1], s[|s| - 1];
    assert s == front + [last];
    if t == last {
      assert last !in front;
    } else {
      CountOne(front, t);
    }
  }

  lemma ValidIffBag(s: seq<ByToken>)
    ensures ValidTokens(s) <==> ValidBag(multiset(s))
  {
    hide UniqueType, DisallowedTypes;
    if ValidTokens(s) {
      forall t | t in multiset(s)
        ensures multiset(s)[t] == 1
      {
        assert t in s;
        CountOne(s, t);
      }
      assert forall t | t in multiset(s) :: exists i | 0 <= i < |s| :: s[i] == t;
    }
    if ValidBag(multiset(s)) {
      forall i: nat, j: nat | i < j < |s|
        ensures UniqueType(s[i]) != UniqueType(s[j])
      {
        if s[i] == s[j] {
          CountTwo(s, i, j);
        }
        assert s[i] in multiset(s) && s[j] in multiset(s);
      }
      assert forall i | 0 <= i < |s| :: s[i] in multiset(s);
    }
  }

  lemma OrderIrrelevant(a: seq<ByToken>, b: seq<ByToken>)
    requires multiset(a) == multiset(b)
    ensures ValidTokens(a) <==> ValidTokens(b)
  {
    ValidIffBag(a);
    ValidIffBag(b);
  }

  // ----- which options exclude each other, written out -----

  predicate IsSelector(t: ByToken) {
    t.Id? || t.Tag? || t.LinkText? || t.PartialLinkText? || t.Css? || t.XPath? || t.Name? || t.ClassName? || t.Testid?
  }

  /** Two of a sort: two selectors, or the same option twice. */
  predicate SameSort(t: ByToken, u: ByToken) {
    || (IsSelector(t) && IsSelector(u))
    || (t.Multi? && u.Multi?) || (t.NotEmpty? && u.NotEmpty?) || (t.AllowEmpty? && u.AllowEmpty?)
    || (t.Single? && u.Single?) || (t.First? && u.First?) || (t.IgnoreErrors? && u.IgnoreErrors?)
    || (t.Description? && u.Description?) || (t.Wait? && u.Wait?) || (t.NoWait? && u.NoWait?)
    || (t.CustomFn? && u.CustomFn?)
  }

  /** The pairs that may not stand together, each given once. */
  predicate Clash(t: ByToken, u: ByToken) {
    || (t.Wait? && u.NoWait?)
    || (t.NotEmpty? && u.AllowEmpty?)
    || (t.Single? && u.First?)
    || ((t.Single? || t.First?) && (u.Multi? || u.NotEmpty? || u.AllowEmpty?))
    || (t.CustomFn? && !u.CustomFn? && !IsSelector(u))
  }

  /** A list is accepted exactly if no two of its options are of a sort or clash. */
  lemma ValidIff(s: seq<ByToken>)
    ensures ValidTokens(s) <==>
            forall i, j | 0 <= i < j < |s| :: !SameSort(s[i], s[j]) && !Clash(s[i], s[j]) && !Clash(s[j], s[i])
  {
    hide UniqueType, DisallowedTypes, SameSort, Clash;
    forall i, j | 0 <= i < |s| && 0 <= j < |s|
      ensures UniqueType(s[i]) == UniqueType(s[j]) <==> SameSort(s[i], s[j])
      ensures UniqueType(s[j]) in DisallowedTypes(s[i]) || UniqueType(s[i]) in DisallowedTypes(s[j]) <==>
              Clash(s[i], s[j]) || Clash(s[j], s[i])
      ensures !Clash(s[i], s[i])
    {
      SortsAre(s[i], s[j]);
      ClashesAre(s[i], s[j]);
      NoSelfClash(s[i]);
    }
  }

  lemma NoSelfClash(t: ByToken)
    ensures !Clash(t, t)
  {
  }

  lemma SortsAre(t: ByToken, u: ByToken)
    ensures UniqueType(t) == UniqueType(u) <==> SameSort(t, u)
  {
  }

  lemma ClashesAre(t: ByToken, u: ByToken)
    ensures UniqueType(u) in DisallowedTypes(t) || UniqueType(t) in DisallowedTypes(u) <==> Clash(t, u) || Clash(u, t)
  {
    Disallows(t, UniqueType(u));
    Disallows(u, UniqueType(t));
    hide DisallowedTypes;
  }

  lemma Disallows(t: ByToken, k: TypeName)
    ensures k in DisallowedTypes(t) <==>
            match t
            case Single => k == TMulti || k == TCustom || k == TFirst
            case First => k == TMulti || k == TCustom || k == TSingle
            case NotEmpty => k == TCustom || k == TSingle || k == TFirst || k == TAllowEmpty
            case AllowEmpty => k == TCustom || k == TSingle || k == TFirst || k == TNotEmpty
            case IgnoreErrors => k == TCustom
            case Description(_) => k == TCustom
            case Wait(_, _) => k == TCustom || k == TNoWait
            case NoWait => k == TCustom || k == TWait
            case CustomFn(_) => k != TSelector && k != TNotEmpty && k != TCustom
            case _ => false
  {
  }

  datatype ByError =
    | Unparsable(index: nat)
    | Duplicate(kind: TypeName)
    | Conflict(kind: TypeName, against: TypeName)
    | UnexpectedExtraArgs

  datatype Panic = NoSelectorFound | MultipleSelectors
  datatype Outcome<+T> = Converted(value: T) | Rejected(error: ByError) | Panicked(panic: Panic)

  /** An error names options that are really there and exclude each other. */
  ghost predicate Justified(s: seq<ByToken>, e: ByError) {
    match e
    case Duplicate(k) => exists i, j :: 0 <= i < j < |s| && UniqueType(s[i]) == UniqueType(s[j]) == k
    case Conflict(k, w) =>
      exists i, j :: 0 <= i < |s| && 0 <= j < |s|
        && UniqueType(s[i]) == k && UniqueType(s[j]) == w && w in DisallowedTypes(s[i])
    case _ => false
  }

  predicate Allows(t: ByToken, types: set<TypeName>) {
    forall k | k in DisallowedTypes(t) :: k !in types
  }

  lemma NoTypes()
    ensures Types([]) == {} && DistinctTypes([])
  {
  }

  lemma Repeated(s: seq<ByToken>, i: nat)
    requires i < |s| && UniqueType(s[i]) in Types(s[..i])
    ensures Justified(s, Duplicate(UniqueType(s[i]))) && !DistinctTypes(s)
  {
    hide UniqueType;
    var j := TypeHasToken(s[..i], UniqueType(s[i]));
    assert s[j] == s[..i][j];
  }

  lemma Conflicting(s: seq<ByToken>, i: nat, k: TypeName)
    requires i < |s| && k in DisallowedTypes(s[i]) && k in Types(s)
    ensures Justified(s, Conflict(UniqueType(s[i]), k)) && !Compatible(s)
  {
    hide UniqueType, DisallowedTypes;
    var j := TypeHasToken(s, k);
  }

  lemma AllAllowed(s: seq<ByToken>)
    requires forall i | 0 <= i < |s| :: Allows(s[i], Types(s))
    ensures Compatible(s)
  {
    hide UniqueType, DisallowedTypes;
    assert forall j | 0 <= j < |s| :: s[j] in s && UniqueType(s[j]) in Types(s);
  }

  lemma TypesSnoc(s: seq<ByToken>, t: ByToken)
    ensures Types(s + [t]) == Types(s) + {UniqueType(t)}
  {
    assert forall k | k in Types(s) :: k in Types(s + [t]) by {
      assert forall u | u in s :: u in s + [t];
    }
    assert t in s + [t];
  }

  lemma TypeHasToken(s: seq<ByToken>, k: TypeName) returns (j: nat)
    requires k in Types(s)
    ensures j < |s| && UniqueType(s[j]) == k
  {
    var t :| t in s && UniqueType(t) == k;
    j :| j < |s| && s[j] == t;
  }

  /** Taking an option out. */
  datatype Taken = Taken(token: Option<ByToken>, rest: seq<ByToken>)

  function Take(s: seq<ByToken>, k: TypeName): (r: Taken)
    ensures r.token.None? ==> r.rest == s
    ensures r.token.Some? ==> UniqueType(r.token.value) == k
  {
    if s == [] then Taken(None, [])
    else if UniqueType(s[0]) == k then Taken(Some(s[0]), s[1..])
    else
      var r := Take(s[1..], k);
      if r.token.None? then Taken(None, s) else Taken(r.token, [s[0]] + r.rest)
  }

  function Selectors(s: seq<ByToken>): seq<ByToken> {
    if s == [] then []
    else Selectors(s[..|s| - 1]) + (if UniqueType(s[|s| - 1]) == TSelector then [s[|s| - 1]] else [])
  }

  function Others(s: seq<ByToken>): seq<ByToken> {
    if s == [] then []
    else Others(s[..|s| - 1]) + (if UniqueType(s[|s| - 1]) == TSelector then [] else [s[|s| - 1]])
  }

  // ----- conversion -----

  datatype SingleOptions =
    | SingleCustom(expr: string)
    | SingleOpts(selector: ByToken, first: Option<bool>, ignoreErrors: Option<bool>, description: Option<string>,
                 wait: Option<ByToken>, nowait: Option<bool>)

  datatype MultiOptions =
    | MultiCustom(expr: string)
    | MultiOpts(selector: ByToken, allowEmpty: Option<bool>, ignoreErrors: Option<bool>, description: Option<string>,
                wait: Option<ByToken>, nowait: Option<bool>)

  function Flag(t: Option<ByToken>): Option<bool> {
    if t.Some? then Some(true) else None
  }

  function Text(t: Option<ByToken>): Option<string>
    requires t.Some? ==> t.value.Description?
  {
    if t.Some? then Some(t.value.text) else None
  }

  /** The options that follow the selector, taken one after the other. */
  datatype Common = Common(ignoreErrors: Option<bool>, description: Option<string>, wait: Option<ByToken>,
                           nowait: Option<bool>, rest: seq<ByToken>)

  function TakeCommon(s: seq<ByToken>): Common {
    var e := Take(s, TIgnoreErrors);
    var d := Take(e.rest, TDescription);
    var w := Take(d.rest, TWait);
    var n := Take(w.rest, TNoWait);
    Common(Flag(e.token), Text(d.token), w.token, Flag(n.token), n.rest)
  }

  function ConvertSingle(s: seq<ByToken>): Outcome<SingleOptions> {
    var s1 := Take(s, TSingle).rest;
    var custom := Take(s1, TCustom);
    if custom.token.Some? then
      if custom.rest == [] then Converted(SingleCustom(custom.token.value.expr)) else Rejected(UnexpectedExtraArgs)
    else if |Selectors(s1)| != 1 then Panicked(if Selectors(s1) == [] then NoSelectorFound else MultipleSelectors)
    else
      var f := Take(Others(s1), TFirst);
      var c := TakeCommon(f.rest);
      if c.rest != [] then Rejected(UnexpectedExtraArgs)
      else Converted(SingleOpts(Selectors(s1)[0], Flag(f.token), c.ignoreErrors, c.description, c.wait, c.nowait))
  }

  function ConvertMulti(s: seq<ByToken>): Outcome<MultiOptions> {
    var s1 := Take(Take(s, TMulti).rest, TNotEmpty).rest;
    var custom := Take(s1, TCustom);
    if custom.token.Some? then
      if custom.rest == [] then Converted(MultiCustom(custom.token.value.expr)) else Rejected(UnexpectedExtraArgs)
    else if |Selectors(s1)| != 1 then Panicked(if Selectors(s1) == [] then NoSelectorFound else MultipleSelectors)
    else
      var a := Take(Others(s1), TAllowEmpty);
      var c := TakeCommon(a.rest);
      if c.rest != [] then Rejected(UnexpectedExtraArgs)
      else Converted(MultiOpts(Selectors(s1)[0], Flag(a.token), c.ignoreErrors, c.description, c.wait, c.nowait))
  }

  class ByTokens {
    var tokens: seq<ByToken>

    constructor (tokens: seq<ByToken>)
      ensures this.tokens == tokens
    {
      this.tokens := tokens;
    }

    /** `validate`: the first pass refuses repeated types, the second one incompatible types. */
    method Validate() returns (error: Option<ByError>)
      ensures error.None? <==> ValidTokens(tokens)
      ensures error.Some? ==> Justified(tokens, error.value)
    {
      hide UniqueType, DisallowedTypes, Types, DistinctTypes, Justified, Compatible;
      var uniqueTokens: set<TypeName> := {};
      NoTypes();
      for i := 0 to |tokens|
        invariant uniqueTokens == Types(tokens[..i]) && DistinctTypes(tokens[..i])
      {
        var t := UniqueType(tokens[i]);
        assert tokens[..i + 1] == tokens[..i] + [tokens[i]];
        TypesSnoc(tokens[..i], tokens[i]);
        DistinctSnoc(tokens[..i], tokens[i]);
        if t in uniqueTokens {
          Repeated(tokens, i);
          return Some(Duplicate(t));
        }
        uniqueTokens := uniqueTokens + {t};
      }
      assert tokens[..|tokens|] == tokens;
      for i := 0 to |tokens|
        invariant forall a | 0 <= a < i :: Allows(tokens[a], uniqueTokens)
      {
        var disallowed := DisallowedTypes(tokens[i]);
        for d := 0 to |disallowed|
          invariant forall e | 0 <= e < d :: disallowed[e] !in uniqueTokens
        {
          if disallowed[d] in uniqueTokens {
            Conflicting(tokens, i, disallowed[d]);
            return Some(Conflict(UniqueType(tokens[i]), disallowed[d]));
          }
        }
      }
      AllAllowed(tokens);
      return None;
    }

    /** `take_one`: the first token the function has a value for is removed. */
    method TakeOne<T>(f: ByToken -> Option<T>) returns (r: Option<T>, ghost p: nat)
      modifies this
      ensures p <= |old(tokens)| && forall i | 0 <= i < p :: f(old(tokens)[i]).None?
      ensures r.None? ==> p == |old(tokens)| && tokens == old(tokens)
      ensures r.Some? ==> p < |old(tokens)| && r == f(old(tokens)[p]) && tokens == old(tokens)[..p] + old(tokens)[p + 1..]
    {
      p := |tokens|;
      for i := 0 to |tokens|
        invariant tokens == old(tokens) && p == |tokens|
        invariant forall k | 0 <= k < i :: f(tokens[k]).None?
      {
        var v := f(tokens[i]);
        if v.Some? {
          p := i;
          tokens := tokens[..i] + tokens[i + 1..];
          return v, p;
        }
      }
      return None, p;
    }

    method TakeType(k: TypeName) returns (r: Option<ByToken>)
      modifies this
      ensures Taken(r, tokens) == Take(old(tokens), k)
    {
      ghost var p;
      r, p := TakeOne(t => if UniqueType(t) == k then Some(t) else None);
      TakeAt(old(tokens), k, p);
    }

    /** `take_by`: the selectors are taken out and the others put back; anything but one selector panics. */
    method TakeBy() returns (selector: Outcome<ByToken>)
      modifies this
      ensures tokens == Others(old(tokens))
      ensures selector == if |Selectors(old(tokens))| == 1 then Converted(Selectors(old(tokens))[0])
                    else Panicked(if Selectors(old(tokens)) == [] then NoSelectorFound else MultipleSelectors)
    {
      var found: seq<ByToken> := [];
      var tokensIn := tokens;
      tokens := [];
      for i := 0 to |tokensIn|
        invariant found == Selectors(tokensIn[..i]) && tokens == Others(tokensIn[..i])
      {
        var t := tokensIn[i];
        assert tokensIn[..i + 1][..i] == tokensIn[..i];
        if UniqueType(t) == TSelector {
          found := found + [t];
        } else {
          tokens := tokens + [t];
        }
      }
      assert tokensIn[..|tokensIn|] == tokensIn;
      selector := if |found| == 0 then Panicked(NoSelectorFound)
            else if |found| == 1 then Converted(found[0])
            else Panicked(MultipleSelectors);
    }

    method TakeCommonOptions() returns (c: Common)
      modifies this
      ensures c == TakeCommon(old(tokens)) && tokens == c.rest
    {
      hide Take;
      var e := TakeType(TIgnoreErrors);
      var d := TakeType(TDescription);
      var w := TakeType(TWait);
      var n := TakeType(TNoWait);
      c := Common(Flag(e), Text(d), w, Flag(n), tokens);
    }

    method IntoSingle() returns (r: Outcome<SingleOptions>)
      modifies this
      ensures r == ConvertSingle(old(tokens))
    {
      hide Take, TakeCommon, Selectors, Others;
      var _ := TakeType(TSingle);
      var custom := TakeType(TCustom);
      var s: SingleOptions;
      if custom.Some? {
        s := SingleCustom(custom.value.expr);
      } else {
        var selector := TakeBy();
        if selector.Panicked? {
          return Panicked(selector.panic);
        }
        var first := TakeType(TFirst);
        var c := TakeCommonOptions();
        s := SingleOpts(selector.value, Flag(first), c.ignoreErrors, c.description, c.wait, c.nowait);
      }
      r := if tokens != [] then Rejected(UnexpectedExtraArgs) else Converted(s);
    }

    method IntoMulti() returns (r: Outcome<MultiOptions>)
      modifies this
      ensures r == ConvertMulti(old(tokens))
    {
      hide Take, TakeCommon, Selectors, Others;
      var _ := TakeType(TMulti);
      var _ := TakeType(TNotEmpty);
      var custom := TakeType(TCustom);
      var s: MultiOptions;
      if custom.Some? {
        s := MultiCustom(custom.value.expr);
      } else {
        var selector := TakeBy();
        if selector.Panicked? {
          return Panicked(selector.panic);
        }
        var allowEmpty := TakeType(TAllowEmpty);
        var c := TakeCommonOptions();
        s := MultiOpts(selector.value, Flag(allowEmpty), c.ignoreErrors, c.description, c.wait, c.nowait);
      }
      r := if tokens != [] then Rejected(UnexpectedExtraArgs) else Converted(s);
    }
  }

  lemma {:induction false} TakeAt(s: seq<ByToken>, k: TypeName, p: nat)
    requires p <= |s| && (forall i | 0 <= i < p :: UniqueType(s[i]) != k) && (p < |s| ==> UniqueType(s[p]) == k)
    ensures Take(s, k) == if p < |s| then Taken(Some(s[p]), s[..p] + s[p + 1..]) else Taken(None, s)
  {
    hide UniqueType;
    if s != [] {
      if p > 0 {
        var rest := s[1..];
        assert forall i | 0 <= i < p - 1 :: rest[i] == s[i + 1];
        TakeAt(rest, k, p - 1);
      }
      if p < |s| {
        WithoutAt(s, p);
      }
    }
  }

  lemma WithoutAt(s: seq<ByToken>, p: nat)
    requires p < |s|
    ensures s[..p] + s[p + 1..] ==
            if p == 0 then s[1..] else [s[0]] + (s[1..][..p - 1] + s[1..][p..])
  {
  }

  /** Parsing an attribute: each parsed option is pushed and the list validated, and once more at the end.
      The list is accepted exactly when every option parses and one final validation accepts them all. */
  method ParseAttribute(metas: seq<Option<ByToken>>) returns (r: Outcome<ByTokens>)
    ensures !r.Panicked?
    ensures r.Converted? <==> (forall i | 0 <= i < |metas| :: metas[i].Some?) && ValidTokens(Values(metas))
    ensures r.Converted? ==> fresh(r.value) && r.value.tokens == Values(metas)
  {
    hide UniqueType, DisallowedTypes, ValidTokens;
    var tokens := new ByTokens([]);
    for i := 0 to |metas|
      invariant fresh(tokens) && tokens.tokens == Values(metas[..i])
      invariant forall k | 0 <= k < i :: metas[k].Some?
    {
      if metas[i].None? {
        return Rejected(Unparsable(i));
      }
      ValuesSnoc(metas[..i], metas[i].value);
      assert metas[..i + 1] == metas[..i] + [metas[i]];
      tokens.tokens := tokens.tokens + [metas[i].value];
      var error := tokens.Validate();
      if error.Some? {
        if ValidTokens(Values(metas)) {
          ValidPrefix(metas, i + 1);
        }
        return Rejected(error.value);
      }
    }
    assert metas[..|metas|] == metas;
    var error := tokens.Validate();
    r := if error.Some? then Rejected(error.value) else Converted(tokens);
  }

  function Values(metas: seq<Option<ByToken>>): seq<ByToken> {
    if metas == [] then []
    else Values(metas[..|metas| - 1]) + (if metas[|metas| - 1].Some? then [metas[|metas| - 1].value] else [])
  }

  lemma ValuesSnoc(metas: seq<Option<ByToken>>, t: ByToken)
    ensures Values(metas + [Some(t)]) == Values(metas) + [t]
  {
    assert (metas + [Some(t)])[..|metas|] == metas;
  }

  /** Whatever a prefix is refused for, the whole list is refused for. */
  lemma {:induction false} ValidPrefix(metas: seq<Option<ByToken>>, k: nat)
    requires k <= |metas| && ValidTokens(Values(metas))
    ensures ValidTokens(Values(metas[..k]))
  {
    hide UniqueType, DisallowedTypes;
    if k < |metas| {
      var front := metas[..|metas| - 1];
      assert Values(front) <= Values(metas);
      assert ValidTokens(Values(front)) by {
        assert forall i | 0 <= i < |Values(front)| :: Values(front)[i] == Values(metas)[i];
      }
      ValidPrefix(front, k);
      assert front[..k] == metas[..k];
    } else {
      assert metas[..k] == metas;
    }
  }

  // ----- nothing is dropped -----

  function Bag(t: Option<ByToken>): multiset<ByToken> {
    if t.Some? then multiset{t.value} else multiset{}
  }

  function FlagBag(f: Option<bool>, t: ByToken): multiset<ByToken> {
    if f == Some(true) then multiset{t} else multiset{}
  }

  /** The tokens an option value stands for. */
  function CommonTokens(ignoreErrors: Option<bool>, description: Option<string>, wait: Option<ByToken>,
                        nowait: Option<bool>): multiset<ByToken> {
    FlagBag(ignoreErrors, IgnoreErrors) + TextBag(description) + Bag(wait) + FlagBag(nowait, NoWait)
  }

  function TextBag(description: Option<string>): multiset<ByToken> {
    if description.Some? then multiset{Description(description.value)} else multiset{}
  }

  function SingleTokens(o: SingleOptions): multiset<ByToken> {
    match o
    case SingleCustom(expr) => multiset{CustomFn(expr)}
    case SingleOpts(selector, first, e, d, w, n) => multiset{selector} + FlagBag(first, First) + CommonTokens(e, d, w, n)
  }

  function MultiTokens(o: MultiOptions): multiset<ByToken> {
    match o
    case MultiCustom(expr) => multiset{CustomFn(expr)}
    case MultiOpts(selector, allowEmpty, e, d, w, n) =>
      multiset{selector} + FlagBag(allowEmpty, AllowEmpty) + CommonTokens(e, d, w, n)
  }

  lemma {:induction false} TakeConserves(s: seq<ByToken>, k: TypeName)
    ensures multiset(s) == Bag(Take(s, k).token) + multiset(Take(s, k).rest)
  {
    hide UniqueType;
    if s != [] {
      assert s == [s[0]] + s[1..];
      TakeConserves(s[1..], k);
    }
  }

  lemma {:induction false} SelectorsConserve(s: seq<ByToken>)
    ensures multiset(s) == multiset(Selectors(s)) + multiset(Others(s))
  {
    hide UniqueType;
    if s != [] {
      var front, last := s[..|s| - 1], s[|s| - 1];
      assert s == front + [last];
      SelectorsConserve(front);
    }
  }

  lemma FlagIsBag(s: seq<ByToken>, k: TypeName, t: ByToken)
    requires UniqueType(t) == k && (k == TFirst || k == TAllowEmpty || k == TIgnoreErrors || k == TNoWait)
    ensures Bag(Take(s, k).token) == FlagBag(Flag(Take(s, k).token), t)
  {
    hide Take;
  }

  lemma TextIsBag(s: seq<ByToken>)
    ensures var t := Take(s, TDescription).token; (t.Some? ==> t.value.Description?) && Bag(t) == TextBag(Text(t))
  {
    hide Take;
  }

  lemma CommonConserves(s: seq<ByToken>)
    ensures var c := TakeCommon(s);
            multiset(s) == CommonTokens(c.ignoreErrors, c.description, c.wait, c.nowait) + multiset(c.rest)
  {
    hide Take, Bag, FlagBag, TextBag, Flag, Text;
    var e := Take(s, TIgnoreErrors);
    var d := Take(e.rest, TDescription);
    var w := Take(d.rest, TWait);
    var n := Take(w.rest, TNoWait);
    TakeConserves(s, TIgnoreErrors);
    TakeConserves(e.rest, TDescription);
    TakeConserves(d.rest, TWait);
    TakeConserves(w.rest, TNoWait);
    FlagIsBag(s, TIgnoreErrors, IgnoreErrors);
    FlagIsBag(w.rest, TNoWait, NoWait);
    TextIsBag(e.rest);
    Regroup(Bag(e.token), Bag(d.token), Bag(w.token), Bag(n.token), multiset(n.rest));
  }

  lemma Regroup(a: multiset<ByToken>, b: multiset<ByToken>, c: multiset<ByToken>, d: multiset<ByToken>,
                r: multiset<ByToken>)
    ensures a + (b + (c + (d + r))) == a + b + c + d + r
  {
  }

  /** A converted list without a custom function: its selector, the option the resolver has of its own and the
      common ones are all there was. */
  lemma OptsConserve(s: seq<ByToken>, k: TypeName, t: ByToken)
    requires UniqueType(t) == k && (k == TFirst || k == TAllowEmpty) && |Selectors(s)| == 1
    requires TakeCommon(Take(Others(s), k).rest).rest == []
    ensures var own := Take(Others(s), k);
            var c := TakeCommon(own.rest);
            multiset(s) == multiset{Selectors(s)[0]} + FlagBag(Flag(own.token), t)
                           + CommonTokens(c.ignoreErrors, c.description, c.wait, c.nowait)
  {
    hide Take, TakeCommon, Selectors, Others, CommonTokens, Bag, Flag, FlagBag;
    var own := Take(Others(s), k);
    SelectorsConserve(s);
    assert Selectors(s) == [Selectors(s)[0]];
    assert multiset([Selectors(s)[0]]) == multiset{Selectors(s)[0]};
    TakeConserves(Others(s), k);
    CommonConserves(own.rest);
    FlagIsBag(Others(s), k, t);
    Regroup3(multiset{Selectors(s)[0]}, Bag(own.token), multiset(own.rest));
  }

  lemma Regroup3(a: multiset<ByToken>, b: multiset<ByToken>, c: multiset<ByToken>)
    ensures a + (b + c) == a + b + c && c + multiset([]) == c && a + b == b + a
  {
  }

  /** A single resolver's options stand for every token there was, but a `single` that states the default. */
  lemma SingleConsumesAll(s: seq<ByToken>)
    requires ConvertSingle(s).Converted?
    ensures multiset(s) == Bag(Take(s, TSingle).token) + SingleTokens(ConvertSingle(s).value)
  {
    hide Take, TakeCommon, Selectors, Others, CommonTokens, Flag, FlagBag;
    var s1 := Take(s, TSingle).rest;
    var custom := Take(s1, TCustom);
    TakeConserves(s, TSingle);
    if custom.token.Some? {
      CustomConserves(s1);
    } else {
      OptsConserve(s1, TFirst, First);
    }
  }

  lemma CustomConserves(s: seq<ByToken>)
    requires Take(s, TCustom).token.Some? && Take(s, TCustom).rest == []
    ensures Take(s, TCustom).token.value.CustomFn?
    ensures multiset(s) == multiset{CustomFn(Take(s, TCustom).token.value.expr)}
  {
    hide Take;
    TakeConserves(s, TCustom);
  }

  /** A multi resolver's options stand for every token there was, but `multi` and a `not_empty` that states
      the default. */
  lemma MultiConsumesAll(s: seq<ByToken>)
    requires ConvertMulti(s).Converted?
    ensures multiset(s) == Bag(Take(s, TMulti).token) + Bag(Take(Take(s, TMulti).rest, TNotEmpty).token)
                           + MultiTokens(ConvertMulti(s).value)
  {
    hide Take, TakeCommon, Selectors, Others, CommonTokens, Flag, FlagBag, Bag;
    var m := Take(s, TMulti);
    var e := Take(m.rest, TNotEmpty);
    var custom := Take(e.rest, TCustom);
    TakeConserves(s, TMulti);
    TakeConserves(m.rest, TNotEmpty);
    Regroup3(Bag(m.token), Bag(e.token), multiset(e.rest));
    if custom.token.Some? {
      CustomConserves(e.rest);
    } else {
      OptsConserve(e.rest, TAllowEmpty, AllowEmpty);
    }
  }

  // ----- what happens to a validated list -----

  lemma TypesEmpty(s: seq<ByToken>)
    ensures Types(s) == {} <==> s == []
  {
    if s != [] {
      assert UniqueType(s[0]) in Types(s);
    }
  }

  lemma InTypes(s: seq<ByToken>, k: TypeName)
    ensures k in Types(s) <==> exists i :: 0 <= i < |s| && UniqueType(s[i]) == k
  {
    hide UniqueType;
    if k in Types(s) {
      var j := TypeHasToken(s, k);
    }
  }

  lemma DistinctCons(t: ByToken, s: seq<ByToken>)
    ensures DistinctTypes([t] + s) <==> UniqueType(t) !in Types(s) && DistinctTypes(s)
  {
    hide UniqueType, Types;
    var all := [t] + s;
    InTypes(s, UniqueType(t));
    assert forall i | 0 <= i < |s| :: all[i + 1] == s[i];
    if DistinctTypes(all) {
      assert forall i | 0 < i < |all| :: UniqueType(all[0]) != UniqueType(all[i]);
    }
    assert forall i | 0 < i < |all| :: all[i] == s[i - 1];
  }

  lemma TypesCons(t: ByToken, s: seq<ByToken>)
    ensures Types([t] + s) == {UniqueType(t)} + Types(s)
  {
    hide UniqueType;
    var all := [t] + s;
    assert forall u :: u in all <==> u == t || u in s;
  }

  /** With distinct types, taking one out leaves exactly the other types. */
  lemma {:induction false} TakeLeaves(s: seq<ByToken>, k: TypeName)
    requires DistinctTypes(s)
    ensures var r := Take(s, k);
            DistinctTypes(r.rest) && (r.token.Some? <==> k in Types(s)) && Types(r.rest) == Types(s) - {k}
  {
    hide UniqueType, Types, DistinctTypes;
    if s == [] {
      TypesEmpty(s);
    } else {
      assert s == [s[0]] + s[1..];
      DistinctCons(s[0], s[1..]);
      TypesCons(s[0], s[1..]);
      TakeLeaves(s[1..], k);
      DistinctCons(s[0], Take(s[1..], k).rest);
      TypesCons(s[0], Take(s[1..], k).rest);
    }
  }

  lemma DistinctSnoc(s: seq<ByToken>, t: ByToken)
    ensures DistinctTypes(s + [t]) <==> UniqueType(t) !in Types(s) && DistinctTypes(s)
  {
    hide UniqueType, Types;
    var all := s + [t];
    InTypes(s, UniqueType(t));
    assert forall i | 0 <= i < |s| :: all[i] == s[i];
    if DistinctTypes(all) {
      assert forall i | 0 <= i < |s| :: UniqueType(all[i]) != UniqueType(all[|s|]);
    }
  }

  /** With distinct types there is at most one selector, and the others keep their types. */
  lemma {:induction false} SelectorsLeave(s: seq<ByToken>)
    requires DistinctTypes(s)
    ensures |Selectors(s)| == (if TSelector in Types(s) then 1 else 0)
    ensures DistinctTypes(Others(s)) && Types(Others(s)) == Types(s) - {TSelector}
  {
    hide UniqueType, Types, DistinctTypes;
    if s == [] {
      TypesEmpty(s);
    } else {
      var front, last := s[..|s| - 1], s[|s| - 1];
      assert s == front + [last];
      DistinctSnoc(front, last);
      TypesSnoc(front, last);
      SelectorsLeave(front);
      DistinctSnoc(Others(front), last);
      TypesSnoc(Others(front), last);
      assert Others(front) + [] == Others(front) && Selectors(front) + [] == Selectors(front);
    }
  }

  lemma CommonLeaves(s: seq<ByToken>)
    requires DistinctTypes(s)
    ensures Types(TakeCommon(s).rest) == Types(s) - {TIgnoreErrors, TDescription, TWait, TNoWait}
  {
    hide Take, DistinctTypes, Types;
    var e := Take(s, TIgnoreErrors);
    var d := Take(e.rest, TDescription);
    var w := Take(d.rest, TWait);
    TakeLeaves(s, TIgnoreErrors);
    TakeLeaves(e.rest, TDescription);
    TakeLeaves(d.rest, TWait);
    TakeLeaves(w.rest, TNoWait);
  }

  /** Next to a custom function only a selector passes validation. */
  lemma BesideCustom(s: seq<ByToken>, k: TypeName)
    requires ValidTokens(s) && TCustom in Types(s) && k in Types(s)
    ensures k == TCustom || k == TSelector
  {
    var c := TypeHasToken(s, TCustom);
    var i := TypeHasToken(s, k);
    assert s[c].CustomFn?;
    assert UniqueType(s[i]) !in DisallowedTypes(s[c]) && UniqueType(s[c]) !in DisallowedTypes(s[i]);
  }

  /** On a validated list a single resolver panics exactly when there is neither a selector nor a custom
      function, so never because of several selectors. A custom function converts unless a selector stands
      beside it, which validation lets through; a selector converts unless a multi option stands beside it. */
  lemma ValidatedSingle(s: seq<ByToken>)
    requires ValidTokens(s)
    ensures ConvertSingle(s).Panicked? <==> TCustom !in Types(s) && TSelector !in Types(s)
    ensures ConvertSingle(s) != Panicked(MultipleSelectors)
    ensures ConvertSingle(s).Converted? <==>
            if TCustom in Types(s) then TSelector !in Types(s)
            else TSelector in Types(s) && TMulti !in Types(s) && TNotEmpty !in Types(s) && TAllowEmpty !in Types(s)
  {
    hide Take, TakeCommon, Selectors, Others, DistinctTypes, Compatible, Types, UniqueType;
    DistinctOfValid(s);
    var s1 := Take(s, TSingle).rest;
    var custom := Take(s1, TCustom);
    TakeLeaves(s, TSingle);
    TakeLeaves(s1, TCustom);
    if custom.token.Some? {
      forall k | k in Types(s)
        ensures k == TCustom || k == TSelector
      {
        BesideCustom(s, k);
      }
      TypesEmpty(custom.rest);
    } else {
      SelectorsLeave(s1);
      if TSelector in Types(s1) {
        var f := Take(Others(s1), TFirst);
        TakeLeaves(Others(s1), TFirst);
        CommonLeaves(f.rest);
        TypesEmpty(TakeCommon(f.rest).rest);
        LeftOver(s, TFirst);
      }
    }
  }

  /** The same for a multi resolver: a selector converts unless `single` or `first` stands beside it. */
  lemma ValidatedMulti(s: seq<ByToken>)
    requires ValidTokens(s)
    ensures ConvertMulti(s).Panicked? <==> TCustom !in Types(s) && TSelector !in Types(s)
    ensures ConvertMulti(s) != Panicked(MultipleSelectors)
    ensures ConvertMulti(s).Converted? <==>
            if TCustom in Types(s) then TSelector !in Types(s)
            else TSelector in Types(s) && TSingle !in Types(s) && TFirst !in Types(s)
  {
    hide Take, TakeCommon, Selectors, Others, DistinctTypes, Compatible, Types, UniqueType;
    DistinctOfValid(s);
    var m := Take(s, TMulti);
    var s1 := Take(m.rest, TNotEmpty).rest;
    var custom := Take(s1, TCustom);
    TakeLeaves(s, TMulti);
    TakeLeaves(m.rest, TNotEmpty);
    TakeLeaves(s1, TCustom);
    if custom.token.Some? {
      forall k | k in Types(s)
        ensures k == TCustom || k == TSelector
      {
        BesideCustom(s, k);
      }
      TypesEmpty(custom.rest);
    } else {
      SelectorsLeave(s1);
      if TSelector in Types(s1) {
        var a := Take(Others(s1), TAllowEmpty);
        TakeLeaves(Others(s1), TAllowEmpty);
        CommonLeaves(a.rest);
        TypesEmpty(TakeCommon(a.rest).rest);
        LeftOver(s, TAllowEmpty);
      }
    }
  }

  /** Validation lets a custom function stand beside a selector, and no conversion takes the two. */
  lemma CustomBesideSelector(expr: string, css: string)
    ensures var s := [CustomFn(expr), Css(css)];
            ValidTokens(s) && ConvertSingle(s) == Rejected(UnexpectedExtraArgs)
            && ConvertMulti(s) == Rejected(UnexpectedExtraArgs)
  {
    hide TakeCommon, Selectors, Others;
    var s := [CustomFn(expr), Css(css)];
    assert s[1..] == [Css(css)];
    assert Take([Css(css)], TSingle) == Taken(None, [Css(css)]);
    assert Take([Css(css)], TMulti) == Taken(None, [Css(css)]);
    assert Take([Css(css)], TNotEmpty) == Taken(None, [Css(css)]);
  }

  lemma DistinctOfValid(s: seq<ByToken>)
    requires ValidTokens(s)
    ensures DistinctTypes(s)
  {
  }

  /** What is left of the types after a conversion took all that it knows. */
  lemma LeftOver(s: seq<ByToken>, own: TypeName)
    requires own == TFirst || own == TAllowEmpty
    ensures var left := Types(s) - {TCustom, TSelector, own, TIgnoreErrors, TDescription, TWait, TNoWait};
            && (own == TFirst ==>
                 (left - {TSingle} == {} <==> TMulti !in left && TNotEmpty !in left && TAllowEmpty !in left))
            && (own == TAllowEmpty ==> (left - {TMulti, TNotEmpty} == {} <==> TSingle !in left && TFirst !in left))
  {
    hide UniqueType;
    var left := Types(s) - {TCustom, TSelector, own, TIgnoreErrors, TDescription, TWait, TNoWait};
    forall k | k in left
      ensures k == TMulti || k == TNotEmpty || k == TAllowEmpty || k == TSingle || k == TFirst
    {
      var i := TypeHasToken(s, k);
      Known(s[i]);
    }
    var single, multi := left - {TSingle}, left - {TMulti, TNotEmpty};
    assert TMulti in left <==> TMulti in single;
    assert TNotEmpty in left <==> TNotEmpty in single;
    assert TAllowEmpty in left <==> TAllowEmpty in single;
    assert TSingle in left <==> TSingle in multi;
    assert TFirst in left <==> TFirst in multi;
  }

  lemma Known(t: ByToken)
    ensures UniqueType(t) != TAll
  {
  }
}
