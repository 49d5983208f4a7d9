/**
 The size filters of `allure_results.py` (`_SizeExpression`): a recursive descent parser over a token list with
 a shared position, and the matching of its tree against a binary and a test name.

 The tokenizer's regular expressions are not part of this model. A `ValueError` is `None`; a compiled regular
 expression is its text, and whether it finds something in a name is the parameter `search`.
 */
module SizeFilter {
  import opened Wrappers

  datatype Token = Open | Close | Amp | Bar | Kind | TestToken(pattern: string) | BinaryToken(name: string)

  datatype Tree =
    | Never
    | Or(left: Tree, right: Tree)
    | And(left: Tree, right: Tree)
    | Test(pattern: string)
    | Binary(name: string)
    | Integration

  type Parsed = Option<(Tree, seq<Token>)>

  // ---------- The parser as a function of the tokens that are left ----------

  predicate Starts(tokens: seq<Token>, token: Token) {
    tokens != [] && tokens[0] == token
  }

  function Primary(tokens: seq<Token>): (r: Parsed)
    ensures r.Some? ==> |r.value.1| < |tokens|
    decreases |tokens|, 0
  {
    if tokens == [] then None
    else
      match tokens[0]
      case Open =>
        (match Union(tokens[1..])
         case None => None
         case Some((tree, rest)) => if Starts(rest, Close) then Some((tree, rest[1..])) else None)
      case Kind => Some((Integration, tokens[1..]))
      case TestToken(pattern) => Some((Test(pattern), tokens[1..]))
      case BinaryToken(name) => Some((Binary(name), tokens[1..]))
      case _ => None
  }

  /** The loop of `_intersection` with `tree` in hand. */
  function IntersectionTail(tree: Tree, tokens: seq<Token>): (r: Parsed)
    ensures r.Some? ==> |r.value.1| <= |tokens|
    decreases |tokens|, 1
  {
    if !Starts(tokens, Amp) then Some((tree, tokens))
    else
      match Primary(tokens[1..])
      case None => None
      case Some((right, rest)) => IntersectionTail(And(tree, right), rest)
  }

  function Intersection(tokens: seq<Token>): (r: Parsed)
    ensures r.Some? ==> |r.value.1| < |tokens|
    decreases |tokens|, 2
  {
    match Primary(tokens)
    case None => None
    case Some((tree, rest)) => IntersectionTail(tree, rest)
  }

  /** The loop of `_union` with `tree` in hand. */
  function UnionTail(tree: Tree, tokens: seq<Token>): (r: Parsed)
    ensures r.Some? ==> |r.value.1| <= |tokens|
    decreases |tokens|, 3
  {
    if !Starts(tokens, Bar) then Some((tree, tokens))
    else
      match Intersection(tokens[1..])
      case None => None
      case Some((right, rest)) => UnionTail(Or(tree, right), rest)
  }

  function Union(tokens: seq<Token>): (r: Parsed)
    ensures r.Some? ==> |r.value.1| < |tokens|
    decreases |tokens|, 4
  {
    match Intersection(tokens)
    case None => None
    case Some((tree, rest)) => UnionTail(tree, rest)
  }

  function ParseAll(tokens: seq<Token>): Option<Tree> {
    if tokens == [] then Some(Never)
    else
      match Union(tokens)
      case None => None
      case Some((tree, rest)) => if rest == [] then Some(tree) else None
  }

  // ---------- The parser as it runs ----------

  class Parser {
    const tokens: seq<Token>
    var position: nat

    constructor (tokens: seq<Token>)
      ensures this.tokens == tokens && position == 0
    {
      this.tokens := tokens;
      position := 0;
    }

    ghost predicate Valid()
      reads this
    {
      position <= |tokens|
    }

    ghost function Left(): seq<Token>
      requires Valid()
      reads this
    {
      tokens[position..]
    }

    /** `r` and the tokens left are what the functional parser says of the tokens before. */
    ghost predicate Agrees(r: Option<Tree>, spec: Parsed)
      reads this
    {
      Valid() && (r.Some? <==> spec.Some?) && (r.Some? ==> spec.value == (r.value, Left()))
    }

    method Take(token: Token) returns (taken: bool)
      requires Valid()
      modifies `position
      ensures Valid() && taken == Starts(old(Left()), token)
      ensures Left() == if taken then old(Left())[1..] else old(Left())
    {
      taken := position < |tokens| && tokens[position] == token;
      if taken {
        position := position + 1;
      }
    }

    method ParseUnion() returns (r: Option<Tree>)
      requires Valid()
      modifies `position
      ensures Agrees(r, Union(old(Left())))
      decreases |tokens| - position, 4
    {
      r := ParseIntersection();
      if r.None? {
        return;
      }
      var more := Take(Bar);
      while more
        invariant Valid() && position > old(position) && r.Some?
        invariant Union(old(Left())) == if more then UnionTail(r.value, [Bar] + Left()) else Some((r.value, Left()))
        decreases |tokens| - position, more
      {
        assert ([Bar] + Left())[1..] == Left();
        var right := ParseIntersection();
        if right.None? {
          return None;
        }
        r := Some(Or(r.value, right.value));
        more := Take(Bar);
      }
    }

    method ParseIntersection() returns (r: Option<Tree>)
      requires Valid()
      modifies `position
      ensures Agrees(r, Intersection(old(Left())))
      ensures r.Some? ==> position > old(position)
      decreases |tokens| - position, 2
    {
      r := ParsePrimary();
      if r.None? {
        return;
      }
      var more := Take(Amp);
      while more
        invariant Valid() && position > old(position) && r.Some?
        invariant Intersection(old(Left())) == if more then IntersectionTail(r.value, [Amp] + Left())
                  else Some((r.value, Left()))
        decreases |tokens| - position, more
      {
        assert ([Amp] + Left())[1..] == Left();
        var right := ParsePrimary();
        if right.None? {
          return None;
        }
        r := Some(And(r.value, right.value));
        more := Take(Amp);
      }
    }

    method ParsePrimary() returns (r: Option<Tree>)
      requires Valid()
      modifies `position
      ensures Agrees(r, Primary(old(Left())))
      ensures r.Some? ==> position > old(position)
      decreases |tokens| - position, 0
    {
      var group := Take(Open);
      if group {
        r := ParseUnion();
        if r.Some? {
          var closed := Take(Close);
          r := if closed then r else None;
        }
        return;
      }
      if position >= |tokens| {
        return None;
      }
      var token := tokens[position];
      position := position + 1;
      match token
      case Kind => return Some(Integration);
      case TestToken(pattern) => return Some(Test(pattern));
      case BinaryToken(name) => return Some(Binary(name));
      case _ => return None;
    }
  }

  /** The constructor of `_SizeExpression`, after tokenizing. */
  method Parse(tokens: seq<Token>) returns (r: Option<Tree>)
    ensures r == ParseAll(tokens)
  {
    if tokens == [] {
      return Some(Never);
    }
    var parser := new Parser(tokens);
    assert parser.Left() == tokens;
    r := parser.ParseUnion();
    if r.Some? && parser.position != |tokens| {
      r := None;
    }
  }

  // ---------- The grammar ----------

  /** union ::= intersection | union "|" intersection */
  ghost predicate IsUnion(tokens: seq<Token>, tree: Tree)
    decreases |tokens|, 2
  {
    IsIntersection(tokens, tree) || (tree.Or? && exists k :: BarAt(tokens, tree, k))
  }

  ghost predicate BarAt(tokens: seq<Token>, tree: Tree, k: nat)
    requires tree.Or?
    decreases |tokens|, 0
  {
    k < |tokens| && tokens[k] == Bar && IsUnion(tokens[..k], tree.left) && IsIntersection(tokens[k + 1..], tree.right)
  }

  /** intersection ::= primary | intersection "&" primary */
  ghost predicate IsIntersection(tokens: seq<Token>, tree: Tree)
    decreases |tokens|, 1
  {
    IsPrimary(tokens, tree) || (tree.And? && exists k :: AmpAt(tokens, tree, k))
  }

  ghost predicate AmpAt(tokens: seq<Token>, tree: Tree, k: nat)
    requires tree.And?
    decreases |tokens|, 0
  {
    k < |tokens| && tokens[k] == Amp && IsIntersection(tokens[..k], tree.left) && IsPrimary(tokens[k + 1..], tree.right)
  }

  /** primary ::= "(" union ")" | kind(test) | test(/.../) | binary(...) */
  ghost predicate IsPrimary(tokens: seq<Token>, tree: Tree)
    decreases |tokens|, 0
  {
    || (tree == Integration && tokens == [Kind])
    || (tree.Test? && tokens == [TestToken(tree.pattern)])
    || (tree.Binary? && tokens == [BinaryToken(tree.name)])
    || (|tokens| > 2 && tokens[0] == Open && tokens[|tokens| - 1] == Close && IsUnion(tokens[1..|tokens| - 1], tree))
  }

  lemma Associates(a: seq<Token>, b: seq<Token>, c: seq<Token>)
    ensures a + (b + c) == (a + b) + c
  {
  }

  // ---------- What is parsed is in the grammar ----------

  lemma {:induction false} ParsedPrimary(tokens: seq<Token>) returns (used: seq<Token>)
    requires Primary(tokens).Some?
    ensures tokens == used + Primary(tokens).value.1 && IsPrimary(used, Primary(tokens).value.0)
    decreases |tokens|, 0
  {
    if tokens[0] == Open {
      var inner := ParsedUnion(tokens[1..]);
      var (tree, rest) := Union(tokens[1..]).value;
      assert rest == [Close] + rest[1..];
      used := WrapGroup(inner, tree);
      assert tokens == [Open] + (inner + ([Close] + rest[1..]));
      Associates(inner, [Close], rest[1..]);
      Associates([Open], inner + [Close], rest[1..]);
      Associates([Open], inner, [Close]);
    } else {
      used := [tokens[0]];
    }
  }

  lemma WrapGroup(inner: seq<Token>, tree: Tree) returns (used: seq<Token>)
    requires IsUnion(inner, tree)
    ensures used == [Open] + inner + [Close] && IsPrimary(used, tree)
  {
    NotEmpty(inner, tree);
    used := [Open] + inner + [Close];
    assert used[1..|used| - 1] == inner;
  }

  lemma NotEmpty(tokens: seq<Token>, tree: Tree)
    requires IsUnion(tokens, tree)
    ensures tokens != []
  {
    if IsIntersection(tokens, tree) {
      IntersectionNotEmpty(tokens, tree);
    } else {
      var k: nat :| BarAt(tokens, tree, k);
    }
  }

  lemma IntersectionNotEmpty(tokens: seq<Token>, tree: Tree)
    requires IsIntersection(tokens, tree)
    ensures tokens != []
  {
    if !IsPrimary(tokens, tree) {
      var k: nat :| AmpAt(tokens, tree, k);
    }
  }

  lemma {:induction false} ParsedIntersectionTail(done: seq<Token>, tree: Tree, tokens: seq<Token>)
    returns (used: seq<Token>)
    requires IsIntersection(done, tree) && IntersectionTail(tree, tokens).Some?
    ensures done + tokens == used + IntersectionTail(tree, tokens).value.1
    ensures IsIntersection(used, IntersectionTail(tree, tokens).value.0)
    decreases |tokens|, 1
  {
    if !Starts(tokens, Amp) {
      used := done;
    } else {
      var right := ParsedPrimary(tokens[1..]);
      var (node, rest) := Primary(tokens[1..]).value;
      JoinAmp(done, tree, right, node);
      used := ParsedIntersectionTail(done + [Amp] + right, And(tree, node), rest);
      Splice(done, tokens, right, rest);
    }
  }

  /** `done` followed by an operator and what it was applied to. */
  lemma Splice(done: seq<Token>, tokens: seq<Token>, right: seq<Token>, rest: seq<Token>)
    requires tokens != [] && tokens[1..] == right + rest
    ensures done + tokens == done + [tokens[0]] + right + rest
  {
    assert tokens == [tokens[0]] + (right + rest);
    Associates([tokens[0]], right, rest);
    Associates(done, [tokens[0]] + right, rest);
    Associates(done, [tokens[0]], right);
  }

  lemma JoinAmp(left: seq<Token>, l: Tree, right: seq<Token>, r: Tree)
    requires IsIntersection(left, l) && IsPrimary(right, r)
    ensures IsIntersection(left + [Amp] + right, And(l, r))
  {
    var tokens := left + [Amp] + right;
    assert tokens[..|left|] == left && tokens[|left| + 1..] == right;
    assert AmpAt(tokens, And(l, r), |left|);
  }

  lemma JoinBar(left: seq<Token>, l: Tree, right: seq<Token>, r: Tree)
    requires IsUnion(left, l) && IsIntersection(right, r)
    ensures IsUnion(left + [Bar] + right, Or(l, r))
  {
    var tokens := left + [Bar] + right;
    assert tokens[..|left|] == left && tokens[|left| + 1..] == right;
    assert BarAt(tokens, Or(l, r), |left|);
  }

  lemma {:induction false} ParsedIntersection(tokens: seq<Token>) returns (used: seq<Token>)
    requires Intersection(tokens).Some?
    ensures tokens == used + Intersection(tokens).value.1 && IsIntersection(used, Intersection(tokens).value.0)
    decreases |tokens|, 2
  {
    var first := ParsedPrimary(tokens);
    var (tree, rest) := Primary(tokens).value;
    used := ParsedIntersectionTail(first, tree, rest);
  }

  lemma {:induction false} ParsedUnionTail(done: seq<Token>, tree: Tree, tokens: seq<Token>) returns (used: seq<Token>)
    requires IsUnion(done, tree) && UnionTail(tree, tokens).Some?
    ensures done + tokens == used + UnionTail(tree, tokens).value.1
    ensures IsUnion(used, UnionTail(tree, tokens).value.0)
    decreases |tokens|, 3
  {
    if !Starts(tokens, Bar) {
      used := done;
    } else {
      var right := ParsedIntersection(tokens[1..]);
      var (node, rest) := Intersection(tokens[1..]).value;
      JoinBar(done, tree, right, node);
      used := ParsedUnionTail(done + [Bar] + right, Or(tree, node), rest);
      Splice(done, tokens, right, rest);
    }
  }

  lemma {:induction false} ParsedUnion(tokens: seq<Token>) returns (used: seq<Token>)
    requires Union(tokens).Some?
    ensures tokens == used + Union(tokens).value.1 && IsUnion(used, Union(tokens).value.0)
    decreases |tokens|, 4
  {
    var first := ParsedIntersection(tokens);
    var (tree, rest) := Intersection(tokens).value;
    used := ParsedUnionTail(first, tree, rest);
  }

  // ---------- What is in the grammar is parsed ----------

  lemma {:induction false} PrimaryIsParsed(tokens: seq<Token>, tree: Tree, rest: seq<Token>)
    requires IsPrimary(tokens, tree)
    ensures Primary(tokens + rest) == Some((tree, rest))
    decreases |tokens|, 0
  {
    if tokens[0] == Open {
      var inner := tokens[1..|tokens| - 1];
      UnionIsParsed(inner, tree, [Close] + rest);
      assert (tokens + rest)[1..] == inner + ([Close] + rest);
      assert ([Close] + rest)[1..] == rest;
      assert UnionTail(tree, [Close] + rest) == Some((tree, [Close] + rest));
    } else {
      assert (tokens + rest)[1..] == rest;
    }
  }

  /** Reading an intersection brings the loop to the state with its tree in hand. */
  lemma {:induction false} IntersectionIsParsed(tokens: seq<Token>, tree: Tree, rest: seq<Token>)
    requires IsIntersection(tokens, tree)
    ensures Intersection(tokens + rest) == IntersectionTail(tree, rest)
    decreases |tokens|, 1
  {
    if IsPrimary(tokens, tree) {
      PrimaryIsParsed(tokens, tree, rest);
    } else {
      var k: nat :| AmpAt(tokens, tree, k);
      var right := tokens[k + 1..];
      IntersectionIsParsed(tokens[..k], tree.left, [Amp] + (right + rest));
      PrimaryIsParsed(right, tree.right, rest);
      Cut(tokens, k, rest);
      assert ([Amp] + (right + rest))[1..] == right + rest;
    }
  }

  lemma Cut(tokens: seq<Token>, k: nat, rest: seq<Token>)
    requires k < |tokens|
    ensures tokens + rest == tokens[..k] + ([tokens[k]] + (tokens[k + 1..] + rest))
  {
    assert tokens == tokens[..k] + ([tokens[k]] + tokens[k + 1..]);
    Associates([tokens[k]], tokens[k + 1..], rest);
    Associates(tokens[..k], [tokens[k]] + tokens[k + 1..], rest);
  }

  lemma {:induction false} UnionIsParsed(tokens: seq<Token>, tree: Tree, rest: seq<Token>)
    requires IsUnion(tokens, tree) && !Starts(rest, Amp)
    ensures Union(tokens + rest) == UnionTail(tree, rest)
    decreases |tokens|, 2
  {
    if IsIntersection(tokens, tree) {
      IntersectionIsParsed(tokens, tree, rest);
    } else {
      var k: nat :| BarAt(tokens, tree, k);
      var right := tokens[k + 1..];
      UnionIsParsed(tokens[..k], tree.left, [Bar] + (right + rest));
      IntersectionIsParsed(right, tree.right, rest);
      Cut(tokens, k, rest);
      assert ([Bar] + (right + rest))[1..] == right + rest;
    }
  }

  /** The parser accepts exactly the grammar and consumes every token; nothing at all is the filter that never
      matches. */
  lemma AcceptsExactlyTheGrammar(tokens: seq<Token>, tree: Tree)
    ensures ParseAll(tokens) == Some(tree) <==> if tokens == [] then tree == Never else IsUnion(tokens, tree)
  {
    if tokens != [] && ParseAll(tokens) == Some(tree) {
      var used := ParsedUnion(tokens);
      assert used == tokens;
    }
    if tokens != [] && IsUnion(tokens, tree) {
      UnionIsParsed(tokens, tree, []);
      assert tokens + [] == tokens;
    }
  }

  /** The grammar is unambiguous: a token list has one tree, so `&` binds tighter than `|` in every filter. */
  lemma TreeIsUnique(tokens: seq<Token>, a: Tree, b: Tree)
    requires tokens != [] && IsUnion(tokens, a) && IsUnion(tokens, b)
    ensures a == b
  {
    AcceptsExactlyTheGrammar(tokens, a);
    AcceptsExactlyTheGrammar(tokens, b);
  }

  // ---------- The printer ----------

  function PrintUnion(tree: Tree): seq<Token>
    requires Printable(tree)
    decreases tree, 2
  {
    if tree.Or? then PrintUnion(tree.left) + [Bar] + PrintIntersection(tree.right) else PrintIntersection(tree)
  }

  function PrintIntersection(tree: Tree): seq<Token>
    requires Printable(tree)
    decreases tree, 1
  {
    if tree.And? then PrintIntersection(tree.left) + [Amp] + PrintPrimary(tree.right) else PrintPrimary(tree)
  }

  function PrintPrimary(tree: Tree): seq<Token>
    requires Printable(tree)
    decreases tree, 0
  {
    match tree
    case Integration => [Kind]
    case Test(pattern) => [TestToken(pattern)]
    case Binary(name) => [BinaryToken(name)]
    case Or(left, right) => [Open] + (PrintUnion(left) + [Bar] + PrintIntersection(right)) + [Close]
    case And(left, right) => [Open] + (PrintIntersection(left) + [Amp] + PrintPrimary(right)) + [Close]
  }

  /** Every tree that a filter of at least one token can have. */
  predicate Printable(tree: Tree) {
    !tree.Never? && (tree.Or? || tree.And? ==> Printable(tree.left) && Printable(tree.right))
  }

  lemma {:induction false} PrintedUnion(tree: Tree)
    requires Printable(tree)
    ensures IsUnion(PrintUnion(tree), tree)
    decreases tree, 2
  {
    if tree.Or? {
      PrintedUnion(tree.left);
      PrintedIntersection(tree.right);
      JoinBar(PrintUnion(tree.left), tree.left, PrintIntersection(tree.right), tree.right);
    } else {
      PrintedIntersection(tree);
    }
  }

  lemma {:induction false} PrintedIntersection(tree: Tree)
    requires Printable(tree)
    ensures IsIntersection(PrintIntersection(tree), tree)
    decreases tree, 1
  {
    if tree.And? {
      PrintedIntersection(tree.left);
      PrintedPrimary(tree.right);
      JoinAmp(PrintIntersection(tree.left), tree.left, PrintPrimary(tree.right), tree.right);
    } else {
      PrintedPrimary(tree);
    }
  }

  lemma {:induction false} PrintedPrimary(tree: Tree)
    requires Printable(tree)
    ensures IsPrimary(PrintPrimary(tree), tree)
    decreases tree, 0
  {
    if tree.Or? {
      PrintedUnion(tree.left);
      PrintedIntersection(tree.right);
      JoinBar(PrintUnion(tree.left), tree.left, PrintIntersection(tree.right), tree.right);
      var used := WrapGroup(PrintUnion(tree.left) + [Bar] + PrintIntersection(tree.right), tree);
    } else if tree.And? {
      PrintedIntersection(tree.left);
      PrintedPrimary(tree.right);
      JoinAmp(PrintIntersection(tree.left), tree.left, PrintPrimary(tree.right), tree.right);
      var used := WrapGroup(PrintIntersection(tree.left) + [Amp] + PrintPrimary(tree.right), tree);
    }
  }

  /** Every tree with parentheses only where precedence needs them; the filter that never matches prints as nothing. */
  function Print(tree: Tree): seq<Token>
    requires tree == Never || Printable(tree)
  {
    if tree == Never then [] else PrintUnion(tree)
  }

  lemma PrintedIsParsed(tree: Tree)
    requires tree == Never || Printable(tree)
    ensures ParseAll(Print(tree)) == Some(tree)
  {
    if tree != Never {
      PrintedUnion(tree);
      NotEmpty(PrintUnion(tree), tree);
      AcceptsExactlyTheGrammar(PrintUnion(tree), tree);
    }
  }

  /** Only printable trees are ever parsed, so `PrintedIsParsed` covers every filter. */
  lemma {:induction false} UnionIsPrintable(tokens: seq<Token>, tree: Tree)
    requires IsUnion(tokens, tree)
    ensures Printable(tree)
    decreases |tokens|, 2
  {
    if IsIntersection(tokens, tree) {
      IntersectionIsPrintable(tokens, tree);
    } else {
      var k: nat :| BarAt(tokens, tree, k);
      UnionIsPrintable(tokens[..k], tree.left);
      IntersectionIsPrintable(tokens[k + 1..], tree.right);
    }
  }

  lemma {:induction false} IntersectionIsPrintable(tokens: seq<Token>, tree: Tree)
    requires IsIntersection(tokens, tree)
    ensures Printable(tree)
    decreases |tokens|, 1
  {
    if IsPrimary(tokens, tree) {
      PrimaryIsPrintable(tokens, tree);
    } else {
      var k: nat :| AmpAt(tokens, tree, k);
      IntersectionIsPrintable(tokens[..k], tree.left);
      PrimaryIsPrintable(tokens[k + 1..], tree.right);
    }
  }

  lemma {:induction false} PrimaryIsPrintable(tokens: seq<Token>, tree: Tree)
    requires IsPrimary(tokens, tree)
    ensures Printable(tree)
    decreases |tokens|, 0
  {
    if tokens[0] == Open {
      UnionIsPrintable(tokens[1..|tokens| - 1], tree);
    }
  }

  // ---------- Matching ----------

  predicate At(text: string, part: string, i: nat) {
    i + |part| <= |text| && text[i..i + |part|] == part
  }

  predicate Contains(text: string, part: string) {
    exists i: nat | i <= |text| :: At(text, part, i)
  }

  /** The text behind the last "::" that ends at `k` or before it; all of it when there is none. */
  function AfterLast(text: string, k: nat): string
    requires k <= |text|
  {
    if k < 2 then text else if At(text, "::", k - 2) then text[k..] else AfterLast(text, k - 1)
  }

  /** `binary.rsplit("::", 1)[-1]`. */
  function LastSegment(binary: string): string {
    AfterLast(binary, |binary|)
  }

  /** The segment begins behind the rightmost "::", or is the whole text when there is none. */
  lemma {:induction false} AfterLastIsLast(text: string, k: nat) returns (cut: nat)
    requires k <= |text| && forall i: nat :: At(text, "::", i) ==> i + 2 <= k
    ensures cut <= |text| && AfterLast(text, k) == text[cut..]
    ensures cut == 0 || (cut >= 2 && At(text, "::", cut - 2))
    ensures forall i: nat :: At(text, "::", i) ==> i + 2 <= cut
  {
    if k < 2 {
      cut := 0;
    } else if At(text, "::", k - 2) {
      cut := k;
    } else {
      cut := AfterLastIsLast(text, k - 1);
    }
  }

  function Underscored(text: string): (r: string)
    ensures |r| == |text| && forall i :: 0 <= i < |r| ==> r[i] == if text[i] == '-' then '_' else text[i]
  {
    if text == "" then "" else [if text[0] == '-' then '_' else text[0]] + Underscored(text[1..])
  }

  /** What a filter is asked about. */
  datatype Query = Query(binary: string, name: string, search: (string, string) -> bool)

  predicate Evaluate(tree: Tree, q: Query) {
    match tree
    case Never => false
    case Or(left, right) => Evaluate(left, q) || Evaluate(right, q)
    case And(left, right) => Evaluate(left, q) && Evaluate(right, q)
    case Test(pattern) => q.search(pattern, q.name)
    case Binary(name) => Underscored(LastSegment(q.binary)) == name
    case Integration => Contains(q.binary, "::") && !Contains(q.binary, "bin/")
  }

  /** The answer of a filter: `None` when it is refused. */
  function Matches(tokens: seq<Token>, q: Query): Option<bool> {
    match ParseAll(tokens)
    case None => None
    case Some(tree) => Some(Evaluate(tree, q))
  }

  /** What single operands ask, and that an empty filter matches nothing. */
  lemma AtomsMean(q: Query, pattern: string, name: string)
    ensures Matches([], q) == Some(false)
    ensures Matches([TestToken(pattern)], q) == Some(q.search(pattern, q.name))
    ensures Matches([BinaryToken(name)], q) == Some(Underscored(LastSegment(q.binary)) == name)
    ensures Matches([Kind], q) == Some(Contains(q.binary, "::") && !Contains(q.binary, "bin/"))
  {
    OneToken(TestToken(pattern), Test(pattern));
    OneToken(BinaryToken(name), Binary(name));
    OneToken(Kind, Integration);
  }

  lemma OneToken(token: Token, tree: Tree)
    requires token != Open && Primary([token]) == Some((tree, [token][1..]))
    ensures ParseAll([token]) == Some(tree)
  {
    assert [token][1..] == [];
    assert IntersectionTail(tree, []) == Some((tree, []));
    assert Intersection([token]) == Some((tree, []));
    assert UnionTail(tree, []) == Some((tree, []));
    assert Union([token]) == Some((tree, []));
  }

  predicate Truth(r: Parsed, q: Query)
    requires r.Some?
  {
    Evaluate(r.value.0, q)
  }

  /** The loop of `_union` adds the same alternatives whatever is in hand. */
  lemma {:induction false} UnionTailAdds(c: bool, a: Tree, b: Tree, tokens: seq<Token>, q: Query)
    requires Evaluate(a, q) == (c || Evaluate(b, q))
    ensures UnionTail(a, tokens).Some? <==> UnionTail(b, tokens).Some?
    ensures UnionTail(a, tokens).Some? ==>
              && UnionTail(a, tokens).value.1 == UnionTail(b, tokens).value.1
              && Truth(UnionTail(a, tokens), q) == (c || Truth(UnionTail(b, tokens), q))
    decreases |tokens|
  {
    if Starts(tokens, Bar) && Intersection(tokens[1..]).Some? {
      var (right, rest) := Intersection(tokens[1..]).value;
      UnionTailAdds(c, Or(a, right), Or(b, right), rest, q);
    }
  }

  lemma {:induction false} IntersectionTailAdds(c: bool, a: Tree, b: Tree, tokens: seq<Token>, q: Query)
    requires Evaluate(a, q) == (c && Evaluate(b, q))
    ensures IntersectionTail(a, tokens).Some? <==> IntersectionTail(b, tokens).Some?
    ensures IntersectionTail(a, tokens).Some? ==>
              && IntersectionTail(a, tokens).value.1 == IntersectionTail(b, tokens).value.1
              && Truth(IntersectionTail(a, tokens), q) == (c && Truth(IntersectionTail(b, tokens), q))
    decreases |tokens|
  {
    if Starts(tokens, Amp) && Primary(tokens[1..]).Some? {
      var (right, rest) := Primary(tokens[1..]).value;
      IntersectionTailAdds(c, And(a, right), And(b, right), rest, q);
    }
  }

  /** `a | b` matches what `a` or `b` matches, for any two filters written side by side. */
  lemma BarMeansOr(a: seq<Token>, b: seq<Token>, q: Query)
    requires a != [] && b != [] && Matches(a, q).Some? && Matches(b, q).Some?
    ensures Matches(a + [Bar] + b, q) == Some(Matches(a, q).value || Matches(b, q).value)
  {
    var ta, tb := ParseAll(a).value, ParseAll(b).value;
    AcceptsExactlyTheGrammar(a, ta);
    UnionIsParsed(a, ta, [Bar] + b);
    Associates(a, [Bar], b);
    assert ([Bar] + b)[1..] == b;
    var (first, rest) := Intersection(b).value;
    UnionTailAdds(Evaluate(ta, q), Or(ta, first), first, rest, q);
  }

  /** A filter whose top level has no `|`. */
  ghost predicate Conjunctive(tokens: seq<Token>) {
    exists tree :: IsIntersection(tokens, tree)
  }

  /** `a & b` matches what both match, for any two filters without a `|` outside parentheses. */
  lemma AmpMeansAnd(a: seq<Token>, b: seq<Token>, q: Query)
    requires Conjunctive(a) && Conjunctive(b)
    ensures Matches(a, q).Some? && Matches(b, q).Some?
    ensures Matches(a + [Amp] + b, q) == Some(Matches(a, q).value && Matches(b, q).value)
  {
    var ta :| IsIntersection(a, ta);
    var tb :| IsIntersection(b, tb);
    ConjunctiveIsParsed(a, ta);
    ConjunctiveIsParsed(b, tb);
    IntersectionIsParsed(a, ta, [Amp] + b);
    Associates(a, [Amp], b);
    assert ([Amp] + b)[1..] == b;
    var (first, rest) := Primary(b).value;
    IntersectionTailAdds(Evaluate(ta, q), And(ta, first), first, rest, q);
    var both := Intersection(a + [Amp] + b);
    assert both == IntersectionTail(And(ta, first), rest);
    assert both.Some? && both.value.1 == [];
    assert Union(a + [Amp] + b) == UnionTail(both.value.0, []);
    assert UnionTail(both.value.0, []) == Some((both.value.0, []));
  }

  lemma ConjunctiveIsParsed(tokens: seq<Token>, tree: Tree)
    requires IsIntersection(tokens, tree)
    ensures tokens != [] && ParseAll(tokens) == Some(tree) && Intersection(tokens) == Some((tree, []))
  {
    assert IsUnion(tokens, tree);
    NotEmpty(tokens, tree);
    AcceptsExactlyTheGrammar(tokens, tree);
    IntersectionIsParsed(tokens, tree, []);
    assert tokens + [] == tokens;
    assert IntersectionTail(tree, []) == Some((tree, []));
  }

  /** Parentheses around any filter change nothing, and make it fit beside `&`. */
  lemma GroupMeansTheSame(a: seq<Token>, q: Query)
    requires a != [] && Matches(a, q).Some?
    ensures Matches([Open] + a + [Close], q) == Matches(a, q) && Conjunctive([Open] + a + [Close])
  {
    var tree := ParseAll(a).value;
    AcceptsExactlyTheGrammar(a, tree);
    var group := WrapGroup(a, tree);
    assert IsIntersection(group, tree);
    ConjunctiveIsParsed(group, tree);
  }
}
