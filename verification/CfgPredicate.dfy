/**
 The `#[cfg(...)]` predicates of `check-resource-limits.py`: the token parser with its shared position, and
 the analysis that decides whether a predicate holds only in a test build.

 The model starts from the token list; a missing token (the `IndexError` of the source) is `None`.
 */
module CfgPredicate {
  import opened Wrappers

  datatype Node =
    | Flag(name: string)
    | Equals(name: string, value: string)
    | Group(name: string, items: seq<Node>)

  /** `text.strip('"')`. */
  function StripQuotes(text: string): string {
    if text == "" then ""
    else if text[0] == '"' then StripQuotes(text[1..])
    else if text[|text| - 1] == '"' then StripQuotes(text[..|text| - 1])
    else text
  }

  // ---------- The parser as a function of the tokens that are left ----------

  function Predicate(tokens: seq<string>): (r: Option<(Node, seq<string>)>)
    ensures r.Some? ==> |r.value.1| < |tokens|
    decreases |tokens|, 0
  {
    if tokens == [] then None
    else if |tokens| > 1 && tokens[1] == "(" then
      match Items(tokens[2..])
      case None => None
      case Some((items, rest)) => Some((Group(tokens[0], items), rest))
    else if |tokens| > 1 && tokens[1] == "=" then
      if |tokens| == 2 then None else Some((Equals(tokens[0], StripQuotes(tokens[2])), tokens[3..]))
    else Some((Flag(tokens[0]), tokens[1..]))
  }

  function SkipComma(tokens: seq<string>): (rest: seq<string>)
    ensures |rest| <= |tokens|
  {
    if tokens != [] && tokens[0] == "," then tokens[1..] else tokens
  }

  function Items(tokens: seq<string>): (r: Option<(seq<Node>, seq<string>)>)
    ensures r.Some? ==> |r.value.1| < |tokens|
    decreases |tokens|, 1
  {
    if tokens == [] then None
    else if tokens[0] == ")" then Some(([], tokens[1..]))
    else
      match Predicate(tokens)
      case None => None
      case Some((node, rest)) =>
        if rest == [] then None else Prepend([node], Items(SkipComma(rest)))
  }

  function Prepend(nodes: seq<Node>, r: Option<(seq<Node>, seq<string>)>): Option<(seq<Node>, seq<string>)> {
    match r
    case None => None
    case Some((items, rest)) => Some((nodes + items, rest))
  }

  lemma PrependNothing(r: Option<(seq<Node>, seq<string>)>)
    ensures Prepend([], r) == r
  {
    if r.Some? {
      assert [] + r.value.0 == r.value.0;
    }
  }

  lemma PrependTwice(a: seq<Node>, b: seq<Node>, r: Option<(seq<Node>, seq<string>)>)
    ensures Prepend(a, Prepend(b, r)) == Prepend(a + b, r)
  {
    if r.Some? {
      assert a + (b + r.value.0) == (a + b) + r.value.0;
    }
  }

  // ---------- The parser as it runs ----------

  class Parser {
    const tokens: seq<string>
    var position: nat

    constructor (tokens: seq<string>)
      ensures this.tokens == tokens && position == 0
    {
      this.tokens := tokens;
      position := 0;
    }

    ghost predicate Valid()
      reads this
    {
      position <= |tokens|
    }

    ghost function Left(): seq<string>
      requires Valid()
      reads this
    {
      tokens[position..]
    }

    /** `predicate`: the node at the position, which moves behind it. */
    method Parse() returns (r: Option<Node>)
      requires Valid()
      modifies `position
      ensures Valid()
      ensures r.Some? <==> Predicate(old(Left())).Some?
      ensures r.Some? ==> Predicate(old(Left())).value == (r.value, Left())
      decreases |tokens| - position, 0
    {
      if position >= |tokens| {
        return None;
      }
      var name := tokens[position];
      position := position + 1;
      if position < |tokens| && tokens[position] == "(" {
        position := position + 1;
        var items := ParseItems();
        return if items.Some? then Some(Group(name, items.value)) else None;
      }
      if position < |tokens| && tokens[position] == "=" {
        if position + 1 >= |tokens| {
          return None;
        }
        var value := tokens[position + 1];
        position := position + 2;
        return Some(Equals(name, StripQuotes(value)));
      }
      return Some(Flag(name));
    }

    /** One item of a group and the comma that may follow it; a token must follow it. */
    method ParseItem() returns (r: Option<Node>)
      requires Valid()
      modifies `position
      ensures Valid()
      ensures r.Some? <==> Predicate(old(Left())).Some? && Predicate(old(Left())).value.1 != []
      ensures r.Some? ==>
                Predicate(old(Left())).value.0 == r.value && Left() == SkipComma(Predicate(old(Left())).value.1)
      decreases |tokens| - position, 1
    {
      r := Parse();
      if r.Some? && position >= |tokens| {
        r := None;
      }
      if r.Some? && tokens[position] == "," {
        assert tokens[position..][1..] == tokens[position + 1..];
        position := position + 1;
      }
    }

    /** The loop of `predicate` over the items of a group, up to and with the closing parenthesis. */
    method ParseItems() returns (r: Option<seq<Node>>)
      requires Valid()
      modifies `position
      ensures Valid()
      ensures r.Some? <==> Items(old(Left())).Some?
      ensures r.Some? ==> Items(old(Left())).value == (r.value, Left())
      decreases |tokens| - position, 2
    {
      var items: seq<Node> := [];
      ghost var all := Items(Left());
      assert all == Prepend(items, all) by { PrependNothing(all); }
      while position < |tokens| && tokens[position] != ")"
        invariant Valid() && position >= old(position)
        invariant all == Prepend(items, Items(Left()))
        decreases |tokens| - position
      {
        ghost var rest := if Predicate(Left()).Some? then Items(SkipComma(Predicate(Left()).value.1)) else None;
        var node := ParseItem();
        if node.None? {
          return None;
        }
        PrependTwice(items, [node.value], rest);
        items := items + [node.value];
      }
      if position >= |tokens| {
        return None;
      }
      assert items + [] == items && tokens[position..][1..] == tokens[position + 1..];
      position := position + 1;
      return Some(items);
    }
  }

  // ---------- What is parsed ----------

  /** `tokens` spell `node`: the grammar, with the commas between items optional and one allowed at the end. */
  ghost predicate Spells(tokens: seq<string>, node: Node)
    decreases node, |tokens|
  {
    match node
    case Flag(name) => tokens == [name]
    case Equals(name, value) => |tokens| == 3 && tokens[0] == name && tokens[1] == "="
                                && StripQuotes(tokens[2]) == value
    case Group(name, items) => |tokens| >= 2 && tokens[0] == name && tokens[1] == "(" && SpellItems(tokens[2..], items)
  }

  ghost predicate SpellItems(tokens: seq<string>, items: seq<Node>)
    decreases items, |tokens|
  {
    if items == [] then tokens == [")"]
    else exists k :: ItemEnds(tokens, items, k)
  }

  ghost predicate ItemEnds(tokens: seq<string>, items: seq<Node>, k: nat)
    requires items != []
    decreases items, |tokens|, 0
  {
    k < |tokens| && Spells(tokens[..k], items[0]) && SpellItems(SkipComma(tokens[k..]), items[1..])
  }

  lemma SpelledItem(first: seq<string>, gap: seq<string>, second: seq<string>, node: Node, items: seq<Node>)
    requires Spells(first, node) && SpellItems(second, items)
    requires gap == [","] || (gap == [] && second != [] && second[0] != ",")
    ensures SpellItems(first + gap + second, [node] + items)
  {
    var used := first + gap + second;
    assert used[..|first|] == first && used[|first|..] == gap + second;
    assert SkipComma(gap + second) == second;
    assert ([node] + items)[1..] == items;
    if gap == [] { assert |used| == |first| + |second|; }
    assert ItemEnds(used, [node] + items, |first|);
  }

  lemma SpelledItemsAreNotEmpty(tokens: seq<string>, items: seq<Node>)
    requires SpellItems(tokens, items)
    ensures tokens != []
  {
    if items != [] {
      var k: nat :| ItemEnds(tokens, items, k);
    }
  }

  lemma Associates(a: seq<string>, b: seq<string>, c: seq<string>)
    ensures a + (b + c) == (a + b) + c
  {
  }

  /** Whatever is parsed was spelled by exactly the tokens consumed: none is skipped and none is invented. */
  lemma {:induction false} ParsedIsSpelled(tokens: seq<string>) returns (used: seq<string>)
    requires Predicate(tokens).Some?
    ensures tokens == used + Predicate(tokens).value.1 && Spells(used, Predicate(tokens).value.0)
    decreases |tokens|, 1
  {
    if Predicate(tokens).value.0.Group? {
      used := ParsedGroupIsSpelled(tokens);
    } else {
      used := tokens[..|tokens| - |Predicate(tokens).value.1|];
    }
  }

  lemma {:induction false} ParsedGroupIsSpelled(tokens: seq<string>) returns (used: seq<string>)
    requires Predicate(tokens).Some? && Predicate(tokens).value.0.Group?
    ensures tokens == used + Predicate(tokens).value.1 && Spells(used, Predicate(tokens).value.0)
    decreases |tokens|, 0
  {
    var inner := ParsedItemsAreSpelled(tokens[2..]);
    used := tokens[..2] + inner;
    assert used[2..] == inner;
    Associates(tokens[..2], inner, Predicate(tokens).value.1);
    assert tokens == tokens[..2] + tokens[2..];
  }

  lemma {:induction false} ParsedItemsAreSpelled(tokens: seq<string>) returns (used: seq<string>)
    requires Items(tokens).Some?
    ensures tokens == used + Items(tokens).value.1 && SpellItems(used, Items(tokens).value.0)
    decreases |tokens|, 2
  {
    if tokens[0] == ")" {
      used := [")"];
    } else {
      var (node, rest) := Predicate(tokens).value;
      var (items, end) := Items(SkipComma(rest)).value;
      var first := ParsedIsSpelled(tokens);
      var second := ParsedItemsAreSpelled(SkipComma(rest));
      used := JoinItem(first, rest, second, end, node, items);
      assert Items(tokens).value == ([node] + items, end);
    }
  }

  lemma JoinItem(first: seq<string>, rest: seq<string>, second: seq<string>, end: seq<string>, node: Node,
                 items: seq<Node>)
    returns (used: seq<string>)
    requires Spells(first, node) && SpellItems(second, items) && rest != [] && SkipComma(rest) == second + end
    ensures first + rest == used + end && SpellItems(used, [node] + items)
  {
    SpelledItemsAreNotEmpty(second, items);
    var gap := if rest[0] == "," then [","] else [];
    assert rest == gap + SkipComma(rest);
    SpelledItem(first, gap, second, node, items);
    used := first + gap + second;
    Associates(gap, second, end);
    Associates(first, gap + second, end);
    Associates(first, gap, second);
  }

  // ---------- What is spelled is parsed ----------

  const PUNCTUATION := {"(", ")", ",", "="}

  /** Every name in the node is a word. The parser takes any token for a name, but an item named `)` is spelled as
      the end of its group. */
  predicate WellNamed(node: Node) {
    node.name !in PUNCTUATION && (node.Group? ==> forall item <- node.items :: WellNamed(item))
  }

  /** What may follow a node without being read as its continuation. */
  predicate Stops(node: Node, rest: seq<string>) {
    node.Flag? && rest != [] ==> rest[0] != "(" && rest[0] != "="
  }

  lemma SpellingStarts(tokens: seq<string>, node: Node)
    requires Spells(tokens, node)
    ensures tokens != [] && tokens[0] == node.name
  {
  }

  lemma ItemsStart(tokens: seq<string>, items: seq<Node>)
    requires SpellItems(tokens, items) && forall item <- items :: WellNamed(item)
    ensures tokens != [] && tokens[0] != "(" && tokens[0] != "=" && tokens[0] != ","
    ensures items != [] ==> tokens[0] != ")"
  {
    if items != [] {
      var k: nat :| ItemEnds(tokens, items, k);
      SpellingStarts(tokens[..k], items[0]);
      assert tokens[0] == items[0].name && items[0] in items;
    }
  }

  /** Every spelling of a predicate parses back to it, whatever follows. */
  lemma {:induction false} SpelledIsParsed(tokens: seq<string>, node: Node, rest: seq<string>)
    requires Spells(tokens, node) && WellNamed(node) && Stops(node, rest)
    ensures Predicate(tokens + rest) == Some((node, rest))
    decreases node, 0
  {
    if node.Group? {
      SpelledItemsAreParsed(tokens[2..], node.items, rest);
      assert (tokens + rest)[2..] == tokens[2..] + rest;
    } else if node.Equals? {
      assert (tokens + rest)[3..] == rest;
    } else {
      assert (tokens + rest)[1..] == rest;
    }
  }

  lemma ItemsStep(tokens: seq<string>, node: Node, after: seq<string>, items: seq<Node>, rest: seq<string>)
    requires tokens != [] && tokens[0] != ")" && Predicate(tokens) == Some((node, after))
    requires after != [] && Items(SkipComma(after)) == Some((items, rest))
    ensures Items(tokens) == Some(([node] + items, rest))
  {
  }

  lemma {:induction false} SpelledItemsAreParsed(tokens: seq<string>, items: seq<Node>, rest: seq<string>)
    requires SpellItems(tokens, items) && forall item <- items :: WellNamed(item)
    ensures Items(tokens + rest) == Some((items, rest))
    decreases items
  {
    ItemsStart(tokens, items);
    if items == [] {
      assert (tokens + rest)[1..] == rest;
    } else {
      var k: nat :| ItemEnds(tokens, items, k);
      SpelledItemIsParsed(tokens, items, k, rest);
      assert forall item <- items[1..] :: item in items;
      SpelledItemsAreParsed(SkipComma(tokens[k..]), items[1..], rest);
      ItemsThen(tokens, items, k, rest);
    }
  }

  lemma ItemsThen(tokens: seq<string>, items: seq<Node>, k: nat, rest: seq<string>)
    requires k < |tokens| && tokens[0] != ")" && items != []
    requires Predicate(tokens + rest) == Some((items[0], tokens[k..] + rest))
    requires Items(SkipComma(tokens[k..]) + rest) == Some((items[1..], rest))
    ensures Items(tokens + rest) == Some((items, rest))
  {
    SkipCommaThen(tokens[k..], rest);
    ItemsStep(tokens + rest, items[0], tokens[k..] + rest, items[1..], rest);
    assert [items[0]] + items[1..] == items;
  }

  lemma {:induction false} SpelledItemIsParsed(tokens: seq<string>, items: seq<Node>, k: nat, rest: seq<string>)
    requires items != [] && ItemEnds(tokens, items, k) && forall item <- items :: WellNamed(item)
    ensures Predicate(tokens + rest) == Some((items[0], tokens[k..] + rest))
    decreases items, 0
  {
    assert items[0] in items;
    ItemIsFollowed(tokens, items, k);
    SpelledIsParsed(tokens[..k], items[0], tokens[k..] + rest);
    Associates(tokens[..k], tokens[k..], rest);
    assert tokens == tokens[..k] + tokens[k..];
  }

  lemma SkipCommaThen(tokens: seq<string>, rest: seq<string>)
    requires tokens != []
    ensures SkipComma(tokens + rest) == SkipComma(tokens) + rest
  {
    if tokens[0] == "," {
      assert (tokens + rest)[1..] == tokens[1..] + rest;
    }
  }

  lemma ItemIsFollowed(tokens: seq<string>, items: seq<Node>, k: nat)
    requires items != [] && ItemEnds(tokens, items, k) && forall item <- items :: WellNamed(item)
    ensures tokens[k] != "(" && tokens[k] != "="
  {
    assert forall item <- items[1..] :: item in items;
    ItemsStart(SkipComma(tokens[k..]), items[1..]);
  }

  // ---------- The printer ----------

  function Quoted(value: string): string {
    "\"" + value + "\""
  }

  function Print(node: Node): seq<string> {
    match node
    case Flag(name) => [name]
    case Equals(name, value) => [name, "=", Quoted(value)]
    case Group(name, items) => [name, "("] + PrintItems(items)
  }

  function PrintItems(items: seq<Node>): (r: seq<string>)
    ensures r != []
  {
    if items == [] then [")"]
    else if |items| == 1 then Print(items[0]) + [")"]
    else Print(items[0]) + [","] + PrintItems(items[1..])
  }

  /** A value as the tokenizer reads it: no quote inside. */
  predicate Printable(node: Node) {
    match node
    case Flag(_) => true
    case Equals(_, value) => '"' !in value
    case Group(_, items) => forall item <- items :: Printable(item)
  }

  lemma {:induction false} StripsQuoted(value: string)
    requires '"' !in value
    ensures StripQuotes(Quoted(value)) == value
  {
    var text := Quoted(value);
    var tail := value + "\"";
    assert text[1..] == tail && StripQuotes(text) == StripQuotes(tail);
    if value == "" {
      assert tail == "\"" && tail[1..] == "";
    } else {
      assert value[0] in value && value[|value| - 1] in value;
      assert tail[..|tail| - 1] == value && StripQuotes(tail) == StripQuotes(value);
    }
  }

  lemma {:induction false} PrintedIsSpelled(node: Node)
    requires Printable(node) && WellNamed(node)
    ensures Spells(Print(node), node)
    decreases node, 0
  {
    match node
    case Flag(_) =>
    case Equals(_, value) =>
      StripsQuoted(value);
      assert Print(node)[2] == Quoted(value);
    case Group(name, items) =>
      PrintedItemsAreSpelled(items);
      assert ([name, "("] + PrintItems(items))[2..] == PrintItems(items);
  }

  lemma {:induction false} PrintedItemsAreSpelled(items: seq<Node>)
    requires forall item <- items :: Printable(item) && WellNamed(item)
    ensures SpellItems(PrintItems(items), items)
    decreases items
  {
    if items != [] {
      PrintedIsSpelled(items[0]);
      assert [items[0]] + items[1..] == items;
      if |items| == 1 {
        SpelledItem(Print(items[0]), [], [")"], items[0], []);
        assert Print(items[0]) + [] + [")"] == Print(items[0]) + [")"];
      } else {
        PrintedItemsAreSpelled(items[1..]);
        SpelledItem(Print(items[0]), [","], PrintItems(items[1..]), items[0], items[1..]);
      }
    }
  }

  /** Parsing the printed tokens of any predicate returns it. */
  lemma PrintedIsParsed(node: Node)
    requires Printable(node) && WellNamed(node)
    ensures Predicate(Print(node)) == Some((node, []))
  {
    PrintedIsSpelled(node);
    SpelledIsParsed(Print(node), node, []);
    assert Print(node) + [] == Print(node);
  }

  // ---------- The test-only analysis ----------

  predicate EndsWith(text: string, suffix: string) {
    |suffix| <= |text| && text[|text| - |suffix|..] == suffix
  }

  predicate TestOnly(node: Node) {
    match node
    case Flag(name) => name == "test"
    case Equals(name, value) => name == "feature" && EndsWith(value, "test-support")
    case Group(name, items) =>
      if name == "all" then exists item <- items :: TestOnly(item)
      else if name == "any" then items != [] && forall item <- items :: TestOnly(item)
      else false
  }

  /** A build configuration; `group` gives groups that the Rust Reference does not define any meaning at all. */
  datatype Env = Env(flag: string -> bool, pair: (string, string) -> bool, group: (string, seq<Node>) -> bool)

  /** The meaning of a predicate in the chapter "Conditional compilation" of the Rust Reference. */
  ghost predicate Holds(env: Env, node: Node) {
    match node
    case Flag(name) => env.flag(name)
    case Equals(name, value) => env.pair(name, value)
    case Group(name, items) =>
      if name == "all" then forall item <- items :: Holds(env, item)
      else if name == "any" then exists item <- items :: Holds(env, item)
      else if name == "not" && |items| == 1 then !Holds(env, items[0])
      else env.group(name, items)
  }

  /** The configuration of a test build. */
  ghost predicate IsTestBuild(env: Env) {
    env.flag("test") || exists value: string {:trigger env.pair("feature", value)} ::
                          EndsWith(value, "test-support") && env.pair("feature", value)
  }

  ghost predicate NeedsTestBuild(node: Node) {
    forall env: Env :: Holds(env, node) ==> IsTestBuild(env)
  }

  lemma {:induction false} TestOnlyIsSound(env: Env, node: Node)
    requires TestOnly(node) && Holds(env, node)
    ensures IsTestBuild(env)
    decreases node
  {
    match node
    case Flag(_) =>
    case Equals(_, value) => assert env.pair("feature", value);
    case Group(name, items) =>
      var item :| item in items && TestOnly(item) && Holds(env, item);
      TestOnlyIsSound(env, item);
  }

  /** Negation of single flags and values only, and neither undefined groups nor an empty `any`. */
  predicate NegatesAtoms(node: Node) {
    node.Group? ==>
      if node.name == "not" then |node.items| == 1 && !node.items[0].Group?
      else
        && (node.name == "all" || (node.name == "any" && node.items != []))
        && forall item <- node.items :: NegatesAtoms(item)
  }

  /** The flag or value occurs in the node, under no negation or under one. */
  predicate Occurs(node: Node, atom: Node, negated: bool) {
    if !node.Group? then node == atom && !negated
    else if node.name == "not" then negated && atom in node.items
    else exists item <- node.items :: Occurs(item, atom, negated)
  }

  predicate IsMarker(atom: Node) {
    !atom.Group? && TestOnly(atom)
  }

  /** Nothing but a test marker occurs both plainly and negated. */
  ghost predicate Unmixed(node: Node) {
    forall atom :: Occurs(node, atom, true) && Occurs(node, atom, false) ==> IsMarker(atom)
  }

  /** The build with everything that the node does not negate, but without the test markers. */
  ghost function Production(node: Node): Env {
    Env(name => !IsMarker(Flag(name)) && !Occurs(node, Flag(name), true),
        (name, value) => !IsMarker(Equals(name, value)) && !Occurs(node, Equals(name, value), true),
        (_, _) => true)
  }

  lemma {:induction false} ProductionHolds(whole: Node, node: Node)
    requires NegatesAtoms(node) && !TestOnly(node) && Unmixed(whole)
    requires forall atom, negated :: Occurs(node, atom, negated) ==> Occurs(whole, atom, negated)
    ensures Holds(Production(whole), node)
    decreases node
  {
    if !node.Group? {
      assert Occurs(node, node, false);
    } else if node.name == "not" {
      assert Occurs(node, node.items[0], true);
    } else {
      forall item | item in node.items && !TestOnly(item) ensures Holds(Production(whole), item) {
        forall atom, negated | Occurs(item, atom, negated) ensures Occurs(whole, atom, negated) {
          assert Occurs(node, atom, negated);
        }
        ProductionHolds(whole, item);
      }
    }
  }

  /** With negated atoms that do not also occur plainly the analysis is exact. */
  lemma TestOnlyIsExact(node: Node)
    requires NegatesAtoms(node) && Unmixed(node)
    ensures TestOnly(node) <==> NeedsTestBuild(node)
  {
    if TestOnly(node) {
      forall env: Env | Holds(env, node) ensures IsTestBuild(env) {
        TestOnlyIsSound(env, node);
      }
    } else {
      ProductionHolds(node, node);
      assert !IsTestBuild(Production(node));
    }
  }

  /** Outside them it can miss a test-only predicate: a double negation, an `any` of nothing, and a contradiction. */
  lemma TestOnlyIsIncomplete()
    ensures var twice := Group("not", [Group("not", [Flag("test")])]);
            NeedsTestBuild(twice) && !TestOnly(twice)
    ensures NeedsTestBuild(Group("any", [])) && !TestOnly(Group("any", []))
    ensures var never := Group("all", [Flag("unix"), Group("not", [Flag("unix")])]);
            NeedsTestBuild(never) && !TestOnly(never)
  {
    var inner := Group("not", [Flag("test")]);
    forall env: Env | Holds(env, Group("not", [inner])) ensures IsTestBuild(env) {
      assert !Holds(env, inner);
      assert Holds(env, Flag("test"));
    }
    var plain, negated := Flag("unix"), Group("not", [Flag("unix")]);
    var never := Group("all", [plain, negated]);
    assert plain in never.items && negated in never.items;
    forall env: Env ensures !Holds(env, never) {
      assert Holds(env, negated) <==> !Holds(env, plain);
    }
  }
}
