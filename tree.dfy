/**
 * The node tree of a parsed style sheet (lib/CSSList.php) and the
 * specifications of its recursive, order-preserving collectors.
 */
module Tree {
  import opened Wrappers
  import opened Values

  /** A selector with its precomputed specificity. */
  datatype Selector = Selector(text: string, specificity: int)

  /** A rule: property name, value and the `!important` flag. */
  datatype Rule = Rule(property: string, value: Value, important: bool)

  /** CSSDeclarationBlock: selectors and rules, both in source order. */
  datatype DeclarationBlock = DeclarationBlock(selectors: seq<Selector>, rules: seq<Rule>)

  /** CSSRuleSet: a declaration block, or another rule-bearing node such as an at-rule. */
  datatype RuleSet = Declarations(block: DeclarationBlock) | AtRuleSet(keyword: string, atRules: seq<Rule>)
  {
    function Rules(): seq<Rule> {
      if Declarations? then block.rules else atRules
    }
  }

  /** One entry of a CSSList: a rule set, a nested CSSList (a media query) or other content (import, charset). */
  datatype Item = RuleSetItem(ruleSet: RuleSet) | Nested(query: string, contents: seq<Item>) | Other(text: string)

  /** Concatenation of a sequence of sequences. */
  function Flatten<T>(xss: seq<seq<T>>): seq<T>
  {
    if xss == [] then [] else Flatten(xss[..|xss| - 1]) + xss[|xss| - 1]
  }

  /** Flattening one more element of a prefix appends that element. */
  lemma FlattenStep<T>(xss: seq<seq<T>>, i: nat)
    requires i < |xss|
    ensures Flatten(xss[..i + 1]) == Flatten(xss[..i]) + xss[i]
  {
    assert xss[..i + 1][..i] == xss[..i];
  }

  // ------------------------------------------------ declaration blocks, rule sets

  /** allDeclarationBlocks: blocks found in `items`, descending into nested lists. */
  function DeclarationBlocks(items: seq<Item>): seq<DeclarationBlock>
    decreases items
  {
    if items == [] then []
    else DeclarationBlocks(items[..|items| - 1]) + BlocksIn(items[|items| - 1])
  }

  function BlocksIn(item: Item): seq<DeclarationBlock>
    decreases item
  {
    match item
    case RuleSetItem(rs) => if rs.Declarations? then [rs.block] else []
    case Nested(_, contents) => DeclarationBlocks(contents)
    case Other(_) => []
  }

  /** allRuleSets: rule sets found in `items`, descending into nested lists. */
  function RuleSets(items: seq<Item>): seq<RuleSet>
    decreases items
  {
    if items == [] then []
    else RuleSets(items[..|items| - 1]) + RuleSetsIn(items[|items| - 1])
  }

  function RuleSetsIn(item: Item): seq<RuleSet>
    decreases item
  {
    match item
    case RuleSetItem(rs) => [rs]
    case Nested(_, contents) => RuleSets(contents)
    case Other(_) => []
  }

  /** Every node of the tree, depth first, a nested list before its contents. */
  function Preorder(items: seq<Item>): seq<Item>
  {
    if items == [] then []
    else
      var last := items[|items| - 1];
      Preorder(items[..|items| - 1]) + [last] + (if last.Nested? then Preorder(last.contents) else [])
  }

  /** The declaration blocks among some nodes, in their order; nested contents not visited. */
  function BlocksAmong(xs: seq<Item>): seq<DeclarationBlock>
  {
    if xs == [] then []
    else
      var x := xs[|xs| - 1];
      BlocksAmong(xs[..|xs| - 1]) + (if x.RuleSetItem? && x.ruleSet.Declarations? then [x.ruleSet.block] else [])
  }

  /** The rule sets among some nodes, in their order. */
  function RuleSetsAmong(xs: seq<Item>): seq<RuleSet>
  {
    if xs == [] then []
    else
      var x := xs[|xs| - 1];
      RuleSetsAmong(xs[..|xs| - 1]) + (if x.RuleSetItem? then [x.ruleSet] else [])
  }

  /** The declaration blocks among some rule sets. */
  function DeclarationsAmong(rss: seq<RuleSet>): seq<DeclarationBlock>
  {
    if rss == [] then []
    else
      var r := rss[|rss| - 1];
      DeclarationsAmong(rss[..|rss| - 1]) + (if r.Declarations? then [r.block] else [])
  }

  lemma {:induction false} BlocksAmongAppend(xs: seq<Item>, ys: seq<Item>)
    ensures BlocksAmong(xs + ys) == BlocksAmong(xs) + BlocksAmong(ys)
  {
    if ys != [] {
      assert (xs + ys)[..|xs + ys| - 1] == xs + ys[..|ys| - 1];
      BlocksAmongAppend(xs, ys[..|ys| - 1]);
    } else {
      assert xs + ys == xs;
    }
  }

  lemma {:induction false} RuleSetsAmongAppend(xs: seq<Item>, ys: seq<Item>)
    ensures RuleSetsAmong(xs + ys) == RuleSetsAmong(xs) + RuleSetsAmong(ys)
  {
    if ys != [] {
      assert (xs + ys)[..|xs + ys| - 1] == xs + ys[..|ys| - 1];
      RuleSetsAmongAppend(xs, ys[..|ys| - 1]);
    } else {
      assert xs + ys == xs;
    }
  }

  lemma {:induction false} DeclarationsAmongAppend(xs: seq<RuleSet>, ys: seq<RuleSet>)
    ensures DeclarationsAmong(xs + ys) == DeclarationsAmong(xs) + DeclarationsAmong(ys)
  {
    if ys != [] {
      assert (xs + ys)[..|xs + ys| - 1] == xs + ys[..|ys| - 1];
      DeclarationsAmongAppend(xs, ys[..|ys| - 1]);
    } else {
      assert xs + ys == xs;
    }
  }

  /**
   * allDeclarationBlocks returns exactly the declaration blocks of the tree
   * in depth-first document order: the blocks among all nodes listed in
   * pre-order, everything else skipped.
   */
  lemma {:induction false} DeclarationBlocksInDocumentOrder(items: seq<Item>)
    ensures DeclarationBlocks(items) == BlocksAmong(Preorder(items))
    decreases items
  {
    if items != [] {
      var init, last := items[..|items| - 1], items[|items| - 1];
      var tail := if last.Nested? then Preorder(last.contents) else [];
      DeclarationBlocksInDocumentOrder(init);
      BlocksAmongAppend(Preorder(init) + [last], tail);
      BlocksAmongAppend(Preorder(init), [last]);
      assert BlocksAmong([last]) == BlocksAmong([]) + BlocksAmong([last]);
      if last.Nested? {
        DeclarationBlocksInDocumentOrder(last.contents);
      }
    }
  }

  /** allRuleSets returns exactly the rule sets of the tree in depth-first document order. */
  lemma {:induction false} RuleSetsInDocumentOrder(items: seq<Item>)
    ensures RuleSets(items) == RuleSetsAmong(Preorder(items))
    decreases items
  {
    if items != [] {
      var init, last := items[..|items| - 1], items[|items| - 1];
      var tail := if last.Nested? then Preorder(last.contents) else [];
      RuleSetsInDocumentOrder(init);
      RuleSetsAmongAppend(Preorder(init) + [last], tail);
      RuleSetsAmongAppend(Preorder(init), [last]);
      if last.Nested? {
        RuleSetsInDocumentOrder(last.contents);
      }
    }
  }

  /** The declaration blocks are exactly the rule sets that are declaration blocks, in the same order. */
  lemma {:induction false} DeclarationBlocksAmongRuleSets(items: seq<Item>)
    ensures DeclarationBlocks(items) == DeclarationsAmong(RuleSets(items))
    decreases items
  {
    if items != [] {
      var init, last := items[..|items| - 1], items[|items| - 1];
      DeclarationBlocksAmongRuleSets(init);
      DeclarationsAmongAppend(RuleSets(init), RuleSetsIn(last));
      if last.Nested? {
        DeclarationBlocksAmongRuleSets(last.contents);
      } else if last.RuleSetItem? {
        assert DeclarationsAmong([last.ruleSet]) == DeclarationsAmong([]) + DeclarationsAmong([last.ruleSet]);
      }
    }
  }

  lemma {:induction false} DeclarationBlocksAppend(xs: seq<Item>, ys: seq<Item>)
    ensures DeclarationBlocks(xs + ys) == DeclarationBlocks(xs) + DeclarationBlocks(ys)
  {
    if ys != [] {
      assert (xs + ys)[..|xs + ys| - 1] == xs + ys[..|ys| - 1];
      DeclarationBlocksAppend(xs, ys[..|ys| - 1]);
    } else {
      assert xs + ys == xs;
    }
  }

  // ------------------------------------------------------------------ values

  /** What allValues appends: a value, or a node that is neither list, rule set nor value (an import). */
  datatype Found = FoundValue(value: Value) | FoundItem(item: Item)

  /**
   * getRules($sSearchString): all rules for no search string; otherwise the
   * rules whose property `matches` the search string, in order.
   */
  function SelectRules(rules: seq<Rule>, search: Option<string>, matches: (string, string) -> bool): (r: seq<Rule>)
    ensures forall x | x in r :: x in rules
  {
    match search
    case None => rules
    case Some(pattern) =>
      if rules == [] then []
      else
        var last := rules[|rules| - 1];
        SelectRules(rules[..|rules| - 1], search, matches) + (if matches(pattern, last.property) then [last] else [])
  }

  /** allValues on a node: what it appends, in visitation order. */
  function ItemValues(item: Item, search: Option<string>, matches: (string, string) -> bool, inFunctions: bool): seq<Found>
    decreases item
  {
    match item
    case Nested(_, contents) => ItemsValues(contents, search, matches, inFunctions)
    case RuleSetItem(rs) =>
      var rules := SelectRules(rs.Rules(), search, matches);
      Flatten(seq(|rules|, i requires 0 <= i < |rules| => ValueValues(rules[i].value, inFunctions)))
    case Other(_) => [FoundItem(item)]
  }

  function ItemsValues(items: seq<Item>, search: Option<string>, matches: (string, string) -> bool, inFunctions: bool): seq<Found>
    decreases items
  {
    Flatten(seq(|items|, i requires 0 <= i < |items| => ItemValues(items[i], search, matches, inFunctions)))
  }

  /**
   * allValues on a value: a list is searched component by component, a
   * function's arguments only when `inFunctions`; anything else is appended.
   */
  function ValueValues(v: Value, inFunctions: bool): seq<Found>
    decreases v
  {
    match v
    case List(_, items) => ValuesValues(items, inFunctions)
    case Func(_, _, args) => if inFunctions then ValuesValues(args, inFunctions) else []
    case _ => [FoundValue(v)]
  }

  function ValuesValues(vs: seq<Value>, inFunctions: bool): seq<Found>
    decreases vs
  {
    Flatten(seq(|vs|, i requires 0 <= i < |vs| => ValueValues(vs[i], inFunctions)))
  }

  /** Where getAllValues starts: the whole document, the whole document filtered by property, or a given node. */
  datatype Start = WholeDocument | PropertySearch(pattern: string) | StartAt(node: Item)

  function AllValues(document: seq<Item>, start: Start, matches: (string, string) -> bool, inFunctions: bool): seq<Found>
  {
    match start
    case WholeDocument => ItemsValues(document, None, matches, inFunctions)
    case PropertySearch(pattern) => ItemsValues(document, Some(pattern), matches, inFunctions)
    case StartAt(node) => ItemValues(node, None, matches, inFunctions)
  }

  /** A found entry that is a leaf: never a value list, function or colour. */
  predicate Terminal(f: Found) {
    match f
    case FoundValue(v) => !v.IsValueList()
    case FoundItem(item) => item.Other?
  }

  lemma FlattenAllTerminal(xss: seq<seq<Found>>)
    requires forall i | 0 <= i < |xss| :: forall f | f in xss[i] :: Terminal(f)
    ensures forall f | f in Flatten(xss) :: Terminal(f)
  {
  }

  /** Every value allValues reaches is a leaf: lists and functions are searched, never appended. */
  lemma {:induction false} ValueValuesTerminal(v: Value, inFunctions: bool)
    ensures forall f | f in ValueValues(v, inFunctions) :: Terminal(f)
    decreases v
  {
    match v
    case List(_, items) =>
      forall i | 0 <= i < |items| { ValueValuesTerminal(items[i], inFunctions); }
      FlattenAllTerminal(seq(|items|, i requires 0 <= i < |items| => ValueValues(items[i], inFunctions)));
    case Func(_, _, args) =>
      forall i | 0 <= i < |args| { ValueValuesTerminal(args[i], inFunctions); }
      FlattenAllTerminal(seq(|args|, i requires 0 <= i < |args| => ValueValues(args[i], inFunctions)));
    case _ =>
  }

  lemma {:induction false} ItemValuesTerminal(item: Item, search: Option<string>, matches: (string, string) -> bool, inFunctions: bool)
    ensures forall f | f in ItemValues(item, search, matches, inFunctions) :: Terminal(f)
    decreases item
  {
    match item
    case Nested(_, contents) =>
      forall i | 0 <= i < |contents| { ItemValuesTerminal(contents[i], search, matches, inFunctions); }
      FlattenAllTerminal(seq(|contents|, i requires 0 <= i < |contents| => ItemValues(contents[i], search, matches, inFunctions)));
    case RuleSetItem(rs) =>
      var rules := SelectRules(rs.Rules(), search, matches);
      forall i | 0 <= i < |rules| { ValueValuesTerminal(rules[i].value, inFunctions); }
      FlattenAllTerminal(seq(|rules|, i requires 0 <= i < |rules| => ValueValues(rules[i].value, inFunctions)));
    case Other(_) =>
  }

  /** A value with every function call's arguments removed. */
  function Pruned(v: Value): Value
    decreases v
  {
    match v
    case List(sep, items) => List(sep, seq(|items|, i requires 0 <= i < |items| => Pruned(items[i])))
    case Func(name, sep, _) => Func(name, sep, [])
    case _ => v
  }

  /**
   * Not searching function arguments is the same as searching the value
   * with every function's arguments removed: nothing under a function is
   * reached, and everything else is reached as before.
   */
  lemma {:induction false} SkippingFunctionArguments(v: Value)
    ensures ValueValues(v, false) == ValueValues(Pruned(v), true)
    decreases v
  {
    match v
    case List(sep, items) =>
      var pruned := seq(|items|, i requires 0 <= i < |items| => Pruned(items[i]));
      forall i | 0 <= i < |items| { SkippingFunctionArguments(items[i]); }
      assert seq(|items|, i requires 0 <= i < |items| => ValueValues(items[i], false))
          == seq(|pruned|, i requires 0 <= i < |pruned| => ValueValues(pruned[i], true));
    case Func(_, _, _) =>
      assert ValuesValues([], true) == [];
    case _ =>
  }

  // --------------------------------------------------------------- selectors

  /** The comparison operators a specificity search may use. */
  datatype Op = Eq | Ne | Gt | Ge | Lt | Le

  /** A specificity filter: `<op> <threshold>`. */
  datatype Filter = Filter(op: Op, threshold: int)

  /** What getSelectorsBySpecificity receives: nothing, a bare number, or an operator and a number. */
  datatype Search = AnySpecificity | Bare(n: int) | Comparison(op: Op, n: int)

  /** A bare number is a `==` comparison. */
  function Normalize(search: Search): (f: Option<Filter>)
    ensures search.AnySpecificity? <==> f.None?
  {
    match search
    case AnySpecificity => None
    case Bare(n) => Some(Filter(Eq, n))
    case Comparison(op, n) => Some(Filter(op, n))
  }

  /** `<specificity> <op> <threshold>`. */
  predicate Holds(f: Filter, specificity: int) {
    match f.op
    case Eq => specificity == f.threshold
    case Ne => specificity != f.threshold
    case Gt => specificity > f.threshold
    case Ge => specificity >= f.threshold
    case Lt => specificity < f.threshold
    case Le => specificity <= f.threshold
  }

  /** The selectors a filter keeps, in order; all of them for no filter. */
  function Keep(sels: seq<Selector>, filter: Option<Filter>): seq<Selector>
  {
    if sels == [] then []
    else
      var s := sels[|sels| - 1];
      Keep(sels[..|sels| - 1], filter) + (if filter.None? || Holds(filter.value, s.specificity) then [s] else [])
  }

  /** allSelectors over given blocks: block by block, selector by selector, filtered. */
  function SelectorsOf(blocks: seq<DeclarationBlock>, filter: Option<Filter>): seq<Selector>
  {
    if blocks == [] then []
    else SelectorsOf(blocks[..|blocks| - 1], filter) + Keep(blocks[|blocks| - 1].selectors, filter)
  }

  lemma {:induction false} KeepAppend(xs: seq<Selector>, ys: seq<Selector>, filter: Option<Filter>)
    ensures Keep(xs + ys, filter) == Keep(xs, filter) + Keep(ys, filter)
  {
    if ys != [] {
      assert (xs + ys)[..|xs + ys| - 1] == xs + ys[..|ys| - 1];
      KeepAppend(xs, ys[..|ys| - 1], filter);
    } else {
      assert xs + ys == xs;
    }
  }

  lemma {:induction false} KeepNothing(sels: seq<Selector>)
    ensures Keep(sels, None) == sels
  {
    if sels != [] {
      KeepNothing(sels[..|sels| - 1]);
    }
  }

  /** A filter keeps exactly the selectors whose specificity satisfies it. */
  lemma {:induction false} KeepMembers(sels: seq<Selector>, f: Filter)
    ensures forall s :: s in Keep(sels, Some(f)) <==> s in sels && Holds(f, s.specificity)
  {
    if sels != [] {
      KeepMembers(sels[..|sels| - 1], f);
      assert sels == sels[..|sels| - 1] + [sels[|sels| - 1]];
    }
  }

  /**
   * Without a filter, allSelectors yields every selector of every block in
   * document order; with one it yields that same sequence with exactly the
   * selectors that fail the comparison removed.
   */
  lemma {:induction false} SelectorsFiltered(blocks: seq<DeclarationBlock>, f: Filter)
    ensures SelectorsOf(blocks, None) == Flatten(seq(|blocks|, i requires 0 <= i < |blocks| => blocks[i].selectors))
    ensures SelectorsOf(blocks, Some(f)) == Keep(SelectorsOf(blocks, None), Some(f))
    ensures forall s :: s in SelectorsOf(blocks, Some(f)) <==> s in SelectorsOf(blocks, None) && Holds(f, s.specificity)
  {
    if blocks != [] {
      var init := blocks[..|blocks| - 1];
      var last := blocks[|blocks| - 1];
      SelectorsFiltered(init, f);
      KeepNothing(last.selectors);
      KeepAppend(SelectorsOf(init, None), last.selectors, Some(f));
      assert seq(|blocks|, i requires 0 <= i < |blocks| => blocks[i].selectors)
          == seq(|init|, i requires 0 <= i < |init| => init[i].selectors) + [last.selectors];
    }
    KeepMembers(SelectorsOf(blocks, None), f);
  }
}
