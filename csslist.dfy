/**
 * CSSList and CSSDocument (lib/CSSList.php): an ordered sequence of child
 * nodes edited in place, and the collectors that walk the tree, each
 * accumulating into a result passed along by the caller.
 */
module CssLists {
  import opened Wrappers
  import opened Values
  import opened Tree

  /** array_splice's offset: from the front when non-negative, from the end otherwise, clamped to the array. */
  function SpliceOffset(n: nat, offset: int): (k: nat)
    ensures k <= n
    ensures 0 <= offset <= n ==> k == offset
    ensures -(n as int) <= offset < 0 ==> k == n + offset
    ensures offset > n ==> k == n
    ensures offset < -(n as int) ==> k == 0
  {
    if offset >= 0 then (if offset <= n then offset else n)
    else if n + offset >= 0 then n + offset else 0
  }

  /** The contents after `insertItemsAt(items, offset)`. */
  function InsertAt(s: seq<Item>, items: seq<Item>, offset: int): (r: seq<Item>)
    ensures |r| == |s| + |items|
    ensures var k := SpliceOffset(|s|, offset);
      r[k..k + |items|] == items && r[..k] + r[k + |items|..] == s
  {
    var k := SpliceOffset(|s|, offset);
    assert (s[..k] + items + s[k..])[..k] == s[..k];
    assert (s[..k] + items + s[k..])[k + |items|..] == s[k..];
    s[..k] + items + s[k..]
  }

  /** The contents after `removeItemAt(index)`: the item at that position goes, the rest close up; nothing happens out of range. */
  function RemoveAt(s: seq<Item>, index: int): (r: seq<Item>)
    ensures 0 <= index < |s| ==> |r| == |s| - 1 && r[..index] == s[..index] && r[index..] == s[index + 1..]
    ensures !(0 <= index < |s|) ==> r == s
  {
    if 0 <= index < |s| then s[..index] + s[index + 1..] else s
  }

  /** Removing an item just inserted at a valid position gives back the original contents. */
  lemma RemoveInserted(s: seq<Item>, x: Item, index: int)
    requires 0 <= index <= |s|
    ensures RemoveAt(InsertAt(s, [x], index), index) == s
  {
  }

  /**
   * Inserting at a negative offset -back places the items `back` positions
   * before the end (an offset of 0 is the front, not the end).
   */
  lemma InsertFromEnd(s: seq<Item>, items: seq<Item>, back: int)
    requires 1 <= back <= |s|
    ensures var r := InsertAt(s, items, -back);
      r[|s| - back..|s| - back + |items|] == items && r[|s| - back + |items|..] == s[|s| - back..]
  {
  }

  /** allDeclarationBlocks: appends the blocks found in `items` to `acc`. */
  method CollectDeclarationBlocks(items: seq<Item>, acc: seq<DeclarationBlock>) returns (res: seq<DeclarationBlock>)
    ensures res == acc + DeclarationBlocks(items)
    decreases items
  {
    res := acc;
    var i := 0;
    while i < |items|
      invariant 0 <= i <= |items|
      invariant res == acc + DeclarationBlocks(items[..i])
    {
      var item := items[i];
      assert items[..i + 1][..i] == items[..i];
      if item.RuleSetItem? && item.ruleSet.Declarations? {
        res := res + [item.ruleSet.block];
      } else if item.Nested? {
        res := CollectDeclarationBlocks(item.contents, res);
      }
      i := i + 1;
    }
    assert items[..|items|] == items;
  }

  /** allRuleSets: appends the rule sets found in `items` to `acc`. */
  method CollectRuleSets(items: seq<Item>, acc: seq<RuleSet>) returns (res: seq<RuleSet>)
    ensures res == acc + RuleSets(items)
    decreases items
  {
    res := acc;
    var i := 0;
    while i < |items|
      invariant 0 <= i <= |items|
      invariant res == acc + RuleSets(items[..i])
    {
      var item := items[i];
      assert items[..i + 1][..i] == items[..i];
      if item.RuleSetItem? {
        res := res + [item.ruleSet];
      } else if item.Nested? {
        res := CollectRuleSets(item.contents, res);
      }
      i := i + 1;
    }
    assert items[..|items|] == items;
  }

  /** allValues on the contents of a list. */
  method CollectItemsValues(items: seq<Item>, search: Option<string>, matches: (string, string) -> bool, inFunctions: bool, acc: seq<Found>)
    returns (res: seq<Found>)
    ensures res == acc + ItemsValues(items, search, matches, inFunctions)
    decreases items
  {
    ghost var parts := seq(|items|, j requires 0 <= j < |items| => ItemValues(items[j], search, matches, inFunctions));
    res := acc;
    var i := 0;
    while i < |items|
      invariant 0 <= i <= |items|
      invariant res == acc + Flatten(parts[..i])
    {
      FlattenStep(parts, i);
      res := CollectItemValues(items[i], search, matches, inFunctions, res);
      i := i + 1;
    }
    assert parts[..|items|] == parts;
  }

  /** allValues on one node: a nested list, a rule set's selected rules, or other content appended as is. */
  method CollectItemValues(item: Item, search: Option<string>, matches: (string, string) -> bool, inFunctions: bool, acc: seq<Found>)
    returns (res: seq<Found>)
    ensures res == acc + ItemValues(item, search, matches, inFunctions)
    decreases item
  {
    match item
    case Nested(_, contents) =>
      res := CollectItemsValues(contents, search, matches, inFunctions, acc);
    case RuleSetItem(rs) =>
      var rules := SelectRules(rs.Rules(), search, matches);
      ghost var parts := seq(|rules|, j requires 0 <= j < |rules| => ValueValues(rules[j].value, inFunctions));
      res := acc;
      var i := 0;
      while i < |rules|
        invariant 0 <= i <= |rules|
        invariant res == acc + Flatten(parts[..i])
      {
        FlattenStep(parts, i);
        assert rules[i] in rs.Rules();
        res := CollectValueValues(rules[i].value, inFunctions, res);
        i := i + 1;
      }
      assert parts[..|rules|] == parts;
    case Other(_) =>
      res := acc + [FoundItem(item)];
  }

  /** allValues on a value: components of a list (of a function only when asked), else the value itself. */
  method CollectValueValues(v: Value, inFunctions: bool, acc: seq<Found>) returns (res: seq<Found>)
    ensures res == acc + ValueValues(v, inFunctions)
    decreases v
  {
    if v.IsValueList() && (inFunctions || !v.Func?) {
      var components := v.ListComponents();
      ghost var parts := seq(|components|, j requires 0 <= j < |components| => ValueValues(components[j], inFunctions));
      res := acc;
      var i := 0;
      while i < |components|
        invariant 0 <= i <= |components|
        invariant res == acc + Flatten(parts[..i])
      {
        FlattenStep(parts, i);
        res := CollectValueValues(components[i], inFunctions, res);
        i := i + 1;
      }
      assert parts[..|components|] == parts;
    } else if v.Func? {
      res := acc;
    } else {
      res := acc + [FoundValue(v)];
    }
  }

  /** A CSSList, as edited in place; as the root, it is the CSSDocument. */
  class CssList {
    var contents: seq<Item>

    constructor()
      ensures contents == []
    {
      contents := [];
    }

    method Prepend(item: Item)
      modifies this
      ensures contents == [item] + old(contents)
    {
      contents := [item] + contents;
    }

    method Append(item: Item)
      modifies this
      ensures contents == old(contents) + [item]
    {
      contents := contents + [item];
    }

    method Extend(items: seq<Item>)
      modifies this
      ensures contents == old(contents) + items
    {
      var i := 0;
      while i < |items|
        invariant 0 <= i <= |items|
        invariant contents == old(contents) + items[..i]
      {
        assert items[..i + 1] == items[..i] + [items[i]];
        contents := contents + [items[i]];
        i := i + 1;
      }
      assert items[..|items|] == items;
    }

    method RemoveItemAt(index: int)
      modifies this
      ensures contents == RemoveAt(old(contents), index)
    {
      if 0 <= index < |contents| {
        contents := contents[..index] + contents[index + 1..];
      }
    }

    method InsertItemsAt(items: seq<Item>, index: int)
      modifies this
      ensures contents == InsertAt(old(contents), items, index)
    {
      var k := SpliceOffset(|contents|, index);
      contents := contents[..k] + items + contents[k..];
    }

    function GetContents(): (items: seq<Item>)
      reads this
      ensures items == contents
    {
      contents
    }

    method SetContents(items: seq<Item>)
      modifies this
      ensures contents == items
    {
      contents := items;
    }

    method GetAllDeclarationBlocks() returns (blocks: seq<DeclarationBlock>)
      ensures blocks == DeclarationBlocks(contents)
    {
      blocks := CollectDeclarationBlocks(contents, []);
    }

    method GetAllRuleSets() returns (ruleSets: seq<RuleSet>)
      ensures ruleSets == RuleSets(contents)
    {
      ruleSets := CollectRuleSets(contents, []);
    }

    /** getAllValues: from the whole document, the whole document filtered by property name, or a given node. */
    method GetAllValues(start: Start, matches: (string, string) -> bool, inFunctions: bool) returns (values: seq<Found>)
      ensures values == AllValues(contents, start, matches, inFunctions)
    {
      match start
      case WholeDocument =>
        values := CollectItemsValues(contents, None, matches, inFunctions, []);
      case PropertySearch(pattern) =>
        values := CollectItemsValues(contents, Some(pattern), matches, inFunctions, []);
      case StartAt(node) =>
        values := CollectItemValues(node, None, matches, inFunctions, []);
    }

    /** allSelectors: the selectors of every declaration block, block by block, kept when the filter holds. */
    method AllSelectors(filter: Option<Filter>) returns (selectors: seq<Selector>)
      ensures selectors == SelectorsOf(DeclarationBlocks(contents), filter)
    {
      var blocks := GetAllDeclarationBlocks();
      selectors := [];
      var b := 0;
      while b < |blocks|
        invariant 0 <= b <= |blocks|
        invariant selectors == SelectorsOf(blocks[..b], filter)
      {
        var sels := blocks[b].selectors;
        assert blocks[..b + 1][..b] == blocks[..b];
        var k := 0;
        while k < |sels|
          invariant 0 <= k <= |sels|
          invariant selectors == SelectorsOf(blocks[..b], filter) + Keep(sels[..k], filter)
        {
          assert sels[..k + 1][..k] == sels[..k];
          if filter.None? || Holds(filter.value, sels[k].specificity) {
            selectors := selectors + [sels[k]];
          }
          k := k + 1;
        }
        assert sels[..|sels|] == sels;
        b := b + 1;
      }
      assert blocks[..|blocks|] == blocks;
    }

    /** getSelectorsBySpecificity: a bare number means `==`. */
    method GetSelectorsBySpecificity(search: Search) returns (selectors: seq<Selector>)
      ensures selectors == SelectorsOf(DeclarationBlocks(contents), Normalize(search))
    {
      selectors := AllSelectors(Normalize(search));
    }
  }
}
