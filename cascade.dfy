/**
 * CSSDocument::mergeDeclarations (lib/CSSList.php): folding declaration
 * blocks into one by a simplified cascade, keeping one record per property
 * in a dictionary that remembers first-insertion order.
 */
module Cascade {
  import opened Values
  import opened Tree

  /** What the dictionary keeps per property: the values, the block's specificity and the important flag. */
  datatype Record = Record(value: Value, specificity: int, important: bool)

  /** One rule as the fold sees it: its property and the record it would store. */
  datatype Entry = Entry(property: string, record: Record)

  /** A PHP array keyed by property name: keys in insertion order, and their records. */
  datatype PropertyTable = PropertyTable(order: seq<string>, records: map<string, Record>)
  {
    /** Each key is listed once, and the listed keys are exactly the stored ones. */
    ghost predicate Valid() {
      (forall i, j | 0 <= i < j < |order| :: order[i] != order[j]) &&
      (forall p :: p in records <==> p in order)
    }
  }

  const Empty := PropertyTable([], map[])

  /** A block's specificity in the cascade: its selector's when it has exactly one, else 0. */
  function BlockSpecificity(b: DeclarationBlock): (s: int)
    ensures |b.selectors| == 1 ==> s == b.selectors[0].specificity
    ensures |b.selectors| != 1 ==> s == 0
  {
    if |b.selectors| == 1 then b.selectors[0].specificity else 0
  }

  /** The replacement predicate for a property seen before. */
  predicate Replaces(stored: Record, incoming: Record) {
    (stored.specificity <= incoming.specificity && !stored.important) || incoming.important
  }

  /** `$aProperties[$sProperty] = …`: a new key goes last, an existing key keeps its place. */
  function Store(t: PropertyTable, p: string, r: Record): PropertyTable
  {
    PropertyTable(if p in t.records then t.order else t.order + [p], t.records[p := r])
  }

  /**
   * One step of the fold: store when the property is new, when the stored
   * record is not important and not more specific, and whenever the new
   * rule is important.
   */
  function FoldEntry(t: PropertyTable, e: Entry): (r: PropertyTable)
    ensures r.records == t.records[e.property :=
      if e.property !in t.records || Replaces(t.records[e.property], e.record) then e.record else t.records[e.property]]
    ensures r.order == if e.property in t.records then t.order else t.order + [e.property]
    ensures t.Valid() ==> r.Valid()
  {
    var p := e.property;
    var t1 :=
      if p !in t.records then Store(t, p, e.record)
      else if t.records[p].specificity <= e.record.specificity && !t.records[p].important then Store(t, p, e.record)
      else t;
    if e.record.important then Store(t1, p, e.record) else t1
  }

  /** A stored important record is never displaced by a rule that is not important. */
  lemma ImportantNeverDisplaced(t: PropertyTable, e: Entry)
    requires e.property in t.records && t.records[e.property].important && !e.record.important
    ensures FoldEntry(t, e) == t
  {
  }

  /** The rules of one block, each with that block's specificity, in the block's order. */
  function RuleEntries(b: DeclarationBlock): (es: seq<Entry>)
    ensures |es| == |b.rules|
    ensures forall i | 0 <= i < |es| ::
      es[i] == Entry(b.rules[i].property, Record(b.rules[i].value, BlockSpecificity(b), b.rules[i].important))
  {
    seq(|b.rules|, i requires 0 <= i < |b.rules| =>
      Entry(b.rules[i].property, Record(b.rules[i].value, BlockSpecificity(b), b.rules[i].important)))
  }

  /** Every rule of every block, blocks in order. */
  function Entries(blocks: seq<DeclarationBlock>): seq<Entry>
  {
    if blocks == [] then [] else Entries(blocks[..|blocks| - 1]) + RuleEntries(blocks[|blocks| - 1])
  }

  function Fold(t: PropertyTable, es: seq<Entry>): PropertyTable
  {
    if es == [] then t else FoldEntry(Fold(t, es[..|es| - 1]), es[|es| - 1])
  }

  /** The output rules: one per stored property, in key order, with the stored values and flag. */
  function Emit(t: PropertyTable): (rules: seq<Rule>)
    requires forall p | p in t.order :: p in t.records
    ensures |rules| == |t.order|
  {
    seq(|t.order|, i requires 0 <= i < |t.order| =>
      Rule(t.order[i], t.records[t.order[i]].value, t.records[t.order[i]].important))
  }

  /** The rules of the merged block, before shorthands are recreated. */
  function MergedRules(blocks: seq<DeclarationBlock>): seq<Rule>
  {
    FoldRecords(Entries(blocks));
    Emit(Fold(Empty, Entries(blocks)))
  }

  // ----------------------------------------------- independent characterisation

  /** The records given for property `p`, in input order. */
  function Occurrences(p: string, es: seq<Entry>): seq<Record>
  {
    if es == [] then []
    else Occurrences(p, es[..|es| - 1]) + (if es[|es| - 1].property == p then [es[|es| - 1].record] else [])
  }

  /** Which of the records for one property the fold keeps. */
  function WinnerIndex(rs: seq<Record>): (k: nat)
    requires |rs| > 0
    ensures k < |rs|
  {
    if |rs| == 1 then 0
    else
      var k := WinnerIndex(rs[..|rs| - 1]);
      if Replaces(rs[k], rs[|rs| - 1]) then |rs| - 1 else k
  }

  /**
   * The cascade the fold implements: if any declaration is important the
   * last important one wins, whatever its specificity; otherwise the last
   * one of the highest specificity wins.
   */
  lemma {:induction false} CascadeOrder(rs: seq<Record>)
    requires |rs| > 0
    ensures var k := WinnerIndex(rs);
      (exists j | 0 <= j < |rs| :: rs[j].important) ==>
        rs[k].important && forall j | k < j < |rs| :: !rs[j].important
    ensures var k := WinnerIndex(rs);
      (forall j | 0 <= j < |rs| :: !rs[j].important) ==>
        (forall j | 0 <= j < |rs| :: rs[j].specificity <= rs[k].specificity) &&
        (forall j | k < j < |rs| :: rs[j].specificity < rs[k].specificity)
  {
    if |rs| > 1 {
      var init := rs[..|rs| - 1];
      CascadeOrder(init);
      var k0 := WinnerIndex(init);
      assert forall j | 0 <= j < |init| :: init[j] == rs[j];
      if rs[|rs| - 1].important {
      } else if exists j | 0 <= j < |rs| :: rs[j].important {
        var j :| 0 <= j < |rs| && rs[j].important;
        assert init[j].important;
      }
    }
  }

  /**
   * Two declarations of one property: without `!important` the more
   * specific one wins in either order; an important one beats a more
   * specific one that is not, in either order.
   */
  lemma TwoDeclarations(x: Record, y: Record)
    ensures !x.important && !y.important && x.specificity < y.specificity ==>
      WinnerIndex([x, y]) == 1 && WinnerIndex([y, x]) == 0
    ensures x.important && !y.important ==>
      WinnerIndex([x, y]) == 0 && WinnerIndex([y, x]) == 1
  {
  }

  /** The position in `es` where property `p` first appears, or |es| when it does not. */
  function FirstIndex(p: string, es: seq<Entry>): (k: nat)
    ensures k <= |es|
    ensures k < |es| ==> es[k].property == p
    ensures forall j | 0 <= j < k :: es[j].property != p
  {
    if es == [] then 0 else if es[0].property == p then 0 else 1 + FirstIndex(p, es[1..])
  }

  lemma FirstIndexSnoc(p: string, es: seq<Entry>, e: Entry)
    ensures FirstIndex(p, es + [e]) ==
      if FirstIndex(p, es) < |es| then FirstIndex(p, es)
      else if e.property == p then |es| else |es| + 1
  {
    var k, k' := FirstIndex(p, es), FirstIndex(p, es + [e]);
    if k < |es| {
      assert (es + [e])[k] == es[k];
    } else {
      assert forall j | 0 <= j < |es| :: (es + [e])[j] == es[j];
      assert (es + [e])[|es|] == e;
    }
  }

  lemma {:induction false} FoldValid(es: seq<Entry>)
    ensures Fold(Empty, es).Valid()
  {
    if es != [] {
      FoldValid(es[..|es| - 1]);
    }
  }

  /** The fold's record for one property depends only on that property's occurrences. */
  lemma {:induction false} FoldRecordAt(es: seq<Entry>, p: string)
    ensures var occ, t := Occurrences(p, es), Fold(Empty, es);
      (p in t.records <==> |occ| > 0) && (p in t.records ==> t.records[p] == occ[WinnerIndex(occ)])
  {
    if es != [] {
      var init, e := es[..|es| - 1], es[|es| - 1];
      FoldRecordAt(init, p);
      var t0 := Fold(Empty, init);
      assert Fold(Empty, es) == FoldEntry(t0, e);
      var occ0 := Occurrences(p, init);
      if p != e.property {
        assert Occurrences(p, es) == occ0;
      } else if |occ0| == 0 {
        assert Occurrences(p, es) == [e.record];
      } else {
        var occ := occ0 + [e.record];
        assert Occurrences(p, es) == occ;
        assert occ[..|occ0|] == occ0;
        var k0 := WinnerIndex(occ0);
        assert t0.records[p] == occ0[k0] == occ[k0];
      }
    }
  }

  /**
   * After folding, the table is well formed, holds exactly the properties
   * that occur, and for each holds the record chosen among that property's
   * occurrences alone.
   */
  lemma FoldRecords(es: seq<Entry>)
    ensures Fold(Empty, es).Valid()
    ensures forall p :: p in Fold(Empty, es).records <==> |Occurrences(p, es)| > 0
    ensures forall p | p in Fold(Empty, es).records ::
      var occ := Occurrences(p, es); |occ| > 0 && Fold(Empty, es).records[p] == occ[WinnerIndex(occ)]
  {
    FoldValid(es);
    forall p {
      FoldRecordAt(es, p);
    }
  }

  /** A property occurs exactly when it has a first occurrence. */
  lemma {:induction false} OccursIff(p: string, es: seq<Entry>)
    ensures |Occurrences(p, es)| > 0 <==> FirstIndex(p, es) < |es|
  {
    if es != [] {
      var init, e := es[..|es| - 1], es[|es| - 1];
      assert es == init + [e];
      OccursIff(p, init);
      FirstIndexSnoc(p, init, e);
    }
  }

  /** The keys after folding are exactly the properties that occur. */
  lemma FoldKeys(es: seq<Entry>, p: string)
    ensures p in Fold(Empty, es).order <==> FirstIndex(p, es) < |es|
  {
    FoldValid(es);
    FoldRecordAt(es, p);
    OccursIff(p, es);
  }

  /** After folding, the keys are in the order of their first occurrence. */
  lemma {:induction false} FoldOrder(es: seq<Entry>)
    ensures var o := Fold(Empty, es).order;
      forall i, j | 0 <= i < j < |o| :: FirstIndex(o[i], es) < FirstIndex(o[j], es)
  {
    if es != [] {
      var init, e := es[..|es| - 1], es[|es| - 1];
      assert es == init + [e];
      FoldOrder(init);
      FoldValid(init);
      var o0 := Fold(Empty, init).order;
      var o := Fold(Empty, es).order;
      forall i | 0 <= i < |o0|
        ensures FirstIndex(o0[i], es) == FirstIndex(o0[i], init) < |init|
      {
        FoldKeys(init, o0[i]);
        FirstIndexSnoc(o0[i], init, e);
      }
      if |o| > |o0| {
        FoldKeys(init, e.property);
        FirstIndexSnoc(e.property, init, e);
        assert o[|o0|] == e.property;
      }
    }
  }

  /**
   * The merged block has exactly one rule per property seen in the inputs,
   * in order of first appearance, and each rule carries the value and
   * important flag of the winning declaration for its property.
   */
  lemma MergedRulesSpec(blocks: seq<DeclarationBlock>)
    ensures var rules, es := MergedRules(blocks), Entries(blocks);
      (forall i, j | 0 <= i < j < |rules| :: rules[i].property != rules[j].property) &&
      (forall i, j | 0 <= i < j < |rules| :: FirstIndex(rules[i].property, es) < FirstIndex(rules[j].property, es)) &&
      (forall p :: (exists i | 0 <= i < |rules| :: rules[i].property == p) <==> FirstIndex(p, es) < |es|) &&
      (forall i | 0 <= i < |rules| ::
        var occ := Occurrences(rules[i].property, es);
        |occ| > 0 && rules[i].value == occ[WinnerIndex(occ)].value && rules[i].important == occ[WinnerIndex(occ)].important)
  {
    var es := Entries(blocks);
    FoldRecords(es);
    FoldOrder(es);
    var t := Fold(Empty, es);
    var rules := MergedRules(blocks);
    assert forall i | 0 <= i < |rules| :: rules[i].property == t.order[i];
    forall p
      ensures (exists i | 0 <= i < |rules| :: rules[i].property == p) <==> FirstIndex(p, es) < |es|
    {
      FoldKeys(es, p);
      RuleListed(t.order, rules, p);
    }
  }

  /** Rules named after a key list name a property exactly when the list holds it. */
  lemma RuleListed(order: seq<string>, rules: seq<Rule>, p: string)
    requires |rules| == |order|
    requires forall i | 0 <= i < |rules| :: rules[i].property == order[i]
    ensures (exists i | 0 <= i < |rules| :: rules[i].property == p) <==> p in order
  {
    if p in order {
      var i :| 0 <= i < |order| && order[i] == p;
      assert rules[i].property == p;
    }
  }

  lemma {:induction false} FoldAppend(t: PropertyTable, xs: seq<Entry>, ys: seq<Entry>)
    ensures Fold(t, xs + ys) == Fold(Fold(t, xs), ys)
  {
    if ys == [] {
      assert xs + ys == xs;
    } else {
      assert (xs + ys)[..|xs + ys| - 1] == xs + ys[..|ys| - 1];
      FoldAppend(t, xs, ys[..|ys| - 1]);
    }
  }

  /** The inner loop of mergeDeclarations: folds one block's rules, at the block's specificity, into the dictionary. */
  method FoldBlock(order: seq<string>, records: map<string, Record>, block: DeclarationBlock)
    returns (order': seq<string>, records': map<string, Record>)
    ensures PropertyTable(order', records') == Fold(PropertyTable(order, records), RuleEntries(block))
  {
    order', records' := order, records;
    var specificity := 0;
    if |block.selectors| == 1 {
      specificity := block.selectors[0].specificity;
    }
    ghost var entries := RuleEntries(block);
    var k := 0;
    while k < |block.rules|
      invariant 0 <= k <= |block.rules|
      invariant PropertyTable(order', records') == Fold(PropertyTable(order, records), entries[..k])
    {
      var rule := block.rules[k];
      var record := Record(rule.value, specificity, rule.important);
      assert entries[k] == Entry(rule.property, record);
      assert entries[..k + 1][..k] == entries[..k];
      if rule.property !in records' {
        records' := records'[rule.property := record];
        order' := order' + [rule.property];
      } else {
        var stored := records'[rule.property];
        if stored.specificity <= specificity && !stored.important {
          records' := records'[rule.property := record];
        }
      }
      if rule.important {
        records' := records'[rule.property := record];
      }
      k := k + 1;
    }
    assert entries[..|block.rules|] == entries;
  }

  /** The output loop of mergeDeclarations: one rule per key, in key order. */
  method EmitRules(order: seq<string>, records: map<string, Record>) returns (rules: seq<Rule>)
    requires forall p | p in order :: p in records
    ensures rules == Emit(PropertyTable(order, records))
  {
    rules := [];
    var i := 0;
    while i < |order|
      invariant 0 <= i <= |order|
      invariant |rules| == i
      invariant forall j | 0 <= j < i :: rules[j] == Rule(order[j], records[order[j]].value, records[order[j]].important)
    {
      var details := records[order[i]];
      var rule := Rule(order[i], details.value, false);
      if details.important {
        rule := rule.(important := true);
      }
      rules := rules + [rule];
      i := i + 1;
    }
  }

  /**
   * mergeDeclarations: expands each block's shorthands in place, folds
   * its rules into the dictionary, then builds one block of the
   * surviving rules and compacts its shorthands.
   */
  method MergeDeclarations(blocks: array<DeclarationBlock>,
                           expand: DeclarationBlock -> DeclarationBlock,
                           compact: DeclarationBlock -> DeclarationBlock)
    returns (merged: DeclarationBlock)
    modifies blocks
    ensures forall i | 0 <= i < blocks.Length :: blocks[i] == expand(old(blocks[i]))
    ensures merged == compact(DeclarationBlock([], MergedRules(blocks[..])))
  {
    var order: seq<string> := [];
    var records: map<string, Record> := map[];
    var b := 0;
    while b < blocks.Length
      invariant 0 <= b <= blocks.Length
      invariant forall i | 0 <= i < b :: blocks[i] == expand(old(blocks[i]))
      invariant forall i | b <= i < blocks.Length :: blocks[i] == old(blocks[i])
      invariant PropertyTable(order, records) == Fold(Empty, Entries(blocks[..b]))
    {
      ghost var done := blocks[..b];
      blocks[b] := expand(blocks[b]);
      assert blocks[..b] == done;
      assert blocks[..b + 1][..b] == done;
      FoldAppend(Empty, Entries(done), RuleEntries(blocks[b]));
      order, records := FoldBlock(order, records, blocks[b]);
      b := b + 1;
    }
    assert blocks[..b] == blocks[..];
    FoldValid(Entries(blocks[..]));
    var rules := EmitRules(order, records);
    merged := compact(DeclarationBlock([], rules));
  }
}
