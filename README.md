# PHP-CSS-Parser object model in Dafny

This project models two parts of the style-sheet object model of PHP-CSS-Parser (the ju1ius fork).

**Node container and tree queries** (`lib/CSSList.php`). A `CSSList` holds an ordered sequence of child nodes: rule sets, nested lists such as `@media` blocks, and other content such as imports. It edits that sequence in place. Recursive collectors walk the tree and append to a result array passed by reference. The collectors find:
- declaration blocks;
- rule sets;
- values, optionally skipping function arguments;
- selectors, optionally filtered by a specificity comparison.

`CSSDocument::mergeDeclarations` folds declaration blocks into one. It keeps one record per property in an insertion-ordered dictionary, under a simplified cascade.

**Value lists, functions and colours** (`lib/CSSValueList.php`):
- `CSSValueList` is a separator-joined component list.
- `CSSFunction` renders as `name(args)`.
- `CSSColor` keeps named channels (`r`,`g`,`b`,`a` or `h`,`s`,`l`,`a`). Its function name spells the channel keys.

Layout:
- `wrappers.dfy`: `Option` and `Result`.
- `values.dfy`: the `Value` datatype, `implode` (`Join`) and its inverse, and the `ValueList` and `Function` classes.
- `colors.dfy`: the `Color` class and the pure state functions its methods are proved against (`FromRGBState`, `ToRGBState`, `ToHSLState`, `HexValue`).
- `tree.dfy`: the node datatypes and the recursive specifications of the collectors.
- `csslist.dfy`: the `CssList` class, with its in-place mutators and the collector methods. The collectors pass an accumulator, as the PHP passes `&$aResult`.
- `cascade.dfy`: the merge fold, an independent characterisation of which declaration wins, first-seen key order, and the `MergeDeclarations` method over an array of blocks.

Code outside these two files enters the model as function-valued parameters. The model assumes only what "## Left out" lists about them. They are:
- `CSSColorUtils`;
- `CSSSize` rendering;
- `CSSRuleSet::getRules` name matching;
- `CSSDeclarationBlock::expandShorthands`/`createShorthands`.

Where this model departs from the CSS 2.1 cascade, it follows the code:
- Among `!important` declarations of one property, the last one wins whatever its specificity (`CascadeOrder`).
- The merged rules come out in order of first appearance. The docblock's example #1 shows a different order.

## Model

| member | source | states |
|---|---|---|
| CssLists.CssList.constructor | lib/CSSList.php:10-12 | a new list is empty |
| CssLists.CssList.Prepend | lib/CSSList.php:14-17 | the item becomes first; all other items follow in their old order |
| CssLists.CssList.Append | lib/CSSList.php:19-21 | the item becomes last; all other items keep their positions |
| CssLists.CssList.Extend | lib/CSSList.php:23-27 | the loop appends every item in the given order: new contents are old contents followed by the items |
| CssLists.RemoveAt | lib/CSSList.php:29-31 | an in-range index removes exactly that item and the rest close up; an out-of-range index changes nothing |
| CssLists.CssList.RemoveItemAt | lib/CSSList.php:29-31 | the contents become `RemoveAt` of the old contents |
| CssLists.SpliceOffset | lib/CSSList.php:33-35 | array_splice offset: non-negative counts from the front, negative from the end, clamped to the length |
| CssLists.InsertAt | lib/CSSList.php:33-35 | the items sit contiguously at the splice offset, in their order; removing them gives back the old contents, so old items keep their relative order; the length grows by the number of items |
| CssLists.CssList.InsertItemsAt | lib/CSSList.php:33-35 | the contents become `InsertAt` of the old contents |
| CssLists.RemoveInserted | lib/CSSList.php:29-35 | removing an item just inserted at a valid index restores the contents |
| CssLists.InsertFromEnd | lib/CSSList.php:33-35 | a negative offset -k inserts k positions before the end |
| CssLists.CssList.GetContents | lib/CSSList.php:45-47 | returns the contents as they stand |
| CssLists.CssList.SetContents | lib/CSSList.php:48-50 | the contents become exactly the given sequence |
| Tree.DeclarationBlocksInDocumentOrder | lib/CSSList.php:52-60 | allDeclarationBlocks yields exactly the declaration blocks of a pre-order walk, in that order, skipping everything else |
| Tree.RuleSetsInDocumentOrder | lib/CSSList.php:62-70 | allRuleSets yields exactly the rule sets of a pre-order walk, in that order |
| Tree.DeclarationBlocksAmongRuleSets | lib/CSSList.php:52-70 | the declaration blocks are exactly the rule sets that are declaration blocks, in the same order |
| Tree.DeclarationBlocksAppend | lib/CSSList.php:52-60 | the blocks of concatenated contents are the blocks of each part, concatenated; appending a node adds its blocks at the end |
| CssLists.CollectDeclarationBlocks | lib/CSSList.php:52-60 | the loop with recursion appends to the accumulator exactly `DeclarationBlocks` of the items |
| CssLists.CollectRuleSets | lib/CSSList.php:62-70 | the loop with recursion appends to the accumulator exactly `RuleSets` of the items |
| CssLists.CssList.GetAllDeclarationBlocks | lib/CSSList.php:119-123 | the result is `DeclarationBlocks` of the contents |
| CssLists.CssList.GetAllRuleSets | lib/CSSList.php:135-139 | the result is `RuleSets` of the contents |
| Tree.SelectRules | lib/CSSList.php:78 | every rule getRules selects comes from the rule set |
| CssLists.CollectItemsValues | lib/CSSList.php:73-76 | visiting a list's contents appends exactly `ItemsValues`: each node's findings, in order |
| CssLists.CollectItemValues | lib/CSSList.php:72-93 | a nested list is searched; a rule set's selected rules are searched rule by rule; other content is appended as is |
| CssLists.CollectValueValues | lib/CSSList.php:83-92 | list components are searched, a function's only when asked; any other value is appended once |
| CssLists.CssList.GetAllValues | lib/CSSList.php:146-157 | the result equals `AllValues` from the whole document, from the document filtered by property name, or from a given node |
| Tree.ValueValuesTerminal | lib/CSSList.php:83-92 | every value the search appends is a leaf, never a value list, function or colour |
| Tree.ItemValuesTerminal | lib/CSSList.php:72-93 | every finding from a node is a leaf value or a node that is not a list or a rule set |
| Tree.SkippingFunctionArguments | lib/CSSList.php:84 | searching without function arguments is searching the value with all function arguments removed: nothing beneath a function is reached |
| Tree.Normalize | lib/CSSList.php:165-168 | no search means no filter; a bare number becomes a `==` comparison |
| Tree.KeepMembers | lib/CSSList.php:95-109 | a filter keeps exactly the selectors whose specificity satisfies the comparison |
| Tree.SelectorsFiltered | lib/CSSList.php:95-109 | without a filter, every selector of every block in document order; with one, that same sequence with exactly the failing selectors removed |
| CssLists.CssList.AllSelectors | lib/CSSList.php:95-109 | the nested loops yield `SelectorsOf` the document's declaration blocks under the filter |
| CssLists.CssList.GetSelectorsBySpecificity | lib/CSSList.php:165-172 | the result is `SelectorsOf` the declaration blocks under the normalised search |
| Cascade.BlockSpecificity | lib/CSSList.php:256-261 | a block's specificity is its selector's when it has exactly one selector, else 0 |
| Cascade.RuleEntries | lib/CSSList.php:262 | each rule of a block is folded with that block's specificity, in the block's order |
| Cascade.FoldEntry | lib/CSSList.php:266-293 | the stored record for a property is replaced iff the property is new, or (stored specificity ≤ new and stored not important), or the new rule is important; a new key goes last and an existing key keeps its place; well-formedness is kept |
| Cascade.ImportantNeverDisplaced | lib/CSSList.php:276-293 | a stored important record is never displaced by a rule that is not important |
| Cascade.CascadeOrder | lib/CSSList.php:266-293 | the winner among a property's declarations is the last important one if any, whatever its specificity; otherwise the last one of maximal specificity |
| Cascade.TwoDeclarations | lib/CSSList.php:266-293 | without importance, the more specific of two declarations wins in either order; an important one beats one that is not in either order |
| Cascade.FoldValid | lib/CSSList.php:252-295 | the dictionary lists each property once and its keys are exactly the stored ones |
| Cascade.FoldRecordAt | lib/CSSList.php:266-293 | a property is stored iff it occurs, and its record is the winner among its own occurrences alone |
| Cascade.FoldRecords | lib/CSSList.php:252-295 | after the fold, every property's record is the winner among its occurrences |
| Cascade.FoldKeys | lib/CSSList.php:266-275 | the keys after the fold are exactly the properties that occur |
| Cascade.FoldOrder | lib/CSSList.php:266-275 | the keys are in order of first occurrence |
| Cascade.Emit | lib/CSSList.php:296-309 | one output rule per key |
| Cascade.MergedRulesSpec | lib/CSSList.php:296-309 | the merged rules name each property seen in the inputs exactly once, in first-seen order, each with its winning declaration's value and important flag |
| Cascade.FoldBlock | lib/CSSList.php:262-294 | the per-rule loop leaves the dictionary equal to the fold of the block's entries |
| Cascade.EmitRules | lib/CSSList.php:296-309 | the output loop builds exactly `Emit` of the dictionary |
| Cascade.MergeDeclarations | lib/CSSList.php:249-311 | every input block is replaced by its expanded form, and the result is the compacted block of `MergedRules` over the expanded blocks |
| Values.ValueList.constructor | lib/CSSValueList.php:7-15 | a value list with the same separator is flattened into its components; an array is taken as is; any other value becomes a one-element list |
| Values.ValueList.AddListComponent | lib/CSSValueList.php:17-19 | the value is appended at the end; the separator is unchanged |
| Values.ValueList.ToString | lib/CSSValueList.php:37-39 | the text is the components' texts joined by the list's separator (`implode`) |
| Values.RenderAllAppend | lib/CSSValueList.php:37-39 | after appending a component, the text is the old text, the separator and the new component's text |
| Values.SplitJoin | lib/CSSValueList.php:37-39 | implode with a one-character separator absent from the components is undone by splitting at that character |
| Values.Function.constructor | lib/CSSValueList.php:50-53 | a function keeps its name, and its arguments form a value list with separator `,` |
| Values.Function.ToString | lib/CSSValueList.php:67-70 | the text is the name, `(`, the argument list's text, `)` |
| Values.FunctionTextParses | lib/CSSValueList.php:67-70 | in a function's text the first `(` ends the name, the last character is `)`, and the arguments joined by the separator stand between |
| Colors.Color.constructor | lib/CSSValueList.php:75-93 | an array with r,g,b goes to fromRGB, else one with h,s,l to fromHSL; a string goes to the named colour if known, else to hex; anything else leaves the placeholder state |
| Colors.Color.FromRGB | lib/CSSValueList.php:95-112 | the loop leaves exactly `FromRGBState` |
| Colors.FromRGBStoresChannels | lib/CSSValueList.php:95-112 | r,g,b are always stored, normalised and in order; `a` is stored iff supplied and not 1 once constrained; the name is `rgba` iff `a` is stored, and it spells the keys |
| Colors.Color.FromHSL | lib/CSSValueList.php:114-122 | the state is fromRGB of hsl2rgb, with alpha defaulting to 1 |
| Colors.Color.FromHex | lib/CSSValueList.php:124-127 | a parsed hex goes through fromRGB; a failed parse is the fatal type error, with the state unchanged |
| Colors.Color.FromNamedColor | lib/CSSValueList.php:129-132 | a known name goes through fromRGB; an unknown one is the fatal type error, with the state unchanged |
| Colors.Color.SetColor | lib/CSSValueList.php:138-141 | the components are taken as given and the name spells their keys |
| Colors.RemoveKey | lib/CSSValueList.php:155 | after unset the key is gone and every other key's entry is unchanged |
| Colors.RemoveTrailingAlpha | lib/CSSValueList.php:154-156 | unsetting `a` from components spelling `rgba` leaves components spelling `rgb` |
| Colors.Color.ToRGB | lib/CSSValueList.php:147-174 | the new state is `ToRGBState` of the old one; on a fatal error (a missing channel) the state is unchanged and the error is reported |
| Colors.ToRGBOnRGBFamily | lib/CSSValueList.php:151-159 | no-op for an empty or `rgb` name; `rgba` loses `a` and becomes `rgb` iff a ≥ 1, other channels unchanged; `rgba` without `a` is a fatal error |
| Colors.RGBChannelsFacts | lib/CSSValueList.php:167-172 | the rebuilt components spell `rgba` iff the converter returned an alpha, and store it |
| Colors.ToRGBKeepsNameFollowsKeys | lib/CSSValueList.php:147-174 | toRGB keeps the name spelling the channel keys |
| Colors.ToRGBIdempotentOnRGBFamily | lib/CSSValueList.php:151-159 | on an `rgb` or `rgba` colour, toRGB twice equals toRGB once, with no condition on the converters |
| Colors.ToRGBTwiceDropsOpaqueAlpha | lib/CSSValueList.php:160-172 | when hsl2rgb returns an alpha of exactly 1, the first toRGB gives `rgba` and the second drops it to `rgb`: two calls differ from one |
| Colors.ToRGBIdempotent | lib/CSSValueList.php:147-174 | toRGB twice equals toRGB once (when hsl2rgb gives no alpha ≥ 1) |
| Colors.Color.ToHSL | lib/CSSValueList.php:176-205 | the new state is `ToHSLState` of the old one; on a fatal error the state is unchanged and the error is reported |
| Colors.HSLChannelsFacts | lib/CSSValueList.php:194-203 | the rebuilt components spell `hsla` iff the converter returned an alpha; s and l carry `%` |
| Colors.ToHSLFromRGB | lib/CSSValueList.php:188-204 | converting from rgb: s and l carry `%`, and the name is `hsla` iff the conversion produced an alpha, which is then stored |
| Colors.ToHSLKeepsNameFollowsKeys | lib/CSSValueList.php:176-205 | toHSL keeps the name spelling the channel keys |
| Colors.ToHSLOnHSLFamily | lib/CSSValueList.php:179-187 | no-op for an empty or `hsl` name; `hsla` loses `a` and becomes `hsl` iff a ≥ 1, other channels unchanged; `hsla` without `a` is a fatal error |
| Colors.ToHSLIdempotentOnHSLFamily | lib/CSSValueList.php:179-187 | on an `hsl` or `hsla` colour, toHSL twice equals toHSL once, with no condition on the converters |
| Colors.RGBToHSL | lib/CSSValueList.php:188-203 | toHSL on an `rgb` colour without alpha stores the rebuilt components of rgb2hsl with alpha 1, named `hsla` iff the converter gave an alpha |
| Colors.OpaqueHSLAlphaDropped | lib/CSSValueList.php:180-186 | an `hsla` colour rebuilt with alpha 1 becomes `hsl` on toHSL |
| Colors.ToHSLTwiceDropsOpaqueAlpha | lib/CSSValueList.php:188-203 | when rgb2hsl returns an alpha of exactly 1, the first toHSL gives `hsla` and the second drops it to `hsl`: two calls differ from one |
| Colors.ToHSLIdempotent | lib/CSSValueList.php:176-205 | toHSL twice equals toHSL once (when rgb2hsl gives no alpha ≥ 1) |
| Colors.Color.GetNamedColor | lib/CSSValueList.php:207-215 | converts to rgb in place, then gives the reverse name lookup of r,g,b, or the fatal error of the conversion |
| Colors.HexValue | lib/CSSValueList.php:217-235 | a hex value exactly when no `a` other than the integer 1 is stored (strict `!==`) and the name is `rgb` or `hsl` with its three channels; no value for other names; the error is a missing channel |
| Colors.HexAfterFromRGB | lib/CSSValueList.php:217-235 | right after fromRGB there is a hex value iff the alpha was dropped, and it is rgb2hex of the normalised channels |

## Left out

- `__toString` of `CSSList` and `CSSMediaQuery`, and the rendering of `CSSSize` and of rules. They rely on child rendering that these two files do not contain. A size's text is a parameter of `Render`.
- `CSSDocument::expandShorthands`/`createShorthands` on a whole document. `CSSDeclarationBlock`'s shorthand code is not part of this model; `MergeDeclarations` takes the expansion and the compaction as parameters.
- CSSColorUtils is not part of this model. Its conversions, clamps, hex parsing and name table are fields of a `ColorUtils` value. hsl2rgb is assumed to return its keys in the order `r`,`g`,`b`,`a`, since toRGB rebuilds the components in the order of that array.
- `CSSRuleSet::getRules` with a search string is not part of this model. Its name matching is the parameter `matches`. `addRule` is assumed to add a rule for a new property at the end.
- Nested lists inside the tree are values (`Item.Nested`), not shared objects. Aliasing between a nested list and the tree is not modelled.
- Cascade.MergeDeclarations: declaration blocks, rule sets, rules and values are values, not shared objects. The expansion at lib/CSSList.php:255 changes the entries of the array passed in, but not the document those blocks were collected from. In PHP the blocks are shared, so merging the result of `getAllDeclarationBlocks()` also expands the blocks inside the document.
- `CssList.RemoveItemAt`: PHP's `unset` leaves a gap in the array keys, with no reindexing. The model closes the gap; later positional use in PHP would see the old keys.
- Colors.Constructed: the PHP constructor first builds a function `rgb` with one null component. The model's placeholder has no channel.
- `fromRGB` on an array missing `r`, `g` or `b`: the `RGBA` argument always carries all three.
- Cascade.RuleEntries: the fold keys each rule by its `property`. The PHP keys `$aProperties` by the array key of `getRules()`, which is assumed to be the rule's property name.
- `CSSRuleSet::getRules` with a search string is assumed to be an order-preserving filter over the rules (`SelectRules`).
- A rule's value is one `Value`. The `getValues`/`addValue` array of a `CSSRule` is not modelled.
- Colors.ToRGBIdempotent: stated only when hsl2rgb never returns an alpha ≥ 1. The conversion branch keeps any alpha it gets, so a second call drops an alpha of 1 (`ToRGBTwiceDropsOpaqueAlpha`). On the rgb family no condition is needed (`ToRGBIdempotentOnRGBFamily`).
- Colors.ToHSLIdempotent: stated only when rgb2hsl never returns an alpha ≥ 1, for the same reason (`ToHSLTwiceDropsOpaqueAlpha`). On the hsl family no condition is needed (`ToHSLIdempotentOnHSLFamily`).
- The specificity filter is an operator and an integer, not a string. The `eval` of a built comparison string is replaced by `Holds`, so malformed strings have no model.
- PHP sizes that are numeric strings are modelled as numbers. Loose `==`/`>=` compare magnitudes; strict `!==` also compares the kind.
- The expected merge output of tests/CSSDocumentTest.php:18 is not modelled. It depends on the shorthand code, the parser and colour rendering.
