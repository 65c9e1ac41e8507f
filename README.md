# ecocalc in Dafny

ecocalc computes production chains for factory games: given recipes
("12 a + 7 b -> 13 c", made at some facility in some time) and a target
item, count or rate, it works out which recipes to run and how often. The
repository holds three generations of that calculator, and this project
models the core of each:

- **ecocalc/** (the package): a JSON economy definition (resources,
  production entities and groups, rate scalars, recipes, tiers), the
  recipe grammar of its parser, productions and their sums, and the
  recipe filter of its resolver. Modules `EcoResource`,
  `EcoProductionEntity`, `EcoEntityGroup`, `EcoRateScalar`, `EcoTier`,
  `EcoRecipe`, `EcoEconomy`, `EcoProduction`, `EcoRecipeSum`,
  `EcoResolver`, `EcoParser` and `EcoParserExamples` (the parser's
  unit tests as lemmas).
- **the top-level scripts**: signed recipes (negative counts consumed,
  positive produced) with rate and scalar, their text form, the economy
  file with recipe descriptors, the recursive resolver with its cache of
  resolved ingredients, and the substitution search of
  `RecipeResolution`. Modules `NumberTools`, `SignedRecipe`,
  `SignedEconomy`, `SignedResolver` and `SignedResolution`.
- **legacy/**: the first generation, with case-insensitive item
  multisets, line-based recipe parsing, recipe paths and their
  substitution, and the enumeration of paths by length. Modules
  `LegacyItems`, `LegacyRecipe`, `LegacyRecipePath` and `LegacyRecipes`.

Shared modules model the parts of Python the core relies on: `Common`
(exceptions as an `Error` datatype, `Option`, `Result`, negative list
indices), `Seqs` (order-keeping deduplication, first index, flat map),
`Text` (strip, split, join, lower case, digits), `Numbers` (Python `int`
and `fractions.Fraction` of decimal text, as exact `real`s) and `Json`
(the serialised objects the `from_dict` methods read).

Every exception the source raises is an `Err` value of the `Error`
datatype, every Python `Fraction` or `int` quantity is an exact `real`,
and every dictionary keeps Python's insertion order where the code
depends on it. Objects that the source updates in place (`RecipeSum`,
`Tier`, `EconomyDefinition`, `Items`, `RecipePath`, `Recipes`,
`ResolvedRecipe`, both `RecipeResolver`s and the ecocalc `Recipe`, whose
`economy` is set after construction) are classes; the rest are
datatypes and functions.

Where the code is incomplete, the model fills it in as follows:

- The ecocalc `RecipeSide.parse` (ecocalc/Recipe.py:22-31) is a stub
  that keeps nothing of the text. The model reads each side of a recipe
  equation by the `RecipeSide` rule of the package's own grammar
  (ecocalc/Parser.py:58-70) instead, so that ingredients exist at all.
- `recipe.ingredients`, `recipe.is_cyclic` and `recipe.provides_rate`
  are used by ecocalc/EconomyDefinition.py and ecocalc/RecipeResolver.py
  but defined nowhere. The model gives them their evident meaning: the
  identifiers of the left side, "some identifier is on both sides", and
  "the recipe has an execution time".
- The recipes left after filtering need not form an acyclic graph: the
  filter only drops recipes that are cyclic by themselves, so two recipes
  `a -> b` and `b -> a` both survive. ecocalc's `resolve` does not
  recurse, so this does not matter there; the recursive resolver of
  RecipeResolver.py is modelled with a ghost rank that must decrease from
  a recipe to the producers of its ingredients, and with the assumption
  that the `count` the undefined `get_recipe_that_produces` reports is
  the net amount of the resource its recipe yields.

## Model

| member | source | states |
|---|---|---|
| EcoResource.NewResource | ecocalc/Resource.py:23-28 | the identifier is kept, and the display name is the given name or, when none is given, the identifier |
| EcoResource.FromDict | ecocalc/Resource.py:38-40 | without a `"name"` the resource is the one the constructor builds from the identifier alone |
| EcoResource.FromDictWithoutName | ecocalc/Resource.py:38-43 | an object without `"name"` gives a resource named and displayed (`__repr__`) by its identifier |
| EcoResource.FromDictWithName | ecocalc/Resource.py:38-43 | a given name is kept exactly and is what the resource displays as |
| EcoProductionEntity.NewEntity | ecocalc/ProductionEntity.py:25-33 | identifier, tag and both speed factors are stored as given; the name defaults to the identifier |
| EcoProductionEntity.FromDict | ecocalc/ProductionEntity.py:59-76 | a missing `"name"` is `KeyError("name")`; a built entity has the identifier, the given name (the identifier when `"name"` is null), the speed factors `SpeedFactors` chose, the given tag when `"tag"` is present and no tag when it is absent |
| EcoProductionEntity.SpeedFactorGivesSingleSpeed | ecocalc/ProductionEntity.py:51-53 | with `"speed_factor"`, min and max are both its exact fraction, so `single_speed` holds |
| EcoProductionEntity.SpeedFactorWins | ecocalc/ProductionEntity.py:66-75 | `"speed_factor"` takes precedence: adding min/max keys changes no factor |
| EcoProductionEntity.HalfRangeIgnored | ecocalc/ProductionEntity.py:71-75 | with only one of min/max present both factors keep their default 1 |
| EcoProductionEntity.RangeTaken | ecocalc/ProductionEntity.py:71-75 | with both min and max present they are taken as given, and differing ones make the entity not single-speed |
| EcoProductionEntity.NameIsMandatory | ecocalc/ProductionEntity.py:63 | without `"name"` the entity cannot be built, whatever else is given |
| EcoProductionEntity.ThreeQuarterSpeedEntity | ecocalc/tests/EcoTests.py:41-44 | the test economy's machine `X` with `speed_factor` 0.75 runs at exactly 3/4 |
| EcoEntityGroup.FromList | ecocalc/ProductionEntityGroup.py:35-41 | the group keeps its identifier and exactly the serialised members, in order |
| EcoEntityGroup.ReprReportsAliasCount | ecocalc/ProductionEntityGroup.py:43-44 | the representation starts with the identifier and the number before " aliases)" reads back as the member count |
| EcoRateScalar.ScalarUpmAsWritten | ecocalc/RateScalar.py:26-28 | reading `scalar_upm` is always an `AttributeError`, since the constructor sets no attribute |
| EcoRateScalar.ReprAsWritten | ecocalc/RateScalar.py:39-40 | `__repr__` is always an `AttributeError` on `upm` |
| EcoRateScalar.FromDictAsWritten | ecocalc/RateScalar.py:23-37 | missing unit is `KeyError`, an unknown unit `NotImplementedError`; a built scalar holds no value |
| EcoRateScalar.AsWrittenScalarIsLost | ecocalc/RateScalar.py:23-28 | a scalar built from any `"upm"` object with a `"value"`, or from any `"ups"` object whose value `60 *` accepts, cannot give its value back |
| EcoRateScalar.FromDict | ecocalc/RateScalar.py:30-37 | the same unit checks; `"upm"` keeps the value, `"ups"` keeps 60 times the value (exactly), and the value must be a number |
| EcoRateScalar.SameErrorsAsWritten | ecocalc/RateScalar.py:30-37 | on every object whose value is absent or a number, the corrected `from_dict` succeeds and fails exactly where the one as written does, with the same errors |
| EcoRateScalar.TextValueRefused | ecocalc/RateScalar.py:30-37 | where the two differ: a text value is accepted as written but refused by the corrected `from_dict` |
| EcoRateScalar.UpsIsSixtyUpm | ecocalc/RateScalar.py:34-35 | a rate per second reads back as sixty times that rate per minute |
| EcoTier.Tier.constructor | ecocalc/Tier.py:27-29 | the tags are stored and the tier belongs to no economy yet |
| EcoTier.Tier.SetEconomy | ecocalc/Tier.py:39-41 | the setter stores the economy and changes nothing else |
| EcoTier.Tier.FromDict | ecocalc/Tier.py:43-46 | a fresh tier enabling the set of stripped `+`-separated pieces |
| EcoTier.TagsOfMembers | ecocalc/Tier.py:45 | a tag is enabled exactly when it is one of the stripped pieces, and there are at most as many tags as `+` signs plus one |
| EcoTier.SingleTag | ecocalc/Tier.py:45 | text without `+` enables exactly its stripped self |
| EcoTier.RepeatedTag | ecocalc/Tier.py:45 | the set removes repetitions: `a + a` (however spaced) enables one tag |
| EcoTier.ImageSetMembers | ecocalc/Tier.py:45 | the set built from the pieces holds exactly their images and is no larger than the list of pieces |
| EcoProduction.NewProduction | ecocalc/Production.py:27-31 | recipe, entity and cardinality are kept and the speed is the entity's maximum speed factor |
| EcoProduction.Scale | ecocalc/Production.py:49-50 | `__mul__` keeps recipe and entity, multiplies the cardinality and gives a production the constructor could have built |
| EcoProduction.ScaleKeepsSpeed | ecocalc/Production.py:27-50 | scaling does not change the production speed |
| EcoProduction.ScaleByOne | ecocalc/Production.py:49-50 | scaling by 1 gives the same production |
| EcoProduction.ScaleTwice | ecocalc/Production.py:49-50 | scaling by `a` then `b` is scaling by `a * b` |
| EcoProduction.ThreeQuarterSpeed | ecocalc/tests/EcoTests.py:68 | a production at the test machine `X` runs at speed 3/4 |
| EcoRecipeSum.RecipesOf | ecocalc/RecipeSum.py:41-42 | one recipe per production, position by position |
| EcoRecipeSum.CombinedSome | ecocalc/RecipeSum.py:41-45 | a recipe has a summed production exactly when some production uses it |
| EcoRecipeSum.Merged | ecocalc/RecipeSum.py:39-46 | the merged list has one entry per distinct recipe |
| EcoRecipeSum.MergedLength | ecocalc/RecipeSum.py:39-46 | merging never makes the list longer |
| EcoRecipeSum.MergedRecipes | ecocalc/RecipeSum.py:39-46 | the merged list's recipes are the original recipes without repeats, in first-seen order (the `OrderedDict` order) |
| EcoRecipeSum.MergedProperties | ecocalc/RecipeSum.py:39-46 | after merging no recipe repeats, exactly the recipes present before remain, and their relative order is first-seen order |
| EcoRecipeSum.CombinedOfDistinct | ecocalc/RecipeSum.py:42-43 | a recipe used once is summed to its one production |
| EcoRecipeSum.MergedOfDistinct | ecocalc/RecipeSum.py:39-46 | merging a list without repeated recipes changes nothing |
| EcoRecipeSum.MergeIdempotent | ecocalc/RecipeSum.py:39-46 | merging twice is merging once |
| EcoRecipeSum.CombinedSnoc | ecocalc/RecipeSum.py:41-45 | one more production adds into its own recipe's sum and leaves other sums alone |
| EcoRecipeSum.ScaleAllProperties | ecocalc/RecipeSum.py:52-54 | scaling every production keeps the recipes in order, and scaling twice is scaling by the product |
| EcoRecipeSum.MergeStateNewKey | ecocalc/RecipeSum.py:42-43 | the loop step for a new recipe appends the key with the production itself and keeps the loop invariant |
| EcoRecipeSum.MergeStateOldKey | ecocalc/RecipeSum.py:44-45 | the loop step for a seen recipe adds the production to its entry and keeps the loop invariant |
| EcoRecipeSum.RecipeSum.constructor | ecocalc/RecipeSum.py:28-29 | a new sum holds no production |
| EcoRecipeSum.RecipeSum.Add | ecocalc/RecipeSum.py:48-50 | `+=` appends the production and keeps the earlier ones |
| EcoRecipeSum.RecipeSum.Scale | ecocalc/RecipeSum.py:52-54 | `*=` replaces each production by its scaled copy, same length and order |
| EcoRecipeSum.RecipeSum.MergeRecipes | ecocalc/RecipeSum.py:39-46 | the loop leaves exactly `Merged` of the old list: one summed production per recipe, in first-seen order |
| EcoRecipe.Recipe.constructor | ecocalc/Recipe.py:34-59 | the accessors give back the arguments unchanged, and no economy is registered yet |
| EcoRecipe.Recipe.FromDict | ecocalc/Recipe.py:68-78 | a fresh recipe from exactly the fields read, or the error of reading them |
| EcoRecipe.ParseSideText | ecocalc/Recipe.py:64-65 | a parsed side holds at least one element |
| EcoRecipe.ParseEquation | ecocalc/Recipe.py:61-66 | text that does not split at `->` into exactly two pieces is a `ValueError`; otherwise both pieces parse as sides |
| EcoRecipe.FieldsOf | ecocalc/Recipe.py:68-78 | missing `"recipe"` or `"at"` is a `KeyError`; a result holds the parsed sides, the `"at"` text, `None` exactly for absent or `null` time and name, and a present time or name as given |
| EcoRecipe.SideTextRoundTrip | ecocalc/Recipe.py:64-65 | a side written out parses back to its elements |
| EcoRecipe.NoArrowInSide | ecocalc/Recipe.py:63 | a written side holds no `>`, so it cannot hold the `->` separator |
| EcoRecipe.FindArrow | ecocalc/Recipe.py:63 | the first `->` of `a + "->" + b` is the one between them when `a` holds no `>` |
| EcoRecipe.EquationRoundTrip | ecocalc/Recipe.py:61-66 | an equation written as two sides around `->` parses back to both sides |
| EcoRecipe.EquationNeedsOneArrow | ecocalc/Recipe.py:63 | text with no `->` or with more than one is a `ValueError` |
| EcoRecipe.EquationSplitsAtArrow | ecocalc/Recipe.py:63 | a parsed equation is its two side texts joined by its only `->` |
| EcoRecipe.OptionalFieldsDefault | ecocalc/Recipe.py:75-76 | without `"time"` and `"name"` a recipe has neither |
| EcoEconomy.FirstUnknown | ecocalc/EconomyDefinition.py:53-57 | what it reports is a nonempty set of unknown ingredients |
| EcoEconomy.FirstUnknownSpec | ecocalc/EconomyDefinition.py:53-57 | nothing is reported exactly when every recipe's ingredients are resources; otherwise the first recipe with unknown ones is reported, with exactly those |
| EcoEconomy.Plausibility | ecocalc/EconomyDefinition.py:48-57 | duplicate display names are reported before any unknown ingredient, and only these two errors occur |
| EcoEconomy.PlausibilitySpec | ecocalc/EconomyDefinition.py:48-57 | the check passes exactly when display names are unique and every ingredient is a resource, and it otherwise names the offending names or ingredients |
| EcoEconomy.DuplicateNamesEmpty | ecocalc/EconomyDefinition.py:49-50 | no duplicate is reported exactly when different resources have different names |
| EcoEconomy.DuplicateNamesShared | ecocalc/EconomyDefinition.py:49 | every reported name belongs to two different resources |
| EcoEconomy.ProductsNotChecked | ecocalc/EconomyDefinition.py:54-57 | recipes with the same ingredients pass or fail alike, whatever they produce |
| EcoEconomy.FirstUnknownIngredientsOnly | ecocalc/EconomyDefinition.py:55 | the unknown-ingredient search depends on the ingredients alone |
| EcoEconomy.EconomyDefinition.constructor | ecocalc/EconomyDefinition.py:35-46 | all tables are stored as given and every recipe is registered with this economy |
| EcoEconomy.EconomyDefinition.Create | ecocalc/EconomyDefinition.py:35-57 | the definition is built exactly when the plausibility check passes, with its error otherwise; a built definition holds all five tables as given; either way every recipe is registered with one new definition |
| EcoEconomy.EconomyDefinition.GetResourceName | ecocalc/EconomyDefinition.py:63-67 | a known resource gives its display name, an unknown identifier itself |
| EcoEconomy.EconomyDefinition.GetResource | ecocalc/EconomyDefinition.py:69-73 | succeeds exactly when `has_resource` holds, with the stored resource; `KeyError` otherwise |
| EcoEconomy.EconomyDefinition.HasProductionEntityAsWritten | ecocalc/EconomyDefinition.py:75-76 | always an `AttributeError` on the misspelt `_production_entitys` |
| EcoEconomy.EconomyDefinition.GetProductionEntity | ecocalc/EconomyDefinition.py:75-79 | succeeds exactly when the corrected `has_production_entity` holds, with the stored entity; `KeyError` otherwise |
| EcoEconomy.EconomyDefinition.GetRateScalar | ecocalc/EconomyDefinition.py:81-85 | succeeds exactly when `has_rate_scalar` holds, with the stored scalar; `KeyError` otherwise |
| EcoEconomy.EconomyDefinition.GetProductionEntityGroup | ecocalc/EconomyDefinition.py:87-91 | succeeds exactly when `has_production_entity_group` holds, with the stored group; `KeyError` otherwise |
| EcoEconomy.EconomyDefinition.HasProductionEntityFails | ecocalc/EconomyDefinition.py:75-79 | for a defined entity, the check as written fails while fetching succeeds and the corrected check holds |
| EcoEconomy.EconomyDefinition.NamesIdentifyResources | ecocalc/EconomyDefinition.py:48-67 | once the check has passed, two resources with the same display name are the same resource |
| EcoResolver.FilterRecipes | ecocalc/RecipeResolver.py:31-39 | filtering never adds recipes |
| EcoResolver.FilterIsSubsequence | ecocalc/RecipeResolver.py:31-39 | the filtered list is the economy's list with some recipes left out, order kept |
| EcoResolver.FilterMembers | ecocalc/RecipeResolver.py:31-39 | a recipe survives exactly when it is the economy's, is not cyclic, and in rate mode provides a rate |
| EcoResolver.RateFilterWithinCountFilter | ecocalc/RecipeResolver.py:37-38 | what rate mode keeps is a subsequence of what count mode keeps |
| EcoResolver.RecipeResolver.constructor | ecocalc/RecipeResolver.py:25-29 | the resolver keeps its arguments and exactly the filtered recipes |
| EcoResolver.RecipeResolver.Resolve | ecocalc/RecipeResolver.py:47-56 | resolving succeeds exactly when every specifier names an item, and fails with `NotImplementedError` otherwise |
| EcoResolver.Flows | ecocalc/RecipeResolver.py:44-45 | one rate per element, each the element's count times the per-unit rate |
| EcoResolver.FlowOfFlows | ecocalc/RecipeResolver.py:44-45 | the total rate of an item is its count on the side times the per-unit rate |
| EcoResolver.Scaled | ecocalc/RecipeResolver.py:44-45 | the scaled production is the one the `Production` constructor builds |
| EcoResolver.ProduceItem | ecocalc/RecipeResolver.py:44-45 | succeeds exactly when the recipe has a nonzero time, yields the item and the entity has a nonzero speed, with the recipe scaled to the target |
| EcoResolver.CardinalityMeetsTarget | ecocalc/RecipeResolver.py:44-45 | the computed number of entities delivers exactly the target |
| EcoResolver.ProduceItemMeetsTarget | ecocalc/RecipeResolver.py:44-45 | the scaled recipe yields the item at exactly the target rate |
| EcoResolver.FullBeltExample | ecocalc/tests/EcoTests.py:59-71 | `12 a + 7 b -> 13 c` at `X`, time 9, scaled to 15 c per second: speed 3/4, 180/13 entities, 180/13 a, 105/13 b, 15 c |
| EcoResolver.RecipeWhichProduces | ecocalc/RecipeResolver.py:41-42 | the recipe found is the first of the list that yields the item; none is found exactly when no recipe yields it |
| EcoParser.IdentSpan | ecocalc/Parser.py:29 | the identifier pattern's character class: the longest prefix of identifier characters |
| EcoParser.NextToken | ecocalc/Parser.py:27-34 | a token always consumes at least one character and never more than the input |
| EcoParser.LexSound | ecocalc/Parser.py:27-34 | the lexer is sound: the token read is well formed and its text is exactly the text it consumed |
| EcoParser.LexIdent | ecocalc/Parser.py:29 | an identifier not followed by an identifier character lexes as itself |
| EcoParser.LexFloat | ecocalc/Parser.py:30 | `digits.digits` lexes as one float token with both digit runs |
| EcoParser.LexInt | ecocalc/Parser.py:31 | digits not followed by a digit or `.` lex as one integer token |
| EcoParser.LexSymbol | ecocalc/Parser.py:32-34 | `%`, `#`, `@`, `->` and `+` lex as themselves |
| EcoParser.Tokenize | ecocalc/Parser.py:27-34 | every token of a lexed input is well formed |
| EcoParser.TokenizeAfterWhitespace | ecocalc/Parser.py:27 | the separator: leading whitespace changes nothing |
| EcoParser.TokenizeRenderWith | ecocalc/Parser.py:27-34 | tokens written out with whitespace, or with nothing where that is unambiguous, lex back to the same tokens |
| EcoParser.TokenizeRender | ecocalc/Parser.py:27-34 | well-formed tokens written with blanks between them lex back to themselves |
| EcoParser.ParseValue | ecocalc/Parser.py:77-80 | a value is exactly one float or integer token |
| EcoParser.ParseAnnotatedValue | ecocalc/Parser.py:72-75 | an annotated value consumes at least one token |
| EcoParser.ParseRecipeSpecifier | ecocalc/Parser.py:49-52 | a recipe specifier consumes at least one token |
| EcoParser.ParseAt | ecocalc/Parser.py:82 | `At` is exactly an `@` token followed by the identifier returned |
| EcoParser.ParseElement | ecocalc/Parser.py:65-70 | an element consumes at least one token |
| EcoParser.ParseSideTail | ecocalc/Parser.py:60-62 | the repeated group never moves backwards or past the input |
| EcoParser.ParseSide | ecocalc/Parser.py:58-63 | a side holds at least one element and consumes at least one token |
| EcoParser.ParseRecipeTokens | ecocalc/Parser.py:54-56 | both sides of a parsed recipe hold at least one element |
| EcoParser.ParseProductionSpecifier | ecocalc/Parser.py:85-87 | a parsed specifier is what the rule gives for the lexed input |
| EcoParser.ParseRecipe | ecocalc/Parser.py:89-91 | both sides of a parsed recipe hold at least one element |
| EcoParser.ValueOf | ecocalc/Parser.py:72-80 | a written number not followed by `%` reads back as itself |
| EcoParser.RecipeSpecifierOf | ecocalc/Parser.py:49-52 | a written recipe specifier reads back as itself, and is no value |
| EcoParser.AtOf | ecocalc/Parser.py:42-43 | a written facility reads back, and an absent one reads as absent |
| EcoParser.SpeedOf | ecocalc/Parser.py:44-46 | a written speed reads back to the end of the input |
| EcoParser.SpecifierRoundTrip | ecocalc/Parser.py:36-47 | the specifier rule gives back every specifier from its tokens |
| EcoParser.SpecifierTextRoundTrip | ecocalc/Parser.py:85-87 | text written from a production specifier whose numbers are renderable parses back to it; renderable means a non-negative integer or a whole number of hundredths written as a percentage, so other fractions and float spellings are not covered |
| EcoParser.ElementOf | ecocalc/Parser.py:65-70 | a written element reads back as itself |
| EcoParser.SideTailOf | ecocalc/Parser.py:60-62 | the written `+ element` group reads back element by element and stops before what follows |
| EcoParser.SideOf | ecocalc/Parser.py:58-63 | a written side reads back as its elements |
| EcoParser.RecipeRoundTrip | ecocalc/Parser.py:54-56 | the recipe rule gives back both sides from their tokens |
| EcoParser.RecipeTextRoundTrip | ecocalc/Parser.py:89-91 | text written from a recipe whose cardinalities are non-negative integers parses back to both sides; fractional and float cardinalities are not covered |
| EcoParserExamples.SpecifierById | ecocalc/tests/ProductionSpecifierParserTests.py:27-30 | the tokens of `iron_plate` parse to a specifier with only that recipe identifier |
| EcoParserExamples.SpecifierByNumber | ecocalc/tests/ProductionSpecifierParserTests.py:32-35 | the tokens of `#123` parse to a specifier with only recipe number 123 |
| EcoParserExamples.SpecifierWithFractionMultiplier | ecocalc/tests/ProductionSpecifierParserTests.py:37-41 | the tokens of `1.234 iron_plate` parse with the exact multiplier 1.234 |
| EcoParserExamples.SpecifierWithSpeed | ecocalc/tests/ProductionSpecifierParserTests.py:63-69 | the tokens of `14 #123 @constructor 1.25` parse to multiplier 14, recipe 123, facility `constructor` and speed 5/4 |
| EcoParserExamples.SpecifierWithPercentSpeed | ecocalc/tests/ProductionSpecifierParserTests.py:71-77 | the tokens of `14 #123 @constructor 250%` parse likewise with speed 250/100 |
| EcoParserExamples.RecipeWithDefaultCardinalities | ecocalc/tests/RecipeParserTests.py:34-39 | the tokens of `iron + foo -> plate` parse with every cardinality 1 |
| EcoParserExamples.RecipeWithCardinalities | ecocalc/tests/RecipeParserTests.py:41-46 | the tokens of `12 iron + 34 foo -> 9 plate + 2 bar` parse to those counts and names |
| EcoParserExamples.ArrowAfterIdentifierDoesNotLex | ecocalc/Parser.py:29 | `a->b` does not lex: `-` is an identifier character, so `a-` is taken and `>` starts no token |
| NumberTools.Str2Num | Tools.py:25-32 | a string is an `int` exactly when it spells an integer literal; otherwise, and for non-strings, the exact `Fraction`; the value always equals the text's exact fraction |
| NumberTools.Str2NumOfIntText | Tools.py:27-29 | an integer written out reads back as the same `int` |
| NumberTools.Str2NumOfRatio | Tools.py:32 | `"a/b"` reads back as the exact quotient, and a zero denominator is an error |
| NumberTools.Str2NumOfDecimal | Tools.py:32 | `"w.f"` reads back as the exact decimal fraction, not a float |
| SignedRecipe.Names | Recipe.py:26 | the names of a resource tuple, position by position |
| SignedRecipe.TotalDistinct | Recipe.py:176-186 | where names are distinct, the total of a name is its one count |
| SignedRecipe.Scaled | Recipe.py:82-85 | `_scaled_tuple` keeps the length, the names and their order |
| SignedRecipe.TotalScaled | Recipe.py:82-85 | scaling a tuple scales the total of every name |
| SignedRecipe.SummedSpec | Recipe.py:176-186 | the sum lists each name once, in first-seen order, with its total |
| SignedRecipe.SumStep | Recipe.py:180-184 | one item added to the ordered dictionary keeps the summing invariant |
| SignedRecipe.Accumulate | Recipe.py:181-184 | the loop body of `_add_sides`: the item's count joins its name's entry, a new name is appended, and the invariant is kept |
| SignedRecipe.SumStateResult | Recipe.py:185 | the ordered dictionary read out in key order is the sum |
| SignedRecipe.AddSides | Recipe.py:176-186 | `_add_sides` returns exactly the sum of all sides, one entry per name in first-seen order |
| SignedRecipe.SplitPositive | Recipe.py:73-79 | zeros are dropped: every count on either side is positive |
| SignedRecipe.FromInoutTuple | Recipe.py:69-80 | the loop builds exactly the recipe `FromInout` describes |
| SignedRecipe.SplitKeepsTotal | Recipe.py:73-79 | splitting loses nothing: products minus ingredients is the signed total of every name |
| SignedRecipe.SplitKeepsOrder | Recipe.py:73-79 | splitting keeps order: the split of a concatenation is the concatenation of the splits |
| SignedRecipe.SplitMembers | Recipe.py:73-79 | with distinct names, a name is an ingredient exactly when its total is negative and a product exactly when positive |
| SignedRecipe.EmptyRecipe | Recipe.py:57-59 | the empty recipe has net amount 0 of everything, scalar 1, and the given name and rate flag |
| SignedRecipe.ResourcesSpec | Recipe.py:95-100 | the resources are exactly the names on either side, and every other name nets 0 |
| SignedRecipe.ScaledInoutNet | Recipe.py:102-104 | the signed tuple lists each name once and carries the recipe's net amounts |
| SignedRecipe.NetSplit | Recipe.py:102-104 | the net amount is the scaled products' total less the scaled ingredients' |
| SignedRecipe.MulNet | Recipe.py:193-194 | multiplying by `c` multiplies every net amount by `c` |
| SignedRecipe.MulCompose | Recipe.py:193-194 | `__mul__` keeps tuples, name, place and rate flag; two multiplications are one by the product, and by 1 is none |
| SignedRecipe.Add | Recipe.py:188-191 | adding fails with the assertion exactly when the rate flags differ |
| SignedRecipe.AddNet | Recipe.py:188-191 | the sum's net amount of every name is the sum of both net amounts; all counts are positive, a name is an ingredient exactly when that sum is negative and a product when positive; scalar 1, no name |
| SignedRecipe.MatchItem | Recipe.py:31 | a matched name is nonempty and made of letters, digits, `-` and `_` |
| SignedRecipe.MatchItemWithCardinality | Recipe.py:31 | digits, a blank and a name match as that cardinality and name |
| SignedRecipe.MatchItemBare | Recipe.py:31 | a name not starting with a digit matches alone, without cardinality |
| SignedRecipe.MatchItemDigitsOnly | Recipe.py:31 | `123` matches as cardinality 12 and name `3`: the digit group gives back its last digit |
| SignedRecipe.ItemCount | Recipe.py:152-162 | a missing cardinality counts 1; without cycle time the count is the cardinality; with an exact cycle time `t` it is `cardinality / t * 60`; a zero cycle time is `ZeroDivisionError` |
| SignedRecipe.ParsedSide | Recipe.py:144-164 | a parsed side has one resource per piece |
| SignedRecipe.ParsedSideError | Recipe.py:149-150 | the first malformed piece decides the error of the whole side |
| SignedRecipe.ParseRecipeSide | Recipe.py:143-164 | the loop gives exactly the side the pieces between `+` signs parse to |
| SignedRecipe.RecipeOfText | Recipe.py:166-174 | text without `->` is an error; a recipe read has scalar 1 and is a rates recipe exactly when a cycle time is given |
| SignedRecipe.FromStr | Recipe.py:166-174 | `from_str` gives exactly `RecipeOfText` |
| SignedRecipe.SideRoundTrip | Recipe.py:143-164 | a side written as `n name + ...` reads back as those resources |
| SignedRecipe.LastArrow | Recipe.py:30 | the greedy left group ends at the last `->`, which is the written one when the right side holds no `>` |
| SignedRecipe.RecipeRoundTrip | Recipe.py:166-174 | a recipe written as two sides around `->` reads back to both sides |
| Json.Contains | Economy.py:46 | Python's `in` with a text key: a key of an object, an element of a list, a substring of a string; `TypeError` exactly for numbers, booleans and `null` |
| SignedEconomy.SkippedKinds | Economy.py:45-48 | rates mode passes over an object without `"time"`, a list without it, a string without it as a substring, and never a number, boolean or `null`; count mode passes over nothing |
| SignedEconomy.RecipeOfEntry | Economy.py:44-52 | a recipe read from an entry has scalar 1, no place, and is a rates recipe exactly in rate mode; an entry that is not an object or lacks `"recipe"` is an error |
| SignedEconomy.Collect | Economy.py:42-54 | never more recipes than entries |
| SignedEconomy.CollectError | Economy.py:42-54 | the first entry that fails decides the error of the whole list |
| SignedEconomy.ParseRecipes | Economy.py:42-54 | the loop gives exactly `ParsedRecipes` |
| SignedEconomy.CollectKept | Economy.py:44-53 | reading with skips is reading every kept entry in order |
| SignedEconomy.KeptSpec | Economy.py:45-48 | outside rate mode nothing is skipped; an entry is kept exactly when it is not skipped, that is, in rate mode, when `"time" not in entry` is false or raises |
| SignedEconomy.ParsedRecipesSpec | Economy.py:42-54 | one recipe per kept entry, in order, each the recipe read from that entry, with the rate flag of the mode |
| SignedEconomy.ByNameSpec | Economy.py:35 | a name is a key exactly when some recipe carries it, and it maps to the last recipe that does |
| SignedEconomy.StringEntries | Economy.py:44-52 | entries that are all strings give no recipe: none when every one is passed over, otherwise the `TypeError` of indexing a string |
| SignedEconomy.CharRecipes | Economy.py:44-52 | a string of recipes, visited character by character, gives no recipe in rates mode and fails in count mode unless it is empty |
| SignedEconomy.KeyRecipes | Economy.py:44-52 | an object of recipes, visited key by key, gives no recipe, and an empty one gives none without error |
| SignedEconomy.KeyRecipesAnyOrder | Economy.py:44-52 | visiting the keys in any order gives what `KeyRecipes` gives |
| SignedEconomy.RecipesOf | Economy.py:44 | a list gives its parsed entries; a string or object gives no recipe or an error; a number, boolean or `null` is not iterable |
| SignedEconomy.NewEconomy | Economy.py:31-36 | an economy keeps the mode and the `"resources"`, holds exactly the recipes `RecipesOf` reads (none unless `"recipes"` is a list), and the named ones by name; an empty list, string or object of recipes gives an economy without recipes |
| SignedEconomy.AllRecipes | Economy.py:38-40 | all recipes, in order |
| SignedEconomy.GetResourceName | Economy.py:56-60 | both tests are Python's `in`: an identifier not in the resources gives itself; an object resource with `"name"` gives that name; a resource without `"name"` gives the identifier; only `TypeError` is raised, exactly where `in` or text indexing fails (resources or resource a number, boolean or `null`; a list or string that contains the identifier; a list or string resource that contains `"name"`) |
| SignedEconomy.AfterCardinality | Economy.py:29 | what follows the cardinality is a name group |
| SignedEconomy.MatchDescriptor | Economy.py:29 | a matched name is a name group, and a matched cardinality is nonempty text of digits, `/` and `.` |
| SignedEconomy.DescriptorRoundTrip | Economy.py:29 | a descriptor written as cardinality, optional `%`, blank and name matches as those parts |
| SignedEconomy.DescriptorBareName | Economy.py:29 | a name that does not start with a cardinality character matches alone |
| SignedEconomy.DescriptorDigitsOnly | Economy.py:29 | `123` matches as cardinality `12` and recipe name `3` |
| SignedEconomy.CardinalityNumber | Economy.py:68-78 | text with `/` is its exact fraction; otherwise an `int` when it spells one; text `float` rejects is a `ValueError`, text it reads a `FloatValue` report |
| SignedEconomy.TwoPointsRefused | Economy.py:74-78 | every cardinality of digits and points with at least two points and no slash is refused by `int` and by `float`: a `ValueError` |
| SignedEconomy.OneTwoThreeRefused | Economy.py:74-78 | the cardinality `1.2.3` is a `ValueError` |
| SignedEconomy.DescriptorScalar | Economy.py:68-81 | no cardinality is scalar 1; a cardinality is its number; with `%` an exact fraction is divided by 100 |
| SignedEconomy.Percent | Economy.py:80-81 | `%` divides an exact fraction by 100 and leaves a scalar without `%` unchanged |
| SignedEconomy.SelectAsWritten | Economy.py:83-87 | a plain name selects exactly the recipe of that name, and fails when none has it |
| SignedEconomy.SelectNumber | Economy.py:83-85 | `#n` selects the recipe at Python index `n - 1`, negative indices counting from the end |
| SignedEconomy.HashZeroSelectsLast | Economy.py:83-85 | as written, `#0` selects the last recipe |
| SignedEconomy.Select | Economy.py:83-87 | `#n` selects the `n`-th recipe and succeeds exactly for `1 <= n <=` the number of recipes; it agrees with the code wherever `n >= 1` |
| SignedEconomy.GetRecipeByDescriptorAsWritten | Economy.py:62-88 | a descriptor the pattern does not match is a parse error |
| SignedEconomy.ScaleByAlwaysFails | Economy.py:88 | as written, no descriptor yields a recipe: one that gets through matching, scalar and selection ends in `AttributeError` on `scale_by` |
| SignedEconomy.GetRecipeByDescriptor | Economy.py:62-88 | an unmatched descriptor is a parse error; a result is the selected recipe multiplied by the descriptor's scalar |
| SignedEconomy.DescriptorByName | Economy.py:62-88 | a bare recipe name gives that recipe unscaled |
| SignedResolver.AppliedNetAppend | RecipeResolver.py:58-69 | what a list of applications contributes adds up over concatenation |
| SignedResolver.ScaledApps | RecipeResolver.py:68-69 | merged applications keep their length, indices, recipes and names; only scalars are multiplied |
| SignedResolver.AppliedNetScaled | RecipeResolver.py:66-69 | scaling every application's scalar by `c` scales their contribution by `c` |
| SignedResolver.MergedNet | RecipeResolver.py:66-69 | a resolution merged with factor `c` contributes `c` times its running sum |
| SignedResolver.MergeStep | RecipeResolver.py:66-69 | merging keeps the running sum equal to what the applications contribute |
| SignedResolver.AppendStep | RecipeResolver.py:58-64 | appending keeps the running sum equal to what the applications contribute |
| SignedResolver.KeysFromBackSpec | RecipeResolver.py:44-48 | the grouping keys are distinct and are exactly the recipe indices used |
| SignedResolver.EarliestSpec | RecipeResolver.py:45-47 | the walk from the back keeps, for every index, its earliest application |
| SignedResolver.ScalarSumAppend | RecipeResolver.py:48 | index sums add up over consecutive runs of applications, and an unused index sums to 0 |
| SignedResolver.PseudosAppend | RecipeResolver.py:54-56 | pseudo applications come out last one first |
| SignedResolver.PseudosMembers | RecipeResolver.py:54-56 | the pseudo applications yielded are exactly those without a recipe index |
| SignedResolver.GroupedSpec | RecipeResolver.py:41-56 | one entry per recipe index, each with its earliest application's recipe and name and the sum of its scalars, then the pseudo applications |
| SignedResolver.Tally | RecipeResolver.py:44-48 | the first loop of `grouped_applications` yields the grouping keys in first-met order from the back, the earliest application per index and, for exactly those keys, the sum of the index's scalars |
| SignedResolver.ResolvedRecipe.constructor | RecipeResolver.py:29-31 | the empty non-rate recipe, no applications, and the running sum agrees with them |
| SignedResolver.ResolvedRecipe.GroupedApplications | RecipeResolver.py:41-56 | the two loops yield exactly `Grouped` of the applications |
| SignedResolver.ResolvedRecipe.AddToRecipe | RecipeResolver.py:59 | adding fails with the assertion exactly for a rate recipe; otherwise the running sum is the old sum plus the scaled recipe, net amount by net amount |
| SignedResolver.ResolvedRecipe.Push | RecipeResolver.py:58-64 | the step shared by both appends: a rate recipe fails with the assertion and changes nothing; otherwise the scaled recipe is added to the running sum, net amount by net amount, and the application recorded last |
| SignedResolver.ResolvedRecipe.Append | RecipeResolver.py:58-60 | `append` adds the scaled recipe to the running sum and one application at the end; a rate recipe fails and changes nothing |
| SignedResolver.ResolvedRecipe.AppendPseudoRecipe | RecipeResolver.py:62-64 | the same for a pseudo recipe, recorded without index and under its name |
| SignedResolver.ResolvedRecipe.AppendScaled | RecipeResolver.py:68-69 | the loop of `merge` appends every application in order with its scalar multiplied, and leaves the sum alone |
| SignedResolver.ResolvedRecipe.Merge | RecipeResolver.py:66-69 | `merge` adds the other resolution times `scalar` to the running sum and appends its applications scaled, keeping sum and applications in agreement |
| SignedResolver.UnitShare | RecipeResolver.py:103 | a recipe applied with the inverse of the amount of `x` it yields yields exactly one `x` |
| SignedResolver.UnitResolution | RecipeResolver.py:102-103 | a fresh resolution with one application that yields exactly one unit of the resource and nothing outside the recipe's resources; a rate recipe fails |
| SignedResolver.CoveredStart | RecipeResolver.py:88-92 | before the walk the ingredients cover everything the sum consumes |
| SignedResolver.CoveredMerge | RecipeResolver.py:91-92 | merging an ingredient's resolution scaled by its count keeps the walk's invariant |
| SignedResolver.CoveredSkip | RecipeResolver.py:91 | skipping an ingredient that no recipe produces keeps the invariant |
| SignedResolver.CoveredEnd | RecipeResolver.py:88-92 | after the walk no producible resource is consumed |
| SignedResolver.RecipeResolver.constructor | RecipeResolver.py:80-82 | the resolver starts with an empty cache |
| SignedResolver.RecipeResolver.ResolveIngredient | RecipeResolver.py:107-111 | a cached resource is answered from the cache unchanged; otherwise the answer is cached; every cached entry is none exactly for an unproducible resource and otherwise a resolution yielding one unit of it; old entries stay |
| SignedResolver.RecipeResolver.DoResolve | RecipeResolver.py:94-105 | none for a resource no recipe produces; a count of 0 is `ZeroDivisionError`; a rate recipe fails; otherwise a fresh resolution yielding exactly one unit and consuming no producible resource |
| SignedResolver.RecipeResolver.ResolveRecipe | RecipeResolver.py:88-92 | only applications are added; only resources ranked below the ingredients change; afterwards no producible resource is consumed |
| SignedResolver.RecipeResolver.MergeCached | RecipeResolver.py:92 | merging a cached resolution adds it scaled to the running sum and leaves the cache valid |
| SignedResolver.RecipeResolver.ResolveItem | RecipeResolver.py:89-92 | one turn of the walk keeps its invariant, or fails leaving the running sum as it was |
| SignedResolver.RecipeResolver.Recurse | RecipeResolver.py:113-119 | a fresh resolution whose first application is the recipe as a pseudo recipe, in which no producible resource is consumed; a rate recipe fails with the assertion |
| SignedResolution.PutKeys | RecipeResolution.py:48 | assigning a dictionary key keeps the keys in place and appends a new one |
| SignedResolution.PutGet | RecipeResolution.py:48 | after the assignment the key maps to the new value and every other key keeps its value |
| SignedResolution.PutDistinct | RecipeResolution.py:48 | dictionary keys stay distinct |
| SignedResolution.SubstituteSpec | RecipeResolution.py:48 | the substitution of the index grows by the scalar, every other index keeps its substitution, keys stay distinct |
| SignedResolution.Start | RecipeResolution.py:25-28 | a new resolution holds its recipe and no substitutions |
| SignedResolution.Clone | RecipeResolution.py:39-42 | the clone has the same sum recipe and the same substitutions under the same keys |
| SignedResolution.Apply | RecipeResolution.py:44-49 | a zero count divides by zero; otherwise it fails exactly when the rate flags differ; on success every old key survives and the reference's index gains `source_scalar / count` |
| SignedResolution.ApplySubstitutions | RecipeResolution.py:48 | an application adds `source_scalar / count` to its own index only and keeps the keys distinct |
| SignedResolution.ApplyNet | RecipeResolution.py:45-47 | an application adds the reference's recipe scaled by `source_scalar / count` to every net amount of the sum recipe |
| SignedResolution.ApplyCancels | RecipeResolution.py:45-47 | when the count is what the recipe yields of the ingredient, the application yields exactly `source_scalar` of it |
| SignedResolution.Insert | RecipeResolution.py:35 | inserting a new key into an ascending list gives an ascending list with exactly one more key |
| SignedResolution.SortKeys | RecipeResolution.py:35 | the distinct keys come out ascending, none lost and none added |
| SignedResolution.IterSpec | RecipeResolution.py:34-37 | iteration visits every substituted index once in ascending order, each recipe scaled by its own substitution |
| SignedResolution.Recurse | RecipeResolution.py:51-57 | the walk yields the resolution itself first, and every resolution it yields keeps every substitution key it started with |
| SignedResolution.StartAccounts | RecipeResolution.py:25-28 | a new resolution's sum recipe is its recipe plus nothing substituted |
| SignedResolution.ApplyAccounts | RecipeResolution.py:44-49 | an application keeps the sum recipe equal to the start recipe plus the economy's recipes scaled by their substitutions |
| SignedResolution.SubstituteNet | RecipeResolution.py:47-48 | adding to an index's substitution adds that recipe, scaled, to what the substitutions contribute |
| SignedResolution.RecurseAccounts | RecipeResolution.py:51-57 | every resolution the walk yields has as sum recipe the start recipe plus the economy's recipes scaled by their substitutions |
| LegacyItems.SameKey | legacy/Items.py:29-30 | items whose names agree up to ASCII case are the same dictionary key |
| LegacyItems.CountAbsent | legacy/Items.py:87-88 | an item that is not a key counts 0 |
| LegacyItems.CountAt | legacy/Items.py:87-88 | a key's count is the count stored under it |
| LegacyItems.AddToKeys | legacy/Items.py:71-76 | `add` introduces no key other than the item's |
| LegacyItems.AddToWellFormed | legacy/Items.py:71-76 | `add` keeps the keys distinct and never leaves a zero count behind |
| LegacyItems.AddToCount | legacy/Items.py:71-76 | `add` raises the item's count by the cardinality and changes no other count |
| LegacyItems.AddToAbsent | legacy/Items.py:74 | a new item with a non-zero cardinality is inserted at the end |
| LegacyItems.AddAllCount | legacy/Items.py:78-80 | `add_all` raises every count by the cardinality times the other's count, and keeps the dictionary well formed |
| LegacyItems.SideSpec | legacy/Items.py:47-57 | each side of `src_dest` is well formed, holds only positive counts, and counts an item's negative part (sources) or positive part (destinations) |
| LegacyItems.SrcDestSplit | legacy/Items.py:47-57 | no item is on both sides, and destination minus source is the original count |
| LegacyItems.SplitStep | legacy/Items.py:50-54 | one turn of the loop adds a negative entry negated to the sources, anything else to the destinations |
| LegacyItems.Items.constructor | legacy/Items.py:43-45 | a new collection is empty and not frozen |
| LegacyItems.Items.Len | legacy/Items.py:96-97 | the length is 0 exactly when every item counts 0 |
| LegacyItems.Items.Add | legacy/Items.py:71-76 | a frozen collection fails the assertion and keeps its entries; otherwise the entries become `AddTo` of the old ones |
| LegacyItems.Items.AddAll | legacy/Items.py:78-80 | adds the other collection scaled by the cardinality; fails the assertion when frozen and there is something to add |
| LegacyItems.Items.Freeze | legacy/Items.py:59-60 | the collection is frozen and its entries unchanged |
| LegacyItems.Items.TheItem | legacy/Items.py:62-66 | succeeds exactly when there is one entry, and then gives that entry's item; otherwise the assertion fails |
| LegacyItems.Items.SrcDest | legacy/Items.py:47-57 | two fresh frozen collections holding the sources and the destinations |
| LegacyRecipe.Recipe.constructor | legacy/Recipe.py:30-38 | a recipe keeps its sides and `via`; it has exactly one destination entry |
| LegacyRecipe.Create | legacy/Recipe.py:30-31 | creation succeeds exactly when the destination has one entry, and otherwise fails the assertion |
| LegacyRecipe.AccumulateCount | legacy/Recipe.py:69-77 | the parsed side counts every item as the sum of its terms' cardinalities |
| LegacyRecipe.AbsentMeansZero | legacy/Recipe.py:74-76 | an item whose terms sum to 0 is not a key of the parsed side |
| LegacyRecipe.TermWithoutBlank | legacy/Recipe.py:72-75 | a term without a blank fails: `IndexError` when it is an integer, `ValueError` otherwise |
| LegacyRecipe.TermRoundTrip | legacy/Recipe.py:72-75 | a term written as count, blank, name reads back as that count and name |
| LegacyRecipe.SideRoundTrip | legacy/Recipe.py:69-77 | terms joined with `+` parse back to their accumulated counts |
| LegacyRecipe.ParseSide | legacy/Recipe.py:68-77 | the loop fails exactly as the side parser does and otherwise yields a fresh unfrozen collection with its entries |
| LegacyRecipe.LastCloseUnique | legacy/Recipe.py:28 | the greedy `via` group closes at the last `)` followed by an arrow |
| LegacyRecipe.MatchLineSpec | legacy/Recipe.py:28 | a matched line is exactly its left side, optional `via`, dashes, `>` and right side |
| LegacyRecipe.LineRoundTrip | legacy/Recipe.py:28 | a well-shaped line matches back to its own parts |
| LegacyRecipe.LineMatched | legacy/Recipe.py:28 | every well-shaped line matches |
| LegacyRecipe.HyphenatedLhsUnmatched | legacy/Recipe.py:28 | a second hyphen in the left side before the arrow stops the match |
| LegacyRecipe.ParsedLine | legacy/Recipe.py:79-88 | a parsed recipe has one destination entry |
| LegacyRecipe.ParsedLineSpec | legacy/Recipe.py:80-88 | an unmatched line is a `ParseError`; otherwise both sides are well formed and `via` is the matched group |
| LegacyRecipe.ParseLine | legacy/Recipe.py:79-88 | fails exactly as `ParsedLine` does, otherwise a fresh recipe with its parts |
| LegacyRecipe.ShowPlainMatches | legacy/Recipe.py:93-95 | a recipe printed without `via` matches the line pattern again |
| LegacyRecipe.ShowViaUnmatched | legacy/Recipe.py:96-97 | a recipe printed with `via` does not match the line pattern, since `--(` is two dashes |
| LegacyRecipePath.NetCount | legacy/RecipePath.py:42-49 | the summed items count every item as the steps' cardinality-weighted destination minus source amounts |
| LegacyRecipePath.PathSides | legacy/RecipePath.py:42-50 | sources and destinations are well formed and positive, no item is on both, and they split the path's net amount |
| LegacyRecipePath.CalcSrcDest | legacy/RecipePath.py:42-50 | the loop returns fresh frozen collections equal to `Src` and `Dest` of the path |
| LegacyRecipePath.AppliedShape | legacy/RecipePath.py:97-104 | succeeds exactly when every recipe is chosen; then the old steps stay at the end and each new step is prepended, last recipe first |
| LegacyRecipePath.ScaledToRequirement | legacy/RecipePath.py:100-102 | the new step's cardinality times what the recipe produces is what the path requires |
| LegacyRecipePath.SubstitutionBalances | legacy/RecipePath.py:97-104 | substituting a producer leaves the path needing none of its product and keeps what the path makes of it |
| LegacyRecipePath.ChoicesShape | legacy/RecipePath.py:109-114 | each choice list holds the producers of one source item and then `None` |
| LegacyRecipePath.ApplyEachError | legacy/RecipePath.py:116-119 | the loop as written can only fail with `AttributeError`, and runs through only when no combination mixes producers and `None` |
| LegacyRecipePath.AsWrittenFails | legacy/RecipePath.py:106-119 | with two producible source items the generator as written raises `AttributeError` |
| LegacyRecipePath.AsWrittenWithOneChoice | legacy/RecipePath.py:106-119 | with at most one producible source item the generator as written agrees with the corrected one |
| LegacyRecipePath.Chosen | legacy/RecipePath.py:116-119 | dropping `None` keeps the chosen recipes and is empty exactly for the all-`None` combination |
| LegacyRecipePath.SubstitutedMembers | legacy/RecipePath.py:116-119 | the corrected loop yields a path exactly for the combinations choosing at least one producer |
| LegacyRecipePath.SubstitutionsSpec | legacy/RecipePath.py:106-119 | the corrected generator yields the path itself first, then exactly one path per combination that chooses a producer |
| LegacyRecipePath.PossibleSubstitutionRecipes | legacy/RecipePath.py:109-114 | the loop builds exactly the choice lists |
| LegacyRecipePath.RecipePath.constructor | legacy/RecipePath.py:30-32 | a path keeps its steps and computes its sides |
| LegacyRecipePath.RecipePath.ApplySubstitutionRecipes | legacy/RecipePath.py:97-104 | the insert loop fails or succeeds as `Applied` does and otherwise returns a fresh path with those steps |
| LegacyRecipePath.RecipePath.SubstituteOne | legacy/RecipePath.py:119 | a combination with a producer yields a fresh path with the corrected substitution's steps |
| LegacyRecipePath.RecipePath.Substitutions | legacy/RecipePath.py:106-119 | the path itself, then fresh paths whose steps are exactly the corrected substituted paths |
| LegacyRecipePath.RecipePath.SubstituteEach | legacy/RecipePath.py:116-119 | the loop yields fresh paths whose steps are exactly the corrected substitutions |
| LegacyRecipePath.CreateWithOneRecipe | legacy/RecipePath.py:37-40 | a fresh path of one step with the cardinality, 1 by default |
| LegacyRecipePath.OneStepSides | legacy/RecipePath.py:37-50 | a one-step path needs and makes the recipe's net amounts times the cardinality, split by sign |
| LegacyRecipes.ProducingMembers | legacy/Recipes.py:32-37 | the producers of an item are exactly the recipes whose destination item has its key |
| LegacyRecipes.ProducingPush | legacy/Recipes.py:32-34 | adding a recipe appends it to its own product's producers only |
| LegacyRecipes.SinglePaths | legacy/Recipes.py:62-64 | one path per recipe, in order, each a single step with cardinality 1 |
| LegacyRecipes.StartOf | legacy/Recipes.py:61-67 | every enumerated path ends with a path it started from |
| LegacyRecipes.EnumeratedGrows | legacy/Recipes.py:65-67 | a path enumerated at one length is enumerated again at the next |
| LegacyRecipes.SuffixKept | legacy/RecipePath.py:97-119 | every substitution ends with the path it was made from |
| LegacyRecipes.PathsEndWithRecipe | legacy/Recipes.py:61-67 | every path of any length ends with one recipe's single step |
| LegacyRecipes.PathsGrow | legacy/Recipes.py:61-67 | paths of a length are also paths of the next length |
| LegacyRecipes.SinglePathObjects | legacy/Recipes.py:62-64 | the loop builds valid path objects with exactly the single paths' steps |
| LegacyRecipes.SubstituteAll | legacy/Recipes.py:65-67 | given a function that agrees with `substitutions` on the earlier paths, the loop yields valid path objects whose steps are that function applied to every earlier path, in order |
| LegacyRecipes.PathObjects | legacy/Recipes.py:61-67 | path objects of a length carry exactly the enumeration of that length under a function that agrees with `substitutions` on every earlier round |
| LegacyRecipes.UniqueOf | legacy/Recipes.py:69-74 | the loop keeps the first path of every kind, in order |
| LegacyRecipes.Recipes.constructor | legacy/Recipes.py:28-30 | no recipes and no producers |
| LegacyRecipes.Recipes.Add | legacy/Recipes.py:32-34 | the recipe is appended, and to its product's producers |
| LegacyRecipes.Recipes.RecipesThatProduce | legacy/Recipes.py:36-37 | a copy of the producers of the item; the default dictionary may gain an empty entry, and no producer list changes |
| LegacyRecipes.Recipes.Paths | legacy/Recipes.py:61-67 | `_paths` yields exactly `PathsOf` for the current recipes, an enumeration that substitutes with the corrected `substitutions` |
| LegacyRecipes.Recipes.UniquePaths | legacy/Recipes.py:69-74 | `unique_paths` yields exactly the duplicate-free `PathsOf`, enumerated with the corrected `substitutions` |
| LegacyRecipes.Recipes.IndexValid | legacy/Recipes.py:30-34 | every recipe in the producer index is valid |
| LegacyRecipes.UniquePathsSpec | legacy/Recipes.py:69-74 | no path twice, every path of `_paths` present, in first-seen order |
| LegacyItems.Split | legacy/Items.py:48-54 | the loop fills two fresh unfrozen collections with exactly the sources and the destinations |
| LegacyRecipePath.RecipePath.PushSubstituted | legacy/RecipePath.py:116-119 | a combination that chooses a producer adds one fresh valid path with the corrected substitution's steps; one that chooses none adds nothing |

## Left out

- Reading files and JSON: `EconomyDefinition.load_from_json`, `Economy.from_file`, the legacy `Recipes.parse_file` and `Economy.parse_file`, and `legacy/convert_simple.py`. The model starts from the decoded JSON values (`Json`), because the file system is I/O.
- The command line, logging and packaging (`ecocalc/__main__.py`, `setup_template.py`): they are I/O.
- Floating point: all of `legacy/Economy.py`, `RecipePath.net_value`, `buy_cost` and `sell_value`, which depend on it, and `NumberTools.num2str`. Dafny has no IEEE floats.
- SignedRecipe.ItemCount: an `int` cardinality divided by an `int` cycle time is a float in Python; the model returns a `FloatValue` error there instead of a value.
- SignedEconomy.CardinalityNumber: text that the `float()` fallback reads gives a `FloatValue` error instead of a float; text it rejects is a `ValueError`, as in Python.
- EcoRateScalar.FromDict: for a float value, `60 * value` is a rounded float in Python; the model multiplies the number's exact value. A text or list value is refused with a `TypeError` because the corrected class stores a number. Python keeps such a value for `"upm"` and repeats it sixty times for `"ups"`.
- EcoRateScalar.SameErrorsAsWritten: proved only for objects whose `"value"` is absent or a number. For a text value the version as written succeeds where the corrected one fails, as `EcoRateScalar.TextValueRefused` shows.
- SignedResolver.UnitResolution: RecipeResolver.py:103 computes `1 / recipe_ref.count`, which is an exact `Fraction` for a `Fraction` count but a rounded float for an `int` or `float` count; the model always takes the exact quotient, so its resolution yields exactly one unit where Python's can be off by a rounding error.
- SignedResolver.RecipeResolver.DoResolve: the same exact `1 / recipe_ref.count` as `UnitResolution`, where Python rounds for an `int` or `float` count.
- SignedResolution.Apply: `source_scalar / count` of two `int`s is a float in Python; the model takes the exact quotient, which Python gives only when one of them is a `Fraction`.
- LegacyRecipes.Recipes.Paths: enumerates with the corrected `substitutions` (see "## Findings"). As written, `_paths(n)` for `n >= 2` raises `AttributeError` as soon as a path has two source items that some recipe produces (`LegacyRecipePath.AsWrittenFails`).
- LegacyRecipes.Recipes.UniquePaths: rests on the same corrected enumeration as `Paths`.
- SignedResolution.Iter: `self._eco[index]` (RecipeResolution.py:36) uses an indexing that Economy.py does not define, so with an `Economy` as written `__iter__` raises `TypeError` at the first substitution. The model takes the indexing as the parameter `recipeAt`. No code in the repository constructs a `RecipeResolution`, so the type of `eco` is not fixed by the source.
- SignedResolution.Recurse: `self._eco.get_recipes_that_produce` (RecipeResolution.py:54) is not defined in Economy.py, so with an `Economy` as written `recurse` raises `AttributeError` at the first ingredient. The model takes the lookup as the parameter `candidates`.
- Text.IsWhitespace: ASCII only. Python's `strip`, `split` and regex `\s` also treat `'\x1c'`-`'\x1f'`, `'\x85'`, `'\xa0'` and the other Unicode spaces as whitespace.
- Text.IsDigit: ASCII only. Python's regex `\d`, `int()` and `Fraction()` also accept the other Unicode decimal digits, such as Arabic-Indic ones.
- Text.Lower: ASCII only; Python's `lower()` maps every Unicode letter.
- Numbers.ParseInt: Python's `int()` also accepts underscores between digits (`int('1_000')`); the model refuses them.
- Numbers.ParseFraction: underscores between digits are refused; whether `Fraction()` accepts them depends on the Python version.
- EcoResource.FromDict: a `"name"` that is not a JSON string is refused with a `TypeError`; Python keeps whatever value it is.
- EcoProductionEntity.FromDict: a name or tag that is not a JSON string is refused; Python keeps it.
- EcoRecipe.FieldsOf: an `"at"` or `"name"` that is not a string, or a `"time"` that is not a number, is refused; Python keeps it.
- SignedEconomy.RecipeOfEntry: a recipe name that is not a string is refused; Python keeps it. A recipe text that is not a string is refused here, where Python fails later, inside `Recipe.from_str`.
- SignedEconomy.Percent: an `int` scalar divided by 100 is a float in Python; the model returns a `FloatValue` error there.
- The tpg parser generator behind ecocalc/Parser.py is a foreign library. Its grammar is modelled as a lexer and recursive functions over tokens; the `tpg.Parser` machinery and the module's test driver are not.
- Printing and display: `ecocalc/DisplayPreferences.py`, `RecipeSum.print`, `Recipe._format_side`, `pretty_string`, `__str__`/`__repr__` with number formatting (the percentage in `ProductionEntity.__repr__` among them), `RecipePath.dump`, `Items.dump` and `pretty_str`. They only format text.
- `ecocalc/ProductionSpecifier.py`: its `parse` is an empty stub; the grammar's `ProductionSpecifier` rule is modelled instead.
- `Production.__add__` is not defined in ecocalc/Production.py. `RecipeSum.merge_recipes` therefore takes the addition as a `combine` parameter.
- `get_recipe_that_produces` is not defined in Economy.py. The recursive resolver takes it as the abstract `producer` lookup, together with a ghost rank that must decrease from a recipe to its ingredients' producers, and assumes (in `Ranked`) that the `count` it reports is the net amount of the resource its recipe yields. `UnitResolution`'s single unit and the "consumes no producible resource" of `DoResolve` and `Recurse` rest on both assumptions. The source has no cycle guard and would recurse forever on a cycle.
- SignedResolution.Recurse: `recurse` is bounded by a `fuel` depth. Beyond it the model stops, where the source would go on or, on a cycle, never stop.
- Generators are collected into sequences. How lazily the source produces them is not modelled.
- LegacyRecipes.PathsOf: `_paths(length)` with `length < 1` recurses without end in the source; the model requires `length >= 1`.
- Identity and aliasing: `ResolvedRecipe.merge` of a resolution with itself and `Items.add_all` of a collection into itself are excluded by `other != this` preconditions.
- Dictionaries whose order the code observes are insertion-ordered sequences of pairs. Comparison keys of the legacy classes rest on `Comparable` and its `cmpkey`; `Comparable.py` is not part of this model, and equality by `cmpkey` is assumed.
- `Exceptions.py` is not part of this model: its exceptions are constructors of `Common.Error`.
- The ecocalc `RecipeResolver.resolve` as written loops over specifiers into stubs (`produce_item`, `get_recipe_which_produces` have empty bodies). The model gives `produce_item` the scaling fixed by ecocalc/tests/EcoTests.py and `get_recipe_which_produces` the first filtered producer.

## Findings

| source | as written | input that shows it | evidently intended | confidence | as-written member | corrected member |
|---|---|---|---|---|---|---|
| ecocalc/RateScalar.py:23-28 | the constructor assigns the parameter to itself, so `scalar_upm` and `__repr__` read attributes that do not exist | `RateScalar.from_dict({"unit": "upm", "value": 5}).scalar_upm` raises `AttributeError` | store `self._scalar_upm` | high, not executed | EcoRateScalar.AsWrittenScalarIsLost | EcoRateScalar.UpsIsSixtyUpm |
| ecocalc/EconomyDefinition.py:75-76 | `has_production_entity` reads `_production_entitys` | any identifier, even one `get_production_entity` finds, raises `AttributeError` | read `_production_entities` | high, not executed | EcoEconomy.EconomyDefinition.HasProductionEntityFails | EcoEconomy.EconomyDefinition.GetProductionEntity |
| Economy.py:88 | `get_recipe_by_descriptor` calls `recipe.scale_by`, which `Recipe` does not define | the descriptor `"x"` for a recipe named `x` raises `AttributeError` | `recipe * scalar` | high, not executed | SignedEconomy.ScaleByAlwaysFails | SignedEconomy.DescriptorByName |
| Economy.py:83-85 | `"#n"` takes index `n - 1` with Python's negative indexing | `"#0"` selects the last recipe instead of failing | numbers outside 1 to the number of recipes are an `IndexError` | medium, not executed | SignedEconomy.HashZeroSelectsLast | SignedEconomy.Select |
| legacy/RecipePath.py:106-119 | `substitutions` passes the `None` placeholders to `apply_substitution_recipes`, which reads `None.dest` | a path with two source items that each have a producer: the combination choosing one producer and one `None` raises `AttributeError` | apply only the recipes chosen | high, not executed | LegacyRecipePath.AsWrittenFails | LegacyRecipePath.SubstitutionsSpec |
