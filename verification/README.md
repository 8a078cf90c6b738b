# Ordering: proofs about carts, catalogues, prices, sessions and submissions

A Dafny model of the parts of the restaurant ordering system where correctness depends on more
than one function: what a customer is offered, what makes two cart lines the same, which price may
be acted on, who is signed in while requests race, and which number an order gets. Each module names
the source files it models. Run `dafny verify dfyconfig.toml` in this directory to check everything.

Pure expressions and recursion of the source are functions; loops, in-place updates and objects are
methods and classes, each proved equal to a function about which the theorems are stated. The four
asynchronous parts (session, cart pricing, checkout, account data) are state machines: an event is
one stretch of code between two awaits, renders or effects, events come in any order, replies are
arbitrary, and a theorem about `Run(events)` holds in every reachable state. Beside each machine a
class holds the source's refs and state; each of its methods is proved to do one event, to keep what
every run of the machine keeps (`Ready`), and to give its caller what its row below says.

## What the modules say

- `Sorting`, `Strings`, `Integers`, `Decimals`, `JsonText`, `JsonReading`: insertion of one element at a
  time is a stable sort and decides permutations; trimming, joining, numerals; `JSON.stringify` is
  injective and reads back as RFC 8259 says.
- `CanonicalPayload`, `PayloadFields`, `CartKey`: the canonical form of a builder payload, name by name,
  and the cart key.
- `KeyedLists`, `Cart`, `CartLines`, `CartStore`: the cart as a list that stands for a map from
  configuration to quantity, what each line is after an operation, and the cart provider's methods.
- `MenuText`, `MenuWords`: the normal form of menu names, word by word, and size scopes.
- `Catalog`, `CatalogTheorems`, `CatalogRerun`, `CatalogMeaning`: the customization catalogue, its
  conflict resolution, and what it offers and reports, said of the menu itself.
- `SelectionRules`, `SelectionLimits`: default selections, validation and the price of modifiers.
- `JsonNesting`: the byte loop that limits nesting, against the grammar of RFC 8259.
- `LunchNotes`: the two kitchen summaries of a lunch special and the way back to the customer's note.
- `Session`, `SessionTheorems`, `SessionUsers`, `SessionRefresh`, `SessionProvider`: single-flight token
  refresh under a session generation, who is shown, and what each answer leads to.
- `CartQuotes`, `CartAmounts`, `CartPricing`: which server quote the cart may call current, and whose
  answer its amount is.
- `Checkout`, `CheckoutTheorems`, `CheckoutAmounts`, `CheckoutScreen`: fresh quotes, idempotency keys, the
  submit lock, and the answers of the server that every order rests on.
- `AccountData`, `AccountReplies`, `AccountStore`: account loading and order pagination.
- `OrderNumbers`, `OrderNumberTheorems`: order numbers under concurrent transactions.
- `Pricing`: the arithmetic of the price breakdown.
- `Slugs`: item slugs of the menu import.

## Where the code does less than one might expect

The expected property is stated with the condition under which it holds, exactly where there is one,
and with a concrete case in which it does not.

- A second run of the catalogue on its own result reports nothing, but returns the same groups exactly
  when every offered add-on's size scope, read with the sizes in menu order, is selected
  (`RerunExact`). Without an id conflict that can fail only for an add-on that names two equally long
  sizes (`RerunSame`, `RerunDiffers`).
- The first default selection takes each size group's defaults in the editor's order, the catalogue in
  menu order. The chosen sizes are the same exactly when the first allowed defaults of all size
  groups together name the same sizes in both orders (`ChosenSizesExact`), what the catalogue considers
  is the same exactly when every authorised add-on is in scope for both or for neither
  (`ConsideredExact`), and the catalogue is the same exactly when both passes leave the same options
  (`InitialFixedPointExact`). A product with two default sizes where one is allowed is offered another
  catalogue after its own initial selections (`ExtraDefaultsChangeCatalog`).
- Two lines share a key exactly when their payloads are the same and the four parts in front agree once
  cut at bars (`KeyExactAtBars`); without bars in identifiers, exactly when the identifiers agree once
  sorted, joined and cut at commas (`BarlessKeyExact`). So an option known only by a name with a comma in
  it shares its key with two options (`CommaInOptionNameCollides`), and one with a bar in its name with
  an option and a removed ingredient (`BarInOptionNameCollides`).
- A line added under the key of another is merged into it. The merged line computes the key it is stored
  under exactly when the added line gives its removed ingredients, or the other has none of its own, or
  both have the same (`MergeKeepsKeyExactly`); a run goes through valid carts exactly when all its merges
  are of this kind (`RunValidExactly`), as they are when additions give removed ingredients or no
  identifier holds a bar (`OrderlySafe`). Two lines for which it fails: `BarsLoseKey`.
- Keys that a saved cart brought along are not recomputed. Adding keeps recomputed keys different all
  the same, unless an incompatible merge takes the key of a third line (`AddKeepsComputedExactly`); replacing does exactly when the incoming line's key is stored on another
  line or no other line recomputes to it (`ReplaceKeepsComputedExactly`), and otherwise leaves two lines of
  one configuration (`StaleKeyDuplicates`).
- The canonical form decides configurations if the collation ties neither two names of one object nor two
  different entries of an unordered list (`CanonicalExact`). Tied names make it depend on property order
  (`TiedKeysBreakCanonicalForm`), tied entries on the order of the list (`TiedTextsBreakCanonicalForm`).
- A lunch item whose name opens with the words of the bundle summary loses the first paragraph of its
  note in the application's summary (`SummaryNameLosesFirst`). The note survives exactly if that
  paragraph holds nothing but bars and the others are settled and do not open like a summary
  (`RoundTripExact`); the web's summary never loses it.
- `withSilentRefresh` returns its 401 after it has itself signed the session out, exactly when the refresh
  it waited for was refused definitively; every other return leaves the generation as it was
  (`ReturnedGenerationExact`, `ClearedReturnChangesGeneration`).
- The same order gets a new idempotency key once it has been created (`KeySharedExactly`,
  `CreatedOrderGetsNewKey`).
- The printed lines of a price breakdown add up exactly in the two cases of `LinesAddUp`
  (`LinesNeedNotAddUp`).

## Model

The rows from `MenuText.NormalizeIdempotent` on, at the end, are direct consequences of the definitions.

| member | source | states |
|---|---|---|
| JsonText.StringifyInjective | apps/application/src/context/cart.tsx:203 | the JSON text of a value without undefined parts determines the value |
| JsonText.NoTextAfterBar | apps/application/src/context/cart.tsx:204 | no JSON text is another one preceded by anything and a bar, so a payload can be cut off a key from the right |
| JsonReading.StringifyReads | apps/application/src/context/cart.tsx:203 | the text written for a value is one that RFC 8259, sections 3 to 7, reads as that value, escapes included |
| CanonicalPayload.CanonicalExact | apps/application/src/context/cart.tsx:192-202 | if the collation ties nothing in the first, two payloads have equal canonical forms if and only if they differ only in property order, undefined or display-only properties and the order inside the three unordered lists, at any depth |
| CanonicalPayload.SeparatingUntied | apps/application/src/context/cart.tsx:192-202 | a collation that tells all strings apart ties nothing in any payload |
| CanonicalPayload.CanonicalIsJson | apps/application/src/context/cart.tsx:192-203 | a canonical form holds no undefined part, so its text is faithful |
| CanonicalPayload.CanonicalIdempotent | apps/application/src/context/cart.tsx:192-202 | canonicalising a canonical form changes nothing, where the collation ties nothing |
| CanonicalPayload.SortBeforeCanonicalising | apps/application/src/context/cart.tsx:198-200 | sorting the kept entries before canonicalising their values gives what sorting afterwards gives |
| CanonicalPayload.PayloadTextExact | apps/application/src/context/cart.tsx:203 | the stored payload text is equal exactly for equal configurations |
| CanonicalPayload.TiedKeysBreakCanonicalForm | apps/application/src/context/cart.tsx:200 | with two property names the collation ties, one configuration has two canonical forms |
| CanonicalPayload.TiedTextsBreakCanonicalForm | apps/application/src/context/cart.tsx:196-197 | with two entries of an unordered list whose texts the collation ties, one configuration has two canonical forms |
| PayloadFields.DroppedExactly | apps/application/src/context/cart.tsx:198-199 | leaving a property out keeps the form exactly when it is undefined or named name, flavour_name, child_name, child_slug, salad_name, salad_slug, price_cents or price_delta_cents |
| PayloadFields.ChangeShows | apps/application/src/context/cart.tsx:192-202 | changing one value at any depth changes the form exactly when no property on the way has one of those eight names and the value's own form changes |
| PayloadFields.TextShows | apps/application/src/context/cart.tsx:192-202 | another text anywhere makes another form, unless one of those eight names is on the way |
| PayloadFields.KeyShowsText | apps/application/src/context/cart.tsx:175-205 | cart lines that differ in one text of the payload have different keys, unless one of those eight names is on the way |
| PayloadFields.ExchangedExactly | apps/application/src/context/cart.tsx:195-197 | exchanging two different entries keeps the form exactly in lists named child_addons, removed_ingredients or modifier_selections |
| CartKey.TailSplit | apps/application/src/context/cart.tsx:203-204 | instructions and payload text can be told apart in a key, whatever bars and braces the customer typed |
| CartKey.SameConfigurationSameKey | apps/application/src/context/cart.tsx:175-205 | lines of one configuration have one key, whatever their identifiers hold |
| CartKey.KeyExactAtBars | apps/application/src/context/cart.tsx:175-205 | for all identifiers, keys are equal if and only if the payloads are the same and the four parts in front agree once joined and cut at bars |
| CartKey.BarlessKeyExact | apps/application/src/context/cart.tsx:175-205 | without bars in identifiers keys are equal if and only if identifiers agree once sorted, joined and cut at commas, and everything else as in one configuration |
| CartKey.CartItemKeyExact | apps/application/src/context/cart.tsx:175-205 | bar-free lines of one configuration have one key, and if no identifier is empty or holds a comma, only those; for every instruction text |
| CartKey.CommaInOptionNameCollides | apps/application/src/context/cart.tsx:175-191 | a comma in an option name used as an identifier makes two configurations share a key |
| CartKey.BarInOptionNameCollides | apps/application/src/context/cart.tsx:175-204 | a bar in an option name and one in the instructions make two configurations share a key |
| KeyedLists.FindByKey | apps/application/src/context/cart.tsx:528 | finds the first entry with a key, and none exactly when the key is absent |
| KeyedLists.FilterOutRefines | apps/application/src/context/cart.tsx:554-556 | dropping a key from a list of distinct keys is removal in the map it stands for |
| KeyedLists.ChangeRefines | apps/application/src/context/cart.tsx:558-563 | rewriting an entry in place is an update of the map |
| KeyedLists.InsertRefines | apps/application/src/context/cart.tsx:516-552 | inserting a new key at any place is an insertion into the map |
| Cart.MergeKeepsKeyExactly | apps/application/src/context/cart.tsx:489-508 | merging two lines of one key takes the incoming payload and keeps the recomputed key if and only if the removed ingredients are given, or the other line has none, or their identifiers agree |
| Cart.AddRefines | apps/application/src/context/cart.tsx:478-514 | a safe addition keeps stored keys equal to recomputed ones, keys distinct and quantities positive, and adds to the map |
| Cart.AddKeepsExactly | apps/application/src/context/cart.tsx:478-514 | an addition keeps the cart valid if and only if it is safe: it finds no line of its key, or a compatible one |
| Cart.ReplaceRefines | apps/application/src/context/cart.tsx:516-552 | replacing keeps the same, for all identifiers, and moves the quantity between configurations in the map |
| Cart.ReplaceKeepsPosition | apps/application/src/context/cart.tsx:540-551 | replacing without collision leaves every line where it stood |
| Cart.UpdateRefines | apps/application/src/context/cart.tsx:558-563 | a new quantity updates the map, zero or less removes the line |
| Cart.StepRefines | apps/application/src/context/cart.tsx:478-563 | every safe operation keeps the invariant and acts as the map operation |
| Cart.RunRefines | apps/application/src/context/cart.tsx:478-563 | every run of safe operations from the empty cart keeps the invariant and arrives at the map of the same operations |
| Cart.RunValidExactly | apps/application/src/context/cart.tsx:478-563 | a run is safe if and only if all its carts are valid |
| Cart.OrderlySafe | apps/application/src/context/cart.tsx:478-514 | a run is safe if its additions give their removed ingredients, or if no identifier holds a bar |
| Cart.BarsLoseKey | apps/application/src/components/mobile-combo-builder.tsx:614-627 | two added lines, one without removed ingredients and with a bar in an option name, end on a line stored under another key than it computes |
| Cart.OneLinePerConfiguration | apps/application/src/context/cart.tsx:489-512 | no cart reached by safe operations has two lines of one configuration |
| Cart.AddTwice | apps/application/src/context/cart.tsx:489-508 | adding a configuration again, written in any equivalent way, ends on one line with both quantities |
| Cart.CountConserved | apps/application/src/context/cart.tsx:573-576 | in a valid cart, for all lines and identifiers, the item count changes by exactly what the operation adds, trades or removes |
| Cart.AddKeepsComputedExactly | apps/application/src/context/cart.tsx:478-514 | with different stored keys, stale ones included, adding keeps recomputed keys pairwise different if and only if it finds no line, or a compatible one, or the merged line takes no other line's key |
| Cart.ReplaceKeepsComputedExactly | apps/application/src/context/cart.tsx:516-552 | replacing keeps recomputed keys pairwise different if and only if the incoming key is stored on another line or no other line recomputes to it |
| Cart.StaleKeyDuplicates | apps/application/src/context/cart.tsx:207-223 | a line edited into what a line with a stale key holds leaves two lines of one configuration where there were none |
| CartLines.RemovedExactly | apps/application/src/context/cart.tsx:152-173 | the removed ingredients of a line are those it gives, and otherwise those its payload lists, by kind of builder |
| CartLines.AddedLines | apps/application/src/context/cart.tsx:478-514 | after an addition the first line of the key has the incoming name, price and instructions, the summed quantity and the incoming or else the old picture; without one the incoming line is appended, its removed ingredients normalised; every other line is unchanged |
| CartLines.ReplacedLines | apps/application/src/context/cart.tsx:516-552 | after a replacement the line is the incoming one, its removed ingredients normalised, or the line it meets keeps everything but the quantity and a missing picture; every other line is unchanged and in order |
| CartLines.UpdatedLines | apps/application/src/context/cart.tsx:554-563 | a quantity of zero or less takes out the lines of the key, any other changes their quantity and nothing else |
| CartStore.CartProvider.AddItem | apps/application/src/context/cart.tsx:478-514 | the state update is the add operation, on any cart: the first line of the key takes the incoming name, price and payload and the summed quantity, or the line is appended as given with its removed ingredients; a ready cart stays ready if and only if the addition is safe, and then it adds to the map |
| CartStore.CartProvider.ReplaceItem | apps/application/src/context/cart.tsx:516-552 | the state update is the replace operation, on any cart: the moved line is the incoming one in the old place, or the line it meets takes its quantity and a missing picture, and every other line is unchanged |
| CartStore.CartProvider.RemoveItem | apps/application/src/context/cart.tsx:554-556 | the state update is removal in the map |
| CartStore.CartProvider.UpdateItemQuantity | apps/application/src/context/cart.tsx:558-563 | the state update is the quantity update in the map |
| MenuText.NormalizeNormal | packages/customization/src/index.ts:29-32 | a normalised text is words of letters and digits with single spaces |
| MenuText.NormalUnchanged | packages/customization/src/index.ts:29-32 | a text already of that form is its own normal form |
| MenuWords.NormalizeWord | packages/customization/src/index.ts:29-32 | a word of ASCII letters and digits is normalised to itself in lower case |
| MenuWords.NormalizeCut | packages/customization/src/index.ts:29-32 | any other character but an ampersand parts a text into words with one space between |
| MenuWords.NormalizeAmpersand | packages/customization/src/index.ts:31 | an ampersand is the word "and" |
| MenuText.ResolveExact | packages/customization/src/index.ts:39-49 | a mapping resolves to an identity if and only if that is the one identity it may mean |
| MenuText.ScopeLongest | packages/customization/src/index.ts:65-68 | the scope is a longest mentioned size, and is absent exactly when none is mentioned |
| MenuWords.ScopeExact | packages/customization/src/index.ts:65-68 | the scope is the first of the longest size names that occur as words of the name, and there is none exactly when none occurs |
| MenuText.ScopeOfPermutation | packages/customization/src/index.ts:65-68 | an unambiguous name has one scope for every order of the sizes |
| Catalog.CustomizationCatalog | packages/customization/src/index.ts:77-121 | the two passes compute the positional description of groups and issues, which `CatalogMeaning` says of the menu itself |
| Catalog.FirstPass | packages/customization/src/index.ts:97-111 | the traversal records every class in order, every repeated id and its issues |
| Catalog.RecordOption | packages/customization/src/index.ts:100-111 | one option extends what the maps record by exactly its row |
| Catalog.SecondPass | packages/customization/src/index.ts:112-118 | the class loop reports and excludes what each class calls for |
| CatalogMeaning.ResolvesExact | packages/customization/src/index.ts:39-49 | a saved mapping resolves to an ingredient exactly when it names nothing internal and every ingredient it fits, as it is or without ampersands, is that one |
| CatalogMeaning.EligibleExact | packages/customization/src/index.ts:78-94 | an option is considered exactly when its group is no add-on group, or the product permits it (an always-allowed one only in a group scoped to the product, any other by its one ingredient, and only from the product's own "additional ingredients" groups if it has any) and the size it is meant for is selected |
| CatalogMeaning.ConsideredOptions | packages/customization/src/index.ts:83-95 | each group is considered in menu order with exactly its wanted options, as often as it has them |
| CatalogMeaning.OfferedAreWanted | packages/customization/src/index.ts:83-120 | every option offered stands in its group on the menu and meets those conditions |
| CatalogMeaning.SameExtraExact | packages/customization/src/index.ts:108 | two permitted add-ons have one class key exactly when they agree in name without a leading "add" or "extra", in ingredient or in being always allowed, and in flavour |
| CatalogMeaning.OfferedExact | packages/customization/src/index.ts:96-120 | a considered option is offered exactly when no other place has its id and, in a group of free extras, it comes first among the places of the same extra, which all have its price |
| CatalogMeaning.IssuesExact | packages/customization/src/index.ts:96-118 | reported are exactly each repeat of an id, with the first group that has it, and each extra offered twice or more, as a price conflict if prices differ and as a duplicate otherwise |
| CatalogMeaning.OrderExact | packages/customization/src/index.ts:83-94 | groups are offered by sort order and id, options by sort order with none as zero, then defaults first, then by name |
| CatalogTheorems.SurvivorExact | packages/customization/src/index.ts:100-120 | an option survives exactly when its id is unrepeated and, for an extra, it is first of a class that agrees on the price |
| CatalogTheorems.SurvivingIdsUnique | packages/customization/src/index.ts:101-105 | surviving ids are globally unique, repeated ids survive nowhere |
| CatalogTheorems.ClassSurvivor | packages/customization/src/index.ts:112-120 | of each class exactly its first row remains, if prices agree and its id is unrepeated, otherwise nothing |
| CatalogTheorems.ClassKeyExact | packages/customization/src/index.ts:108 | the joined class key is equal exactly when name, ingredient and flavour agree, in spite of its separators |
| CatalogRerun.CatalogKeepsGroups | packages/customization/src/index.ts:83-120 | the groups are a permutation of the product's groups |
| CatalogRerun.OfferedAddons | packages/customization/src/index.ts:85-94 | every offered add-on is authorised and in a selected size scope |
| CatalogRerun.CatalogSorted | packages/customization/src/index.ts:83-94 | groups and options are in menu order after exclusions too |
| CatalogRerun.CatalogClashFree | packages/customization/src/index.ts:96-120 | no two offered options share an id or a class |
| CatalogRerun.SecondRun | packages/customization/src/index.ts:77-121 | a second run drops exactly the options out of scope and reports nothing |
| CatalogRerun.RerunExact | packages/customization/src/index.ts:77-121 | a second run returns the same groups if and only if every offered add-on is in scope in menu order |
| CatalogRerun.RerunSame | packages/customization/src/index.ts:77-121 | without id conflict and ambiguous size names the catalogue is a fixed point |
| CatalogRerun.RerunDiffers | packages/customization/src/index.ts:65-68 | with two equally long sizes in an add-on's name a second run differs |
| SelectionRules.ValidateSelections | packages/customization/src/index.ts:207-220 | the loop over the groups gives the verdict of the declarative rules |
| SelectionRules.CheckGroup | packages/customization/src/index.ts:213-217 | one group's checks in the source's order |
| SelectionLimits.AcceptedExact | packages/customization/src/index.ts:207-220 | a selection is accepted exactly when it names known groups only and each group's picks are its own options, picked once, at least the minimum and one if required, at most the maximum and one in a single choice |
| SelectionLimits.RejectedFor | packages/customization/src/index.ts:213-217 | a selection of known groups is rejected for the first group it does not satisfy, as stale, too few or too many, under the label the group shows |
| SelectionLimits.DefaultsExact | packages/customization/src/index.ts:123-126 | a group starts with the ids of its preselected options in order, as many as its limit takes |
| SelectionRules.TotalChargesOnce | packages/customization/src/index.ts:207-224 | accepted selections are charged the sum over the selected ids, each once and none left out |
| SelectionRules.TotalIgnoresOrder | packages/customization/src/index.ts:222-224 | the total does not depend on the order of the selection lists |
| SelectionRules.InitialFixedPoint | packages/customization/src/index.ts:123-140 | where each size group's defaults fit its limit, the catalogue under the initial selections has the groups they were taken from |
| SelectionRules.ChosenSizesExact | packages/customization/src/index.ts:79-83 | without an id conflict, the default and the initial selections choose the same sizes if and only if the first allowed defaults of all size groups together name the same sizes in editor and in menu order |
| SelectionRules.ConsideredExact | packages/customization/src/index.ts:83-94 | the default and the initial selections have the same groups considered for conflicts if and only if every authorised add-on is in scope for both or for neither |
| SelectionRules.InitialFixedPointExact | packages/customization/src/index.ts:123-140 | the same scopes give the same catalogue under the default and the initial selections, where neither reports an issue only they do, and in general it is the same if and only if both passes leave the same options |
| SelectionRules.CatalogsExact | packages/customization/src/index.ts:83-120 | two selections have the same catalogue if and only if they leave the same options considered and not excluded |
| SelectionRules.InitialVerdict | packages/customization/src/index.ts:138-140 | initial selections are never stale or too many, and accepted exactly when defaults meet every minimum |
| SelectionRules.ExtraDefaultsChangeCatalog | packages/customization/src/index.ts:77-140 | a product with two default sizes where one is allowed, whose catalogue under its own initial selections differs |
| JsonNesting.Verify | apps/api/src/app.setup.ts:15-27 | the byte loop is the scanner's run over the buffer |
| JsonNesting.ValueScan | apps/api/src/app.setup.ts:17-26 | from any depth a value is refused exactly when it nests past the limit, otherwise the depth is restored |
| JsonNesting.TextScan | apps/api/src/app.setup.ts:15-27 | for every RFC 8259 text in UTF-8 the scanner refuses if and only if nesting exceeds 16, and otherwise ends at depth 0 outside strings |
| LunchNotes.AddSpecialInstructions | apps/application/src/components/menu-item-builder.tsx:198-213 | the text is the dish, then "No ..." and "Add ...", then the note, with bars between; it is read back as the settled note, for clean names, under every name of the lunch item |
| LunchNotes.BuildSpecialInstructions | apps/web/src/components/lunch-special-builder.tsx:214-232 | the text is "Lunch item: dish", then "No: ..." and "Add: ...", then the note, with bars between; it is read back as the settled note, for clean names |
| LunchNotes.RoundTrip | packages/customization/src/index.ts:143-159 | parsing what the application or the web printed gives the settled note, for every note and clean names |
| LunchNotes.SummaryReads | apps/web/src/components/lunch-special-builder.tsx:214-232 | a summary is its opening, what to leave out, what to add and the note, in the words of either client |
| LunchNotes.OtherNoteTrimmed | packages/customization/src/index.ts:147-148 | the one-paragraph text of any other item comes back trimmed, and a bundle summary is dropped |
| LunchNotes.OneParagraphNote | packages/customization/src/index.ts:151-158 | a note of one paragraph comes back with its bars evened out |
| LunchNotes.PlainNoteReturned | packages/customization/src/index.ts:143-159 | a trimmed note without bar and blank line comes back unchanged |
| LunchNotes.RoundTripExact | packages/customization/src/index.ts:147 | for every note and clean names, the note survives if and only if the child's name does not open like the bundle summary, or the first paragraph holds only bars and the later ones are settled and open like no summary |
| LunchNotes.SummaryNameLosesFirst | packages/customization/src/index.ts:147 | for an item named like the bundle summary the parser sees the later paragraphs only, for every note |
| LunchNotes.SettledIdempotent | packages/customization/src/index.ts:147-158 | a settled note settles to itself |
| LunchNotes.EditsNeverAccumulate | apps/application/src/components/menu-item-builder.tsx:263 | after any number of edits and saves, on the web or in the application, also to other lunch items, the note is that of the first round |
| SessionTheorems.SingleFlight | apps/application/src/context/session.tsx:210-245 | at most one unsettled refresh flight per generation, and the current one is the one callers join |
| SessionTheorems.ReleaseForgetsOnlyItsOwn | apps/application/src/context/session.tsx:247-251 | the end of a flight never clears another that is under way |
| SessionTheorems.ReturnedInOneGeneration | apps/application/src/context/session.tsx:259-288 | a returned response means the generation was one at every moment of the call, and at most two requests were made, the second after a 401 |
| SessionTheorems.ReturnedGenerationExact | apps/application/src/context/session.tsx:286-287 | a call returns in the generation it was made in, and right after it the generation has changed if and only if the flight it waited for ended definitively, when it returns its single 401 |
| SessionTheorems.ClearedReturnChangesGeneration | apps/application/src/context/session.tsx:286-287 | a call without refresh token returns its 401 in a later generation |
| SessionTheorems.VisibleUserIsCurrent | apps/application/src/context/session.tsx:177-188 | a visible user came from a response requested in the current generation, and the tokens are that generation's |
| SessionUsers.VisibleUserWasTold | apps/application/src/context/session.tsx:112-149 | in every run a visible user is the one that the last reply of a session fetch of the generation in force named |
| SessionUsers.NamedUserIsShown | apps/application/src/context/session.tsx:136-138 | a 2xx reply naming a user, to a fetch of the generation in force, first or after a refresh, shows exactly that user and ends loading |
| SessionUsers.ErrorKeepsUser | apps/application/src/context/session.tsx:112-149 | an error other than 401 and 403, or no reply, keeps who is shown and ends loading |
| SessionUsers.RefusalRefreshes | apps/application/src/context/session.tsx:123-124 | a first 401, and for a fetch a 2xx that names nobody, waits for a refresh and changes nothing that is shown |
| SessionUsers.OtherRepliesReturned | apps/application/src/context/session.tsx:268-284 | any other reply to a call is returned, and so is the second one whatever it is |
| SessionUsers.RefreshResends | apps/application/src/context/session.tsx:126-131 | after a refresh a fetch asks once more, and a call once the session has been refreshed |
| SessionRefresh.RotationRefreshes | apps/application/src/context/session.tsx:214-240 | a refresh with a token, a 2xx answer and new tokens that are persisted ends refreshed, with the new tokens in memory |
| SessionRefresh.OtherAnswersEnd | apps/application/src/context/session.tsx:214-243 | every other answer ends the refresh with its own outcome |
| SessionRefresh.WaitEnds | apps/application/src/context/session.tsx:210-251 | whoever waits for a refresh goes on with its end, the owner once it has released it |
| SessionRefresh.TemporaryEndResumes | apps/application/src/context/session.tsx:132-146 | after a refresh that failed for the time being a fetch ends loading and a call returns its 401, nobody is signed out and nothing is sent again |
| SessionRefresh.CallAwaitsSession | apps/application/src/context/session.tsx:278-280 | after a refresh a call first refreshes the session |
| SessionProvider.Provider.Value | apps/application/src/context/session.tsx:177-188 | a user is shown only if requested in the generation in force, whose tokens are held, and named by the last reply of a session fetch of that generation |
| SessionTheorems.SignOutExact | apps/application/src/context/session.tsx:105-149 | callers sign the session out exactly on a 403, on a session still unauthenticated after refresh and on a definitive refresh failure, all of the current generation |
| SessionProvider.Provider.ApplySignedOut | apps/application/src/context/session.tsx:105-110 | nobody is shown any more, and every caller and flight so far belongs to an earlier generation |
| SessionProvider.Provider.PerformRefresh | apps/application/src/context/session.tsx:210-245 | the caller waits for nothing if its generation is over, and otherwise for its generation's one flight that callers join, not yet released and the only one that can be unsettled |
| SessionProvider.Provider.FetchAnswered | apps/application/src/context/session.tsx:112-149 | `fetchSession` after a response is one event, signs out exactly on the answers of `SignsOut`, and a response of the current generation that names a user shows that user and ends loading |
| SessionProvider.Provider.FetchResumed | apps/application/src/context/session.tsx:123-142 | `fetchSession` after the refresh is one event, and signs out exactly on a definitive end of its own generation's flight |
| SessionProvider.Provider.CallAnswered | apps/application/src/context/session.tsx:264-275 | `withSilentRefresh` after a response is one event, and signs nobody out |
| SessionProvider.Provider.CallResumed | apps/application/src/context/session.tsx:275-287 | `withSilentRefresh` after the refresh returns in its own generation, changed exactly by a definitive end |
| SessionProvider.Provider.CallSessionRefreshed | apps/application/src/context/session.tsx:278-283 | the call is made a second time, its last, only under the generation it began in, and otherwise raises |
| SessionProvider.Provider.TokenRead | apps/application/src/context/session.tsx:218-220 | a refresh request goes out only for the generation in force, and a missing token counts as definitive only there |
| SessionProvider.Provider.RefreshParsed | apps/application/src/context/session.tsx:230-239 | the compare-and-set never leaves an earlier generation's tokens in memory |
| SessionProvider.Provider.RefreshPersisted | apps/application/src/lib/token-store.ts:214-220 | a refresh is reported exactly if it committed and its generation still stands, whose tokens are then the ones in memory |
| SessionProvider.Provider.ReleaseFlight | apps/application/src/context/session.tsx:247-251 | the released flight is joined no more, and an unsettled flight of the current generation still is |
| CartQuotes.KeyExact | apps/application/src/lib/cart-quote.ts:25-27 | two quote keys are equal if and only if every request field and the customer agree |
| CartQuotes.CurrentQuoteAnswersInput | apps/application/src/hooks/use-cart-pricing.ts:13-31 | a current quote answers the rendered request and customer in every field |
| CartQuotes.OldQuoteNeverRevived | apps/application/src/hooks/use-cart-pricing.ts:17-22 | a current quote was accepted since its key was last arrived at, or by a coupon approved for that key just before; none outlives a refresh |
| CartQuotes.DisplayedQuoteDiffersInTip | apps/application/src/hooks/use-cart-pricing.ts:14-31 | a display-only quote differs from the request in the tip alone |
| CartQuotes.OvertakenReplyIgnored | apps/application/src/hooks/use-cart-pricing.ts:60-71 | a reply to a cancelled or overtaken effect changes neither authority nor prices nor error |
| CartQuotes.CouponHoldsForItsOwnKey | apps/application/src/hooks/use-cart-pricing.ts:82-87 | an approved coupon's quote is current once its selection is rendered, and any other change ends its authority |
| CartQuotes.AnsweredForLatest | apps/application/src/hooks/use-cart-pricing.ts:35-51 | a coupon's reply passes only for the request and customer of the latest render, the selection apart |
| CartAmounts.ShownAmountWasAnswered | apps/application/src/hooks/use-cart-pricing.ts:48-65 | in every run the amount shown as current was answered by the server for exactly the latest render's input and customer, to an effect or with the coupon |
| CartAmounts.DisplayedAmountWasAnswered | apps/application/src/hooks/use-cart-pricing.ts:29-31 | an amount only displayed was answered for that input but for the tip |
| CartAmounts.ReplyInForceIsShown | apps/application/src/hooks/use-cart-pricing.ts:60-71 | the amount that answers an effect in force is shown by the next render of that request; a failure leaves no price and an error for this request |
| CartAmounts.CouponAmountIsAnswer | apps/application/src/hooks/use-cart-pricing.ts:35-51 | the amount answered for a coupon is offered for approval as long as nothing changed in between |
| CartAmounts.EffectStartsExactly | apps/application/src/hooks/use-cart-pricing.ts:53-58 | the server is asked exactly for a ready, loaded, nonempty request that changed or is retried and is not already accepted |
| CartAmounts.TimerAsks | apps/application/src/hooks/use-cart-pricing.ts:35-60 | the server is asked when the timer of an effect fires that was not cancelled, and for a coupon at once |
| CartAmounts.TipChangeStaysOnDisplay | apps/application/src/hooks/use-cart-pricing.ts:29-31 | while only the tip differs from the last accepted quote and the request did not fail, that quote stays on display |
| CartPricing.Hook.Render | apps/application/src/hooks/use-cart-pricing.ts:12-31 | the quote shown as current answers the rendered request and customer, a displayed one differs from it in the tip alone |
| CartPricing.Hook.RunEffects | apps/application/src/hooks/use-cart-pricing.ts:33-76 | at most the latest run of the effect is left uncancelled, and a new one starts only for a ready, hydrated, nonempty request, keeping no price that differs in more than the tip |
| CartPricing.Hook.EffectReplied | apps/application/src/hooks/use-cart-pricing.ts:48-71 | the reply of a cancelled or overtaken effect changes neither authority nor prices nor error; the amount of one in force becomes the priced one, for the input and customer it was asked for |
| CartPricing.Hook.SelectionReplied | apps/application/src/hooks/use-cart-pricing.ts:48-51 | a coupon is offered for approval only with a quote for the latest render's request with that coupon, at the amount answered |
| CartPricing.Hook.AcceptSelection | apps/application/src/hooks/use-cart-pricing.ts:82-87 | the next render shows the coupon's quote if and only if it makes the request that was approved |
| CartPricing.Hook.Refresh | apps/application/src/hooks/use-cart-pricing.ts:88 | nothing is priced, and every effect and coupon request made so far is outdated |
| Checkout.FingerprintDropsToken | apps/application/app/checkout.tsx:579-581 | the fingerprint is the text of the payload without the delivery token |
| Checkout.FingerprintExact | apps/application/app/checkout.tsx:556-581 | fingerprints agree if and only if the payloads agree in everything but the token, for all forms |
| Checkout.KeyExact | apps/application/app/checkout.tsx:206-220 | two checkout keys are equal if and only if every input of the quote request and the customer agree |
| Checkout.ReviewExact | apps/application/app/checkout.tsx:242-244 | two review keys are equal if and only if the forms agree in everything that is reviewed |
| CheckoutTheorems.PostsFollowConfirmedTotal | apps/application/app/checkout.tsx:592-698 | every checkout request posts a form for which the quote shown and an unblocked fresh quote agree in total and tip; both quotes priced that form's order, address, token, tip choice and promotion for that customer, and so the form still on the screen when the first request leaves |
| CheckoutAmounts.PostsRestOnAnswers | apps/application/app/checkout.tsx:592-698 | every order posted rests on an earlier answer of the server, which gave the quote shown, and a later one to its own fresh quote, both for the request of the view ordered from; they agree in amount to pay and tip, decline no reward the form applies, have its code applied, and the posted tip is theirs |
| CheckoutAmounts.FreshReplyExact | apps/application/app/checkout.tsx:592-604 | in every reachable state the fresh answer posts the order exactly if it agrees with the quote shown and grants reward and code; other amounts post nothing, end the attempt and become the quote at hand; no answer, or another order on the screen, ends the attempt and changes nothing else |
| CheckoutAmounts.PostsWereConfirmed | apps/application/app/checkout.tsx:518-553 | every order posted comes from a confirmed press or sign-in in a view with items, a signed-in customer, no pending or failed pricing and, for a delivery, a typed address and a firm delivery quote |
| CheckoutAmounts.PressExact | apps/application/app/checkout.tsx:518-590 | a press starts one attempt exactly if none is under way, the customer confirms and is signed in and the order can be placed; without sign-in it stores the review, otherwise nothing changes |
| CheckoutAmounts.SignedInExact | apps/application/app/checkout.tsx:763-772 | after sign-in the order is submitted exactly if it still waits, is confirmed, can be placed and is the one reviewed at the total reviewed |
| CheckoutAmounts.PricingReplyExact | apps/application/app/checkout.tsx:428-447 | an answer to what the latest view asks is the quote at hand, any other is dropped, and a failure leaves none |
| CheckoutAmounts.RerenderExact | apps/application/app/checkout.tsx:474-476 | a view shows the quote at hand as current exactly if that answers its own request and the view is complete with nothing pending or wrong |
| CheckoutAmounts.PayloadExact | apps/application/app/checkout.tsx:556-577 | the posted order has exactly the fields the server reads, under their names, each once |
| CheckoutAmounts.UpperExact | apps/application/src/lib/promo-selection.ts:129-131 | coupon codes are compared in upper case, letter by letter |
| CheckoutTheorems.SignInKeepsReviewedTotal | apps/application/app/checkout.tsx:763-772 | an order placed by signing in agrees in every reviewed detail and in the total with the view that was reviewed |
| CheckoutTheorems.AttemptsNeverOverlap | apps/application/app/checkout.tsx:519-553 | at most one attempt is under way and exactly then the submit lock is held |
| CheckoutTheorems.RetryResendsTheSame | apps/application/app/checkout.tsx:684-698 | an attempt sends at most two requests, with one payload and one idempotency key |
| CheckoutTheorems.KeySharedExactly | apps/application/app/checkout.tsx:582-590 | attempts share a key if and only if all up to the later one have its fingerprint and none before it succeeded |
| CheckoutTheorems.NextAttemptKey | apps/application/app/checkout.tsx:579-590 | neighbouring attempts share a key if and only if the logical payload is the same and the first did not succeed |
| CheckoutTheorems.CreatedOrderGetsNewKey | apps/application/app/checkout.tsx:717 | the same order placed again after success gets another key |
| CheckoutScreen.Screen.Render | apps/application/app/checkout.tsx:474-476 | the quote shown as current is the quote at hand exactly if that answers this render's own request, delivery token included, and the render is complete with nothing pending or wrong |
| CheckoutScreen.Screen.BuildPayload | apps/application/app/checkout.tsx:556-577 | the payload built field by field is the described one |
| CheckoutScreen.Screen.PlaceOrder | apps/application/app/checkout.tsx:518-590 | a press during an attempt does nothing; an attempt starts only confirmed, signed in and from a view whose quote shows no block |
| CheckoutScreen.Screen.SignedInEffect | apps/application/app/checkout.tsx:763-772 | an attempt started after sign-in is the order and the total that were reviewed |
| CheckoutScreen.Screen.FreshQuoted | apps/application/app/checkout.tsx:594-698 | a request leaves exactly if the fresh answer is for the order on the screen and agrees in amount and tip with the quote shown, with the reward and the code granted; other amounts become the quote at hand and free the lock |
| CheckoutScreen.Screen.Repeat | apps/application/app/checkout.tsx:684-698 | the repeated request carries the same payload and idempotency key |
| CheckoutScreen.Screen.PostReplied | apps/application/app/checkout.tsx:702-735 | no attempt is under way after it, and a created order gives up its idempotency key |
| AccountData.MergeById | apps/application/src/hooks/use-account-data.ts:334-337 | merging puts rows one after another into an insertion-ordered map |
| AccountData.MergeKeepsIds | apps/application/src/hooks/use-account-data.ts:335 | merged ids are distinct and keep the order they first came in |
| AccountData.MergeFinds | apps/application/src/hooks/use-account-data.ts:335 | under each id the last row of the page wins, other rows stay |
| AccountData.MergeExtendsPrefix | apps/application/src/hooks/use-account-data.ts:335 | a page that reaches back into a loaded prefix extends it to a longer prefix |
| AccountData.VisibleDataIsOwn | apps/application/src/hooks/use-account-data.ts:401-405 | shown data came only from requests made under the customer it is shown to, whatever the server answers |
| AccountData.VisibleOrdersArePrefix | apps/application/src/hooks/use-account-data.ts:264-345 | shown orders are a prefix of the customer's list without repetition, and the cursor is where they end |
| AccountData.LockHeldByItsRequest | apps/application/src/hooks/use-account-data.ts:320-347 | the page lock belongs to the one page request of the generation and only that request, or a new generation, takes it away |
| AccountReplies.LoadReplyIsShown | apps/application/src/hooks/use-account-data.ts:232-292 | the reply of the latest load, asked for the customer it is shown to, shows the first orders of the customer's list with the cursor where they end, none if they failed, and the wallet, and ends loading |
| AccountReplies.ForeignLoadShowsNothing | apps/application/src/hooks/use-account-data.ts:232-292 | a load whose requests went out under another customer leaves nothing to show |
| AccountReplies.PageReplyIsShown | apps/application/src/hooks/use-account-data.ts:332-346 | a page of the current generation extends the orders to where the page reaches, keeps the wallet and frees the lock |
| AccountReplies.FailedPageKeeps | apps/application/src/hooks/use-account-data.ts:338-346 | a failed page changes nothing that is shown and frees the lock |
| AccountReplies.PageAskedExactly | apps/application/src/hooks/use-account-data.ts:320-331 | the next page is asked for exactly when the asking customer is the data's, orders are left and nothing is being loaded, from where the orders end |
| AccountReplies.RefreshExact | apps/application/src/hooks/use-account-data.ts:191-304 | a refresh joins its customer's load or starts one, which asks the server exactly if somebody is signed in, and shows nothing if it is known that nobody is |
| AccountReplies.RenderCallsForEffect | apps/application/src/hooks/use-account-data.ts:306-318 | a render makes its user current, and exactly a change of the user or of what is known of the session calls for the effect |
| AccountReplies.OwnerEffectLoads | apps/application/src/hooks/use-account-data.ts:306-318 | the effect starts a load for the latest render from nothing, whatever was under way |
| AccountReplies.EndedLoadMakesRoom | apps/application/src/hooks/use-account-data.ts:297-304 | a load that has ended is joined no more |
| AccountStore.AccountHook.Value | apps/application/src/hooks/use-account-data.ts:400-405 | what is returned is the customer's own, its orders a beginning of their list |
| AccountStore.AccountHook.PerformLoad | apps/application/src/hooks/use-account-data.ts:191-213 | a new load leaves no lock and makes every earlier load and page request a superseded one |
| AccountStore.AccountHook.Load | apps/application/src/hooks/use-account-data.ts:297-304 | the customer's load is under way already and nothing changes, or everything under way is superseded |
| AccountStore.AccountHook.OwnerEffect | apps/application/src/hooks/use-account-data.ts:306-318 | nothing of an earlier customer is left: no data, no cursor, and every earlier load and page request superseded |
| AccountStore.AccountHook.LoadSettled | apps/application/src/hooks/use-account-data.ts:232-292 | a superseded load changes neither data nor owner; any other is one step that keeps the data a prefix of its owner's list |
| AccountStore.AccountHook.LoadMoreOrders | apps/application/src/hooks/use-account-data.ts:320-327 | a page is asked for only under the customer whose data is at hand, without another request out, from where the data ends |
| AccountStore.AccountHook.PageSettled | apps/application/src/hooks/use-account-data.ts:332-346 | the request's lock is given back, a superseded request changes no data, and any other only appends orders to those shown |
| OrderNumbers.OrderStore.AllocateNextOrderNumber | apps/api/src/database/order-number.ts:5-20 | an uninterrupted allocation takes the lock, finds the latest number and returns the next |
| OrderNumberTheorems.CommittedConsecutive | apps/api/src/database/order-number.ts:5-20 | in every interleaving with aborts, and for every lock hash, a location's committed orders are 1001, 1002, and so on |
| OrderNumberTheorems.UniqueIndexNeverRefuses | packages/database/prisma/schema.prisma:723 | the unique index on location and number never refuses an insert |
| OrderNumberTheorems.CommittedStay | apps/api/src/database/order-number.ts:13-19 | committed orders keep their numbers for ever |
| OrderNumberTheorems.CommitAppends | apps/api/src/modules/checkout/checkout.service.ts:1280 | a commit appends the numbers its transaction read, next in line at each of its locations |
| OrderNumberTheorems.OrderIsStored | apps/api/src/database/order-number.ts:5-20 | an uninterrupted transaction that gets the lock stores its order under 1001 plus the number of orders its location has, and leaves nothing held |
| Pricing.TaxWithinHalfCent | packages/pricing/src/engine.ts:25-26 | the tax is never negative and within half a cent of the exact rate |
| Pricing.DiscountLowersPayable | packages/pricing/src/engine.ts:17-33 | a further discount lowers the payable amount by at least itself and at most itself, its tax and a cent |
| Pricing.TaxableFollows | packages/pricing/src/engine.ts:17-24 | while positive, the taxable amount follows the subtotal cent for cent, the discounts if the policy lets them reduce it, the delivery fee and the tip if the policy taxes them, and never the wallet |
| Pricing.TaxableAtRest | packages/pricing/src/engine.ts:19-25 | goods alone are taxable in full, and an amount that discounts use up is not taxed |
| Pricing.LinesAreInput | packages/pricing/src/engine.ts:35-44 | the lines repeat the input, with both discounts taken off the subtotal down to nothing |
| Slugs.SlugifyWellFormed | packages/database/prisma/extract-menu-docx.ts:150-158 | every name gives a well-formed slug |
| Slugs.SlugifyFixed | packages/database/prisma/extract-menu-docx.ts:150-158 | a well-formed slug is its own slug |
| Slugs.SlugOfNormal | packages/database/prisma/extract-menu-docx.ts:150-158 | on ASCII letters the slug of a name is its menu normal form with dashes for spaces, and "item" if that is empty |
| Slugs.ItemSlugs.UniqueSlug | packages/database/prisma/extract-menu-docx.ts:160-169 | returns the first free candidate after at most one try more than there are used slugs |
| Slugs.ItemSlugs.MkItem | packages/database/prisma/extract-menu-docx.ts:271-277 | an item's slug is well formed and new |
| Slugs.Pigeonhole | packages/database/prisma/extract-menu-docx.ts:160-169 | different candidates cannot all lie in a smaller set of used slugs |
| Slugs.IssuedDistinct | packages/database/prisma/extract-menu-docx.ts:271-277 | all slugs of an import are distinct and well formed |
| Slugs.PlainSlugKept | packages/database/prisma/extract-menu-docx.ts:160-169 | a name whose slug is free keeps it unnumbered |
| Slugs.SameNameNumbered | packages/database/prisma/extract-menu-docx.ts:160-169 | items of one name are numbered in the order they come: the name alone, then -2, -3 and so on |
| MenuText.NormalizeIdempotent | packages/customization/src/index.ts:29-32 | normalising a normalised text changes nothing |
| SessionTheorems.EarlierGenerationsHarmless | apps/application/src/lib/token-store.ts:214-220 | no event of an earlier generation's caller or flight touches session, tokens or shown data |
| SessionTheorems.TemporaryFailureKeepsSession | apps/application/src/context/session.tsx:206-208 | a refresh that ends with 5xx, 408, 409, 429, a network error or overtaken signs nobody out |
| AccountData.SupersededRepliesIgnored | apps/application/src/hooks/use-account-data.ts:233 | replies of an earlier generation change nothing that is shown or locked |
| Pricing.TaxIsNearest | packages/pricing/src/engine.ts:26 | no other whole number of cents is nearer |
| Pricing.TaxSplit | packages/pricing/src/engine.ts:26 | taxing two amounts apart or together differs by at most a cent |
| Pricing.LinesAddUp | packages/pricing/src/engine.ts:35-44 | the printed lines add up to the printed total in exactly two described cases |
| Pricing.LinesNeedNotAddUp | packages/pricing/src/engine.ts:35-44 | a breakdown with more discount than subtotal and one with more wallet than total do not add up |

## Left out

- Rendering, styles, navigation, accessibility, modals, AsyncStorage, HTTP, Prisma, sockets and the print agent: replies, reads and writes are events with arbitrary outcomes.
- Liveness: nothing says that a quote, a refresh or a page eventually arrives.
- `localeCompare` is an abstract total preorder that ties what it likes; a theorem says where it must not tie; the default sort of strings compares code points instead of UTF-16 units.
- NFKD, diacritics and letters outside ASCII: text rules are those of the code on ASCII letters.
- Numbers inside JSON values are the numerals the language prints; amounts are integers and `Math.round` is rounding of the exact fraction, so floating point is not modelled.
- The catalogue's set of excluded option objects is modelled by option values, which comes to the same because equal values have equal ids; group fields it only copies are in one record.
- Sorting by insertion stands for the engine's stable sort.
- CartKey.CartItemKeyExact: asks for identifiers without bars, and for its second half without commas, as the catalogue's generated ids are; `KeyExactAtBars` is the statement for all identifiers.
- CartKey.BarlessKeyExact: asks for identifiers without bars, since with them a key is decided by its pieces between bars, as `KeyExactAtBars` states.
- SessionTheorems.ReturnedInOneGeneration: the callbacks `apiCall` and `sessionRefresh` may settle at any time in any way; what they do themselves are further events.
- React renders are taken to see one state: the rendered generation, data and its mask never mix two moments.
- Token persistence order in the token store and its lazily loaded values: only the generation, the compare-and-set and whose tokens are in memory are kept.
- CartQuotes.OldQuoteNeverRevived: for coupon quotes a refresh between the reply and its approval is not excluded, since the two are separate events here.
- `requestCartQuote`: its one or two requests are a single reply, and `quoteItems` is applied before the model's input; the wing and promo rules behind the quote are the server's.
- CheckoutTheorems.PostsFollowConfirmedTotal: compares keys at the press, at the fresh quote and at the request; a key that changed and changed back in between is not told apart. The contact preference and the way to pay are no part of the key. The validity checks of a fresh quote are among its failures.
- Delivery quotes and their expiry: they reach the model as the rendered form and flags; items are as `checkoutItems` sends them. Random idempotency keys are fresh numbers. The commented-out card payment is not modelled.
- AccountData.VisibleOrdersArePrefix: assumes that each customer's list stands still while it is read and that React runs the effects that are due before it handles the next press, which is why `LoadMoreOrders` is called with none due; unmounting is not an event. Wallet, rewards, promotions, addresses and tickets are one value without structure.
- OrderNumberTheorems.CommittedConsecutive: assumes read-committed statements, inserts in the allocating transaction and no deletion of orders; deadlocks and crashes are aborts.
- `inspectCustomizationDraft`, `embeddedSaladCatalog`, the fixed side-and-pop tables, menu parsing, seeds and import scripts, address normalisers and category sorting: tables or single checks that would add easy members.
