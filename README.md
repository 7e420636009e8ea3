# Product import of sphere-sunrise-data, modelled in Dafny

This project models the product import of the sphere-sunrise-data tool. The import reads a CSV file of products into the commercetools platform. It has two parts.

**`ProductImportItemProcessor`** turns the CSV lines of one product into a product draft. The first line carries the product fields, and every line, the first included, carries one variant.

- A variant's prices follow a small grammar, `[CC-]CUR DIGITS[ GROUP][#CHANNEL]`, recognised by a regular expression with `find()`.
- Images and prices are lists separated by `;`.
- Attributes are read according to the attribute types of the product's product type.

**`ProductsImportJobConfiguration`** is the Spring Batch job. It runs three steps in order:
1. It gets or creates the "b2b" customer group.
2. It stores all product types.
3. It imports the product drafts chunk by chunk. Each chunk is filtered by `isUseful`, and one create request is written per remaining draft.

The modules are:
- `Wrappers`: results and nullable values.
- `JavaStrings`: `String.split`, `String.replace` and `startsWith`, with Java's edge cases. `"".split(";")` is `[""]` and `";".split(";")` is `[]`.
- `PriceGrammar`: the price pattern.
  - `MatchAt` is the matcher at one start position. `MatchesAt` is an independent declarative definition: the token's text there is the rendering of the groups, and `$` holds behind it. The two are proved equal (`MatchAtExact`).
  - `Find` is `find()`, proved to return the leftmost match.
- `StreamOps`: `stream.map(f).filter(nonNull).collect(toList())` where `f` may throw.
- `ProductModel`: the entities.
- `ProductImportItemProcessor` and `ProductsImportJobConfiguration`: the two source classes.

The processor is pure and is modelled with functions. The job is a class. Its fields are:
- the platform's customer groups, product types and products (an in-memory store);
- the log of requests sent to the platform;
- the step and job execution contexts.

Each tasklet, step and the writer is a method whose postcondition gives the new state as a function of the old one. The properties are proved as lemmas about those functions.

Some things outside the code are parameters of the model:
- `Resources` holds the lookups of `CachedResources` (product type, customer group id, channel), `CountryCode.getByCode`, and the currency codes that `MoneyImpl` accepts. Each lookup is a map, and an absent key is a `null` answer.
- Binding a line to a `ProductCsvEntry` is a function parameter `bind` that may fail, as `BindException` does.
- The id the platform gives a new customer group is `newId`.
- Whether the platform accepts a product create is `accepted`.
- The chunks the reader delivers are `chunks`.

Behaviour of the code that the model keeps as written:
- **Empty LocalizedString attribute.** An attribute none of whose columns has a value is still emitted, with no entries: `AttributeDraft.of` receives an empty, non-null `LocalizedString` (ProductImportItemProcessor.java:196) and the null-value filter keeps it (`LocalizedStringKeptWhenEmpty`).
- **Unparseable price.** A token the pattern does not match throws "Cannot parse price" (ProductImportItemProcessor.java:128). Only a `BindException` is caught per line (:72-75), so the exception escapes `process` and the whole group fails (`ProcessFailsOnBogusPrice`, `ProcessErrorsEscape`).
- **Set attribute.** A String Set keeps the empty pieces of `split(";")` (ProductImportItemProcessor.java:180): `a;;b` gives `{a, "", b}` and an empty column gives `{""}`. A missing column is a `NullPointerException` (`SetDraftElements`, `SetOfEmptyColumn`, `SetOfDelimiterOnly`, `ParseAttributeErrors`).
- **Channel key.** A channel key is `[A-Za-z0-9_-]+` (ProductImportItemProcessor.java:35).
- **Unanchored start.** The pattern is not anchored at the start, so `find()` may skip leading characters (ProductImportItemProcessor.java:127): `DEU-EUR 100` is read with country `EU` (`ParsePriceUnanchoredStart`).

## Model

| member | source | states |
|---|---|---|
| `JavaStrings.Split` | src/main/java/com/commercetools/dataimport/products/ProductImportItemProcessor.java:180 | `split(";")`. With no delimiter the result is the string itself. Otherwise the result is a prefix of the fields: it ends with a non-empty piece, only empty pieces are dropped, and no piece contains `;`. |
| `JavaStrings.Fields` | src/main/java/com/commercetools/dataimport/products/ProductImportItemProcessor.java:180 | The pieces of a string between delimiters, empty ones included: there is at least one, none contains the delimiter, and a string without the delimiter is its only piece. |
| `JavaStrings.JoinFields` | src/main/java/com/commercetools/dataimport/products/ProductImportItemProcessor.java:102 | `Fields` (the pieces between delimiters, kept all) is an inverse of `Join`: joining the fields with the delimiter gives back the original string. |
| `JavaStrings.FieldsUnique` | src/main/java/com/commercetools/dataimport/products/ProductImportItemProcessor.java:180 | Delimiter-free pieces that join to `s` are exactly `Fields(s)`, so `Fields` is the only such split. |
| `JavaStrings.NonEmpty` | src/main/java/com/commercetools/dataimport/products/ProductImportItemProcessor.java:103 | The `filter(!isEmpty)` result. Every element is non-empty, and a string is in it iff it is in the input and non-empty. |
| `JavaStrings.NonEmptyAppend` | src/main/java/com/commercetools/dataimport/products/ProductImportItemProcessor.java:117-118 | Filtering distributes over concatenation, so order is preserved. |
| `JavaStrings.TokensAreNonEmptyFields` | src/main/java/com/commercetools/dataimport/products/ProductImportItemProcessor.java:102-103 | `Tokens` (`split` then the empty-filter, :102-103 and :117): the trailing empties `split` drops do not matter, the tokens are exactly the non-empty fields, each non-empty and free of `;`. |
| `JavaStrings.RemoveAllAbsent` | src/main/java/com/commercetools/dataimport/products/ProductImportItemProcessor.java:191 | `RemoveAll` (`replace(t, "")`) leaves a string in which `t` does not occur unchanged. |
| `JavaStrings.RemoveLeading` | src/main/java/com/commercetools/dataimport/products/ProductImportItemProcessor.java:191 | `(t + rest).replace(t, "")` is `rest` when `t` does not occur in `rest`. |
| `PriceGrammar.RunEnd` | src/main/java/com/commercetools/dataimport/products/ProductImportItemProcessor.java:35 | A greedy run (`\w+`, `\d+`, `[\w\-]+`) ends within the token, at its end or before a character outside the class. |
| `PriceGrammar.RunEndInClass` | src/main/java/com/commercetools/dataimport/products/ProductImportItemProcessor.java:35 | Every character of a greedy run is in its class. |
| `PriceGrammar.RunEndUnique` | src/main/java/com/commercetools/dataimport/products/ProductImportItemProcessor.java:35 | A run of the class that stops at the end or before a character outside the class is the greedy run: greedy matching leaves no choice. |
| `PriceGrammar.MatchAtSound` | src/main/java/com/commercetools/dataimport/products/ProductImportItemProcessor.java:35 | Whatever the matcher reads at `i` satisfies the pattern: well-formed groups laid out from `i` (country and `-`, currency, space, digits, space and group, `#` and channel), followed by `$`. |
| `PriceGrammar.MatchesAtRendered` | src/main/java/com/commercetools/dataimport/products/ProductImportItemProcessor.java:35 | The pattern matches at `i` with groups `m` iff the groups are well formed, the text at `i` is their rendering, and `$` holds behind it. |
| `PriceGrammar.MatchAtComplete` | src/main/java/com/commercetools/dataimport/products/ProductImportItemProcessor.java:35 | Every way the pattern can match at `i` is the one the matcher reports, so the groups at a given start are unique. |
| `PriceGrammar.MatchAtExact` | src/main/java/com/commercetools/dataimport/products/ProductImportItemProcessor.java:35 | `MatchAt`, the matcher at one start, reports `m` at `i` iff the pattern matches at `i` with groups `m`. |
| `PriceGrammar.FindFrom` | src/main/java/com/commercetools/dataimport/products/ProductImportItemProcessor.java:126-127 | `find()` from `i`: the reported start has a match and no earlier start does; `None` means no start from `i` on has one. |
| `PriceGrammar.FindIsLeftmostMatch` | src/main/java/com/commercetools/dataimport/products/ProductImportItemProcessor.java:126-127 | `Find` (`matcher.find()`) reports the leftmost match, and it reports nothing iff the pattern matches nowhere in the token. |
| `PriceGrammar.FindRendered` | src/main/java/com/commercetools/dataimport/products/ProductImportItemProcessor.java:35 | Round trip: a token written from well-formed groups is found at position 0 with exactly those groups. |
| `PriceGrammar.FindSkipsLeadingChar` | src/main/java/com/commercetools/dataimport/products/ProductImportItemProcessor.java:126-127 | The start is unanchored: with one extra leading character, the price is found at position 1 with the same groups. |
| `PriceGrammar.NoSpaceNoMatch` | src/main/java/com/commercetools/dataimport/products/ProductImportItemProcessor.java:35 | `Find` has no match in a token without a space, because the space after the currency is mandatory. |
| `PriceGrammar.DecimalValueOfDigits` | src/main/java/com/commercetools/dataimport/products/ProductImportItemProcessor.java:130 | `DecimalValue` (`Long.parseLong` without its range check) of the numeral of `n` is `n`. |
| `PriceGrammar.DecimalValueLeadingZero` | src/main/java/com/commercetools/dataimport/products/ProductImportItemProcessor.java:130 | Leading zeros do not change the value of a digit run. |
| `StreamOps.MapFilter` | src/main/java/com/commercetools/dataimport/products/ProductImportItemProcessor.java:154-159 | The stream never yields more items than it has elements. |
| `StreamOps.MapFilterOkIff` | src/main/java/com/commercetools/dataimport/products/ProductImportItemProcessor.java:67-78 | The pipeline completes iff no element's step throws. |
| `StreamOps.MapFilterFirstError` | src/main/java/com/commercetools/dataimport/products/ProductImportItemProcessor.java:67-78 | When the pipeline throws, it throws the exception of the first element that throws. Every earlier element succeeds. |
| `StreamOps.MapFilterKeepsAll` | src/main/java/com/commercetools/dataimport/products/ProductImportItemProcessor.java:117-120 | With no `null` results and no exception, there is one item per element, in element order. |
| `StreamOps.MapFilterAppend` | src/main/java/com/commercetools/dataimport/products/ProductImportItemProcessor.java:67-78 | The pipeline over `xs + ys`: the error of `xs` wins, then that of `ys`; otherwise the items of `xs` followed by those of `ys`. |
| `StreamOps.MapFilterDropped` | src/main/java/com/commercetools/dataimport/products/ProductImportItemProcessor.java:72-77 | An element whose step gives `null` can be removed without changing the result. |
| `StreamOps.MapFilterMembers` | src/main/java/com/commercetools/dataimport/products/ProductImportItemProcessor.java:154-159 | On success, the items are exactly the non-`null` step results. |
| `ProductImportItemProcessor.ParseImages` | src/main/java/com/commercetools/dataimport/products/ProductImportItemProcessor.java:99-112 | `null` iff the column is missing or empty. Otherwise one image per non-empty `;` token, in order, each 0×0. |
| `ProductImportItemProcessor.ImagesAreNonEmptyPieces` | src/main/java/com/commercetools/dataimport/products/ProductImportItemProcessor.java:100-106 | The image URLs are the non-empty fields of the column, in order. None is empty and none contains `;`. |
| `ProductImportItemProcessor.ParsePriceFromMatch` | src/main/java/com/commercetools/dataimport/products/ProductImportItemProcessor.java:125-152 | `ParsePrice`: a parsed price comes from the leftmost match. The amount is the digit group's value (at most `Long.MAX_VALUE`) and the currency is the currency group. Country, customer group and channel are present only when their group matched, and are then the lookup answers. |
| `ProductImportItemProcessor.ParsePriceRejects` | src/main/java/com/commercetools/dataimport/products/ProductImportItemProcessor.java:126-128 | "Cannot parse price" is thrown iff the pattern matches nowhere in the token. |
| `ProductImportItemProcessor.ParsePriceOfRendered` | src/main/java/com/commercetools/dataimport/products/ProductImportItemProcessor.java:125-152 | Round trip: a token written from groups parses to the draft of those groups. An amount beyond `Long.MAX_VALUE` or an unknown currency throws instead. |
| `ProductImportItemProcessor.ParsePriceOfLeadingChar` | src/main/java/com/commercetools/dataimport/products/ProductImportItemProcessor.java:125-152 | One extra character in front of a rendered token changes nothing: the token parses to the draft of its groups, or throws for an amount beyond `Long.MAX_VALUE` or an unknown currency. |
| `ProductImportItemProcessor.ParsePricePlainToken` | src/main/java/com/commercetools/dataimport/products/ProductImportItemProcessor.java:125-152 | `EUR 1000` parses to 1000 cents of EUR, with no country, customer group or channel. |
| `ProductImportItemProcessor.ParsePriceFullToken` | src/main/java/com/commercetools/dataimport/products/ProductImportItemProcessor.java:125-152 | `DE-EUR 999 b2b#outlet` parses to 999 cents of EUR, with the lookups of `DE`, `b2b` and `outlet`. |
| `ProductImportItemProcessor.ParsePriceUnanchoredStart` | src/main/java/com/commercetools/dataimport/products/ProductImportItemProcessor.java:126-127 | `DEU-EUR 100` parses with country `EU`: the leading `D` is skipped. |
| `ProductImportItemProcessor.ParsePriceNeedsSpace` | src/main/java/com/commercetools/dataimport/products/ProductImportItemProcessor.java:126-128 | A token without a space, such as `bogus`, throws "Cannot parse price". |
| `ProductImportItemProcessor.ParsePrices` | src/main/java/com/commercetools/dataimport/products/ProductImportItemProcessor.java:114-123 | `null` iff the column is missing or empty. |
| `ProductImportItemProcessor.ParsePricesOkIff` | src/main/java/com/commercetools/dataimport/products/ProductImportItemProcessor.java:116-120 | A column's prices parse iff every non-empty token does. |
| `ProductImportItemProcessor.ParsePricesPerToken` | src/main/java/com/commercetools/dataimport/products/ProductImportItemProcessor.java:116-120 | On success, there is one price per non-empty token, in token order, each that token's parse. |
| `ProductImportItemProcessor.ParsePricesFirstError` | src/main/java/com/commercetools/dataimport/products/ProductImportItemProcessor.java:116-120 | On failure, the error comes from the first token that fails. Every earlier token parses. |
| `ProductImportItemProcessor.StringLikeDraft` | src/main/java/com/commercetools/dataimport/products/ProductImportItemProcessor.java:199-203 | A draft exists iff the column of the attribute's name is present and non-empty. The draft carries that column's text. |
| `ProductImportItemProcessor.LocalizedColumns` | src/main/java/com/commercetools/dataimport/products/ProductImportItemProcessor.java:205-207 | A column is selected iff it is a column of the line and starts with `<name>.`. |
| `ProductImportItemProcessor.LocalizedEntries` | src/main/java/com/commercetools/dataimport/products/ProductImportItemProcessor.java:187-195 | The entries of `LocalizedStringDraft`: an entry exists iff some selected column has a non-empty value. Its locale is that column's name with `<name>.` removed, and it carries that value. |
| `ProductImportItemProcessor.ParseAttribute` | src/main/java/com/commercetools/dataimport/products/ProductImportItemProcessor.java:161-174 | A draft is always named after its attribute. |
| `ProductImportItemProcessor.ParseAttributeYields` | src/main/java/com/commercetools/dataimport/products/ProductImportItemProcessor.java:161-174 | What `ParseAttribute` yields per supported type. A DateTime, String, Enum, LocalizedEnum or Boolean attribute gives no draft iff its column is missing or empty, and otherwise the column's text. A LocalizedString attribute always gives its localized draft. A String Set whose column is present always gives the set draft of that column. |
| `ProductImportItemProcessor.ParseAttributeErrors` | src/main/java/com/commercetools/dataimport/products/ProductImportItemProcessor.java:161-185 | Parsing throws exactly in three cases: an unsupported attribute type, a Set whose elements are not Strings, and a String Set whose column is missing. Each case comes with its own error. |
| `ProductImportItemProcessor.ParseAttributeOwnColumn` | src/main/java/com/commercetools/dataimport/products/ProductImportItemProcessor.java:163-166 | DateTime, String, Enum, LocalizedEnum, Boolean and Set attributes read only the column of their own name. |
| `ProductImportItemProcessor.LocalizedStringKeptWhenEmpty` | src/main/java/com/commercetools/dataimport/products/ProductImportItemProcessor.java:187-197 | `LocalizedStringDraft`: a LocalizedString attribute with no valued column still becomes a draft, with no entries. |
| `ProductImportItemProcessor.NoValueNoEntries` | src/main/java/com/commercetools/dataimport/products/ProductImportItemProcessor.java:194 | Columns that all lack a value give no entries. |
| `ProductImportItemProcessor.LocaleOfColumn` | src/main/java/com/commercetools/dataimport/products/ProductImportItemProcessor.java:191 | The locale of column `<name>.<locale>` is `<locale>` when `<name>.` does not occur again. |
| `ProductImportItemProcessor.SetDraftElements` | src/main/java/com/commercetools/dataimport/products/ProductImportItemProcessor.java:176-181 | `SetDraft`: a String Set named after its attribute holds only fields of its column and every non-empty field. It holds the empty string iff an empty field comes before a non-empty one, because `split` drops only trailing empties. A column without `;` is the set of the column itself. |
| `ProductImportItemProcessor.SetOfRepeatedPieces` | src/main/java/com/commercetools/dataimport/products/ProductImportItemProcessor.java:176-181 | The String Set of `red;blue;red` is `{red, blue}`. |
| `ProductImportItemProcessor.SetOfDelimiterOnly` | src/main/java/com/commercetools/dataimport/products/ProductImportItemProcessor.java:180 | The String Set of `;` is empty. |
| `ProductImportItemProcessor.SetOfEmptyColumn` | src/main/java/com/commercetools/dataimport/products/ProductImportItemProcessor.java:180 | The String Set of an empty column is `{""}`. |
| `ProductImportItemProcessor.ParseAttributes` | src/main/java/com/commercetools/dataimport/products/ProductImportItemProcessor.java:154-159 | There are at most as many drafts as the type has attributes. |
| `ProductImportItemProcessor.ParseAttributesPerAttribute` | src/main/java/com/commercetools/dataimport/products/ProductImportItemProcessor.java:154-159 | Parsing fails iff some attribute fails, and then with the first failure's error. On success, the drafts are exactly the non-`null` attribute drafts. |
| `ProductImportItemProcessor.ParseAttributesInTypeOrder` | src/main/java/com/commercetools/dataimport/products/ProductImportItemProcessor.java:154-159 | When every attribute gives a draft, the k-th draft is the draft of the type's k-th attribute, so the type's order is kept one to one. |
| `ProductImportItemProcessor.VariantLineErrors` | src/main/java/com/commercetools/dataimport/products/ProductImportItemProcessor.java:81-88 | `VariantLineToDraft`: a variant fails iff its prices or its attributes fail, and a price error is reported first. A variant that succeeds carries the sku, prices, attributes and images. |
| `ProductImportItemProcessor.VariantLinesToDrafts` | src/main/java/com/commercetools/dataimport/products/ProductImportItemProcessor.java:66-78 | There are at most as many variants as lines. The per-line step, `VariantItem` (:68-77), gives no variant for a line whose binding fails (the `BindException` caught at :72) and lets every other error through. |
| `ProductImportItemProcessor.Process` | src/main/java/com/commercetools/dataimport/products/ProductImportItemProcessor.java:44-55 | A draft has at most as many variants as the group has lines. |
| `ProductImportItemProcessor.ProcessNull` | src/main/java/com/commercetools/dataimport/products/ProductImportItemProcessor.java:44-55 | `process` returns `null` exactly in two cases: the group is empty, or the product line binds and its product type is not found. |
| `ProductImportItemProcessor.ProcessUnboundProductLine` | src/main/java/com/commercetools/dataimport/products/ProductImportItemProcessor.java:46-47 | If the product line does not bind, the exception escapes `process`. |
| `ProductImportItemProcessor.ProcessFirstLineIsMaster` | src/main/java/com/commercetools/dataimport/products/ProductImportItemProcessor.java:44-64 | The draft has the product type's id and the product line's name and slug. Its first variant is the product line's own variant. |
| `ProductImportItemProcessor.ProcessAllLinesBound` | src/main/java/com/commercetools/dataimport/products/ProductImportItemProcessor.java:66-78 | When every line binds, there is one variant per line, in input order. |
| `ProductImportItemProcessor.ProcessDropsUnboundLine` | src/main/java/com/commercetools/dataimport/products/ProductImportItemProcessor.java:68-77 | A later line that does not bind is dropped with no other effect on the result. |
| `ProductImportItemProcessor.ProcessErrorsEscape` | src/main/java/com/commercetools/dataimport/products/ProductImportItemProcessor.java:66-78 | For a found product type, the group fails iff some bound line's variant fails. It then fails with the error of the first such line, and every earlier line is unbound or yields a variant. |
| `ProductImportItemProcessor.VariantLinesFirstError` | src/main/java/com/commercetools/dataimport/products/ProductImportItemProcessor.java:66-78 | When the variants fail, the error is that of the first bound line whose variant fails, and every earlier line is unbound or yields a variant. |
| `ProductImportItemProcessor.ProcessFailsOnBogusPrice` | src/main/java/com/commercetools/dataimport/products/ProductImportItemProcessor.java:72 | A bound line whose prices are `bogus` fails the whole group. |
| `ProductsImportJobConfiguration.IsUsefulExactly` | importApp/src/main/java/com/commercetools/dataimport/products/ProductsImportJobConfiguration.java:129-131 | `IsUseful`: a product is useful iff its English name is non-empty and its German name does not start with `#max`. |
| `ProductsImportJobConfiguration.UsefulWithoutGerman` | importApp/src/main/java/com/commercetools/dataimport/products/ProductsImportJobConfiguration.java:130 | A missing German name counts as `""`, so only the English name decides. |
| `ProductsImportJobConfiguration.ProcessItem` | importApp/src/main/java/com/commercetools/dataimport/products/ProductsImportJobConfiguration.java:122-127 | Returns the same item iff it is useful, `null` otherwise. |
| `ProductsImportJobConfiguration.FilterUsefulMembers` | importApp/src/main/java/com/commercetools/dataimport/products/ProductsImportJobConfiguration.java:125-126 | `FilterUseful`, the processor over a chunk with its `null` results dropped (:122-133): its output is exactly the chunk's useful items. |
| `ProductsImportJobConfiguration.FilterUsefulAppend` | importApp/src/main/java/com/commercetools/dataimport/products/ProductsImportJobConfiguration.java:125-126 | Filtering chunk by chunk is filtering the whole stream. |
| `ProductsImportJobConfiguration.FirstNamed` | importApp/src/main/java/com/commercetools/dataimport/products/ProductsImportJobConfiguration.java:100 | `byName(...).head()`: the first group with that name. `None` iff there is no such group. |
| `ProductsImportJobConfiguration.GetOrCreateFindsGroup` | importApp/src/main/java/com/commercetools/dataimport/products/ProductsImportJobConfiguration.java:98-105 | `GetOrCreate`: afterwards a "b2b" group exists and the stored id is its id. The groups are unchanged if one existed, and gain exactly the new group otherwise. |
| `ProductsImportJobConfiguration.GetOrCreateIdempotent` | importApp/src/main/java/com/commercetools/dataimport/products/ProductsImportJobConfiguration.java:98-105 | A second get-or-create changes nothing and stores the same id. |
| `ProductsImportJobConfiguration.PromotedKeys` | importApp/src/main/java/com/commercetools/dataimport/products/ProductsImportJobConfiguration.java:70-71 | `Promoted` (:70-71, :88-89): promotion copies the listed keys that the step holds and leaves every other job-context entry alone. |
| `ProductsImportJobConfiguration.PromotedOneKey` | importApp/src/main/java/com/commercetools/dataimport/products/ProductsImportJobConfiguration.java:88-89 | Promoting one key sets that key alone. |
| `ProductsImportJobConfiguration.CreateCommandsPerItem` | importApp/src/main/java/com/commercetools/dataimport/products/ProductsImportJobConfiguration.java:145-147 | `CreateCommands`: there is one `ProductCreateCommand` per item, in chunk order. |
| `ProductsImportJobConfiguration.AcceptedMembers` | importApp/src/main/java/com/commercetools/dataimport/products/ProductsImportJobConfiguration.java:146 | `Accepted` (:148): the platform stores exactly the accepted items of a chunk. |
| `ProductsImportJobConfiguration.ImportRunCreatesUseful` | importApp/src/main/java/com/commercetools/dataimport/products/ProductsImportJobConfiguration.java:111-118 | The import step's creates are a prefix of one create per useful product in input order, and all of them when the step completes. |
| `ProductsImportJobConfiguration.ImportRunOutcome` | importApp/src/main/java/com/commercetools/dataimport/products/ProductsImportJobConfiguration.java:111-150 | `ImportRun`, the import step as a function of its chunks (:110-119): only useful, accepted products are stored. The step completes iff every useful product is accepted. |
| `ProductsImportJobConfiguration.ImportRunStops` | importApp/src/main/java/com/commercetools/dataimport/products/ProductsImportJobConfiguration.java:111-118 | Nothing is written after a failing chunk. |
| `ProductsImportJobConfiguration.ProductsImportJob.constructor` | importApp/src/main/java/com/commercetools/dataimport/products/ProductsImportJobConfiguration.java:49-57 | A job that has not run: empty log and contexts. |
| `ProductsImportJobConfiguration.ProductsImportJob.SaveCustomerGroupTasklet` | importApp/src/main/java/com/commercetools/dataimport/products/ProductsImportJobConfiguration.java:96-108 | It issues the query, plus one create only when no "b2b" group exists. It stores the group's id under `b2bCustomerGroupId` and changes nothing else. The requests it issues are `GroupCommands` (:100-101). |
| `ProductsImportJobConfiguration.ProductsImportJob.SaveProductTypeTasklet` | importApp/src/main/java/com/commercetools/dataimport/products/ProductsImportJobConfiguration.java:78-84 | It makes one `queryAll` call and stores the full product type list under `productTypes`. |
| `ProductsImportJobConfiguration.ProductsImportJob.Promote` | importApp/src/main/java/com/commercetools/dataimport/products/ProductsImportJobConfiguration.java:70-71 | The job context becomes the promotion of the listed keys. Nothing else changes. |
| `ProductsImportJobConfiguration.ProductsImportJob.GetOrCreateCustomerGroupStep` | importApp/src/main/java/com/commercetools/dataimport/products/ProductsImportJobConfiguration.java:86-94 | Only `b2bCustomerGroupId` is added to the job context, with the get-or-create id. The step context it leaves holds that key alone. |
| `ProductsImportJobConfiguration.ProductsImportJob.GetProductTypesStep` | importApp/src/main/java/com/commercetools/dataimport/products/ProductsImportJobConfiguration.java:68-76 | Only `productTypes` is added to the job context, with the platform's product types. The step context it leaves holds that key alone. |
| `ProductsImportJobConfiguration.ProductsImportJob.Write` | importApp/src/main/java/com/commercetools/dataimport/products/ProductsImportJobConfiguration.java:140-150 | Every item's create is issued, in order; the accepted items are stored. The chunk succeeds iff all are accepted. |
| `ProductsImportJobConfiguration.ProductsImportJob.AwaitAll` | importApp/src/main/java/com/commercetools/dataimport/products/ProductsImportJobConfiguration.java:148 | Waiting in order succeeds iff every answer is an acceptance. |
| `ProductsImportJobConfiguration.ProductsImportJob.ImportStep` | importApp/src/main/java/com/commercetools/dataimport/products/ProductsImportJobConfiguration.java:110-119 | The log, the stored products and the outcome are those of `ImportRun` over the chunks. The step starts from a fresh, empty step context and leaves it empty. The customer groups, product types and the job context are unchanged. |
| `ProductsImportJobConfiguration.ProductsImportJob.RunJob` | importApp/src/main/java/com/commercetools/dataimport/products/ProductsImportJobConfiguration.java:59-66 | The requests come in step order: the customer group, then the product types, then the import. The product types are unchanged. Afterwards the job context holds both promoted keys, and the step context is the import step's own, which is empty. |

## Left out

- `CachedResources`: its code is not part of this model. Its lookups are answered by fixed maps, so its memoisation, its thread safety and any remote calls it makes are not modelled.
- `lineToCsvEntry`: the binding by `BeanWrapperFieldSetMapper` (fuzzy property matching with `setDistanceLimit(3)`) is library behaviour. It is the abstract parameter `bind`.
- `ProductCsvEntry`: its code is not part of this model. The name and slug are taken to be already-converted locale-to-text maps, so `toLocalizedString()` is not modelled.
- `FieldSet`: the value trimming and duplicate column handling of Spring Batch's `FieldSet` are library behaviour. A line is its column names plus one value per name.
- `LocalizedEntries`: entries are kept as a sequence in column order. Two things are not modelled: `LocalizedString.streamCollector()` collecting them into a map (and what it does with two columns giving the same locale), and the parsing of the locale text into a `java.util.Locale`.
- `ParseAttributes`: the filter at ProductImportItemProcessor.java:157 drops a draft that is `null` or whose value is `null`. Only the first half is modelled. None of the three extractors builds a draft with a `null` value: the string-like one returns `null` instead (:202), and the LocalizedString and Set ones always build a value (:186-196, :180-181). So the second half never drops anything.
- `ParsePrice`: `MoneyImpl.ofCents` is reduced to a membership test of the currency code in a set. Building the monetary amount is not modelled.
- `ProductDraftBuilder`: the master variant is the first element of `variants`. The builder's split into master and other variants is not modelled.
- Logging (`log.error`) is not modelled.
- The `blockingWait` 30-second timeouts and the futures of the writer are not modelled. A create is either accepted or rejected (`accepted`), and the queries of the tasklets always answer.
- `ProductsImportJob.Write`: whether the platform accepts a create depends on the draft alone (`accepted: ProductDraft -> bool`). A refusal caused by what is already stored, such as a second product with the same slug in a later chunk, is not modelled.
- `ProductsImportJob.SaveProductTypeTasklet`: `queryAll` fetches the product types page by page and may send several requests. The model logs it as one request, `QueryAllProductTypes`, and its pagination is not modelled.
- Spring Batch step execution is not modelled: restart, step statuses and the `ExecutionContextPromotionListener`'s status filter. All steps complete except an import step whose chunk fails.
- `productsImportStepChunkSize`: partitioning into chunks of 20 is done by the framework, so `ImportStep` takes the chunks as given.
- `ProductDraftReader`: its code is not part of this model; `ImportStep` takes the drafts it delivers as `chunks`.
- `main` and `MainConfiguration` are not modelled; they are process bootstrap and a file path.
- `DataImportJobConfiguration` and `ChannelTypesImportJobConfiguration` are not modelled; they are bean wiring.
- `lib/standalonePrice.js` and `lib/zones.js` are not modelled; they are file I/O and HTTP requests.
