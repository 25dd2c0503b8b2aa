# Transpaer data pipeline core, in Dafny

This project models the deterministic core of the Transpaer (formerly
Sustainity) Rust crates. These crates collect product and company data from
several sources, merge it into one knowledge base, and serve it from a
backend. The model covers the following parts:

- **Identifiers.** GTIN, EAN, VAT, Wiki, organisation and product ids:
  parsing, canonical printing and their round trips, in `models` and
  `collecting`. Key ids of the key-value collections.
- **Text helpers.** URL-to-domain extraction (`models`, `condenser`), name
  disambiguation, the category tree walk, VAT prefixing, comma-field
  splitting, category parameter encoding and super/sub-category lists in the
  backend, the query text builder, and elapsed-time formatting.
- **Merge and combine algebra.** `MultiMap`, `Regions`, `Certifications`,
  `Option` combine and disjoint map union in `models`; the mutating `merge`
  of regions, organisations and products in `condensing`; generic hash-map
  merging; and the merges of the parallel collectors.
- **Coagulation.** `IdCombiner` in the lab groups external records into
  clusters of records that share an individual id (EAN, GTIN, Wiki id, VAT
  or domain), directly or through a chain, numbering the clusters from 1.
  `Coagulate` inverts the resulting map, re-inverts it, and rejects repeated
  external ids. `IdCombiner` is a class over two maps, with the
  breadth-first closure as `while` loops.
- **Database building.** The crystalization report and uniqueness check,
  keyword and certificate extraction, category gating, BCorp deduplication,
  producer-id guessing, the advisors' lookup tables with the repeated-id
  check, item classification, country and class summaries, the filtering
  buffer, the product-to-category index of the condensing crate, and the
  per-category edge lists.
- **Serving.** Search-result id selection and the search-by-text dispatch.
- **Dump reading.** The extension dispatch of the Wikidata dump loader and
  its per-line handling.

## Structure

- **One module per source file.** Each module is named after its crate and
  file (`LabCoagulating` for `lab/src/coagulating.rs`, `CondensingKnowledge`
  for `condensing/src/knowledge.rs`).
- **Shared helper modules.** Four modules are shared:
  - `Wrappers`: `Option` and `Result`.
  - `Text`: ASCII lower-casing, trimming, splitting and decimal numbers.
  - `Ordering`: strict weak orders, a sorting method proved sorted and a
    permutation, deduplication, and the "last entry wins" map builder.
  - `LabUtils`: map merging.
- **Value logic and state.** Pure code is written as functions with lemmas.
  Code that updates state in place is written as classes whose methods carry
  `modifies` clauses and state their whole new state:
  - the collectors and `IdCombiner`;
  - the filtering stash;
  - the query builder;
  - the dump loader.
- **Loops as methods.** Every loop in the source is a method with
  invariants, proved against a specification function; lemmas about that
  function state the promised property.

## Model

| member | source | states |
|---|---|---|
| ModelsIds.WikiIdRoundTrip | models/src/ids.rs:75-95 | parsing the canonical string of a Wiki id gives the id back |
| ModelsIds.WikiIdTryFromDigits | models/src/ids.rs:86-95 | a digit string parses to its value, and prints back as that value's decimal form |
| ModelsIds.EanTryFromU64 | models/src/ids.rs:169-178 | `Ean::try_from(u64)` accepts exactly the values up to MAX_EAN; a larger one is a Length error carrying its decimal text |
| ModelsIds.EanCleanedDigits | models/src/ids.rs:149-159 | removing ' ', '-', '.' and leading zeros from digits keeps their value, and leaves nothing exactly when the value is 0 |
| ModelsIds.EanTryFromDigits | models/src/ids.rs:149-178 | digits with any leading zeros parse to their value when it is a nonzero EAN |
| ModelsIds.EanTryFromTooLarge | models/src/ids.rs:169-178 | digit strings above MAX_EAN within u64 are a Length error |
| ModelsIds.EanAllZeros | models/src/ids.rs:149-159 | a text of zeros only trims to nothing and fails as an empty number |
| ModelsIds.EanRoundTrip | models/src/ids.rs:138-178 | parsing the canonical string of an EAN gives it back |
| ModelsIds.EanTryFromBound | models/src/ids.rs:149-178 | every accepted EAN is at most MAX_EAN |
| ModelsIds.GtinTryFromU64 | models/src/ids.rs:267-276 | `Gtin::try_from(u64)` accepts exactly the values up to 99_999_999_999_999; otherwise a Length error |
| ModelsIds.GtinTryFromOutcomes | models/src/ids.rs:242-257 | the three outcomes of `Gtin::try_from(&str)` with their exact conditions: Length with the original text unless 8..=14 alphanumerics remain, Num when they are not all digits, Ok with their value otherwise |
| ModelsIds.GtinRoundTrip | models/src/ids.rs:213-257 | the canonical form has 14 characters and parses back to the same GTIN |
| ModelsIds.GtinConvert | models/src/ids.rs:222-233 | no list gives the empty set; otherwise Ok exactly when every text parses, with the set of parsed ids, and the error of the first unparsable text otherwise |
| ModelsIds.VatIdTryFromSpec | models/src/ids.rs:352-402 | a VAT id is accepted exactly when two or more ASCII letters or digits remain; it holds only those; a failure is Length with the kept text |
| ModelsIds.VatIdRoundTrip | models/src/ids.rs:367-402 | parsing the canonical string of an accepted VAT id gives it back |
| ModelsIds.VatIdConvert | models/src/ids.rs:376-387 | as `Gtin::convert`, over `VatId::try_from` |
| ModelsIds.OrganisationIdCanonicalDecimal | models/src/ids.rs:444-446 | the canonical string of an organisation id is all digits and parses back to its value |
| ModelsIds.ProductIdCanonicalDecimal | models/src/ids.rs:471-473 | the same for product ids |
| ModelsUtils.ExtractDomainFromUrlShape | models/src/utils.rs:9-24 | the domain has no '/', is lower-case, and is the host left once "http://", "https://" and "www." are dropped in that order, cut at the first '/' |
| ModelsUtils.DomainOfParts | models/src/utils.rs:9-49 | for scheme + optional "www." + host + path, the domain is the lower-cased host, and `extract_domain_from_str` answers exactly when a scheme or "www." is present |
| ModelsUtils.ExtractDomainFromStrSome | models/src/utils.rs:28-49 | `extract_domain_from_str` is Some exactly for texts starting with "http://", "https://" or "www." |
| ModelsUtils.ExtractDomainFromStrAgrees | models/src/utils.rs:9-49 | whenever `extract_domain_from_str` answers, it agrees with `extract_domain_from_url` |
| ModelsUtils.ExtractDomainsFromUrls | models/src/utils.rs:52-62 | the set of the domains of the websites; each is slash-free and lower-case |
| ModelsCombine.CombineOption | models/src/combine.rs:19-23 | a present left value wins, otherwise the right one |
| ModelsCombine.CombineOptionAssociative | models/src/combine.rs:19-23 | combining options is associative |
| ModelsCombine.CombineOptionIdentity | models/src/combine.rs:19-23 | None is a two-sided identity and combining is idempotent |
| ModelsCombine.TryCombineDisjoint | models/src/combine.rs:26-43 | Ok exactly when the key sets are disjoint, with the union of both maps; otherwise the error is a key present in both |
| ModelsCollections.Build | models/src/collections.rs:20-86 | every key id is the collection name, '/', then the key |
| ModelsCollections.BuildSeparatesCollections | models/src/collections.rs:20-86 | two key ids are equal exactly when collection and key both are |
| ModelsCollections.CollectionNamesHaveNoSlash | models/src/collections.rs:3-13 | no collection name contains '/' |
| ModelsCollections.Organisation | models/src/collections.rs:20-24 | the key is the decimal canonical string of the id under "organisations" |
| ModelsCollections.OrganisationVat | models/src/collections.rs:26-30 | the key is the VAT id text |
| ModelsCollections.OrganisationWiki | models/src/collections.rs:32-36 | the key is the decimal Wiki id |
| ModelsCollections.OrganisationWww | models/src/collections.rs:38-42 | the key is the domain, verbatim |
| ModelsCollections.Product | models/src/collections.rs:51-55 | the key is the decimal product id |
| ModelsCollections.ProductEan | models/src/collections.rs:57-61 | the key is the EAN's canonical string |
| ModelsCollections.ProductGtin | models/src/collections.rs:63-67 | the key is the GTIN's canonical string |
| ModelsCollections.ProductGtinKey | models/src/collections.rs:63-67 | the GTIN key has 14 digits and parses back to the GTIN |
| ModelsCollections.ProductWiki | models/src/collections.rs:69-73 | the key is the decimal Wiki id |
| ModelsCollections.Category | models/src/collections.rs:82-86 | the key is the category text, verbatim |
| ModelsCollections.KeysAreInjective | models/src/collections.rs:20-67 | different organisation ids, and different GTINs up to MAX_GTIN, get different keys |
| ModelsModels.FromStem | models/src/models.rs:68-84 | exactly the unknown stems give Other |
| ModelsModels.ToLabel | models/src/models.rs:113-127 | `from_stem` reads every label back to its source; only Other's label is not a known stem |
| ModelsModels.ToLabelFromStem | models/src/models.rs:68-84 | a known stem's source has that stem as its label |
| ModelsModels.SourceRank | models/src/models.rs:36-65 | the declaration position of a source, Other last |
| ModelsModels.AllSourcesOrdered | models/src/models.rs:36-65 | the sources in declaration order are strictly ordered and list every source |
| ModelsModels.GetUnion | models/src/models.rs:415-429 | a key's set in the combined multimap is the union of both sides' sets |
| ModelsModels.UnionCommutative | models/src/models.rs:415-429 | combining multimaps is commutative |
| ModelsModels.UnionIdentity | models/src/models.rs:415-429 | the empty multimap is an identity and combining is idempotent |
| ModelsModels.InsertedIsUnion | models/src/models.rs:374-385 | inserting is combining with a one-entry multimap |
| ModelsModels.MultiMap.Empty | models/src/models.rs:362-364 | an empty multimap |
| ModelsModels.MultiMap.FromMap | models/src/models.rs:366-368 | the multimap holds the given map |
| ModelsModels.MultiMap.Insert | models/src/models.rs:374-385 | the key is present with the value in its set, every other key keeps its set, and the keys grow by the key |
| ModelsModels.MultiMap.Combine | models/src/models.rs:415-429 | the entries become the union with the other multimap's |
| ModelsModels.CollectSources | models/src/models.rs:436-442 | a strictly ordered list of exactly the sources in any set |
| ModelsModels.CountryLessIsStrictTotalOrder | models/src/models.rs:590-605 | the country order used by the sort is a strict total order |
| ModelsModels.CombineRegionsWorldUnknown | models/src/models.rs:590-605 | World absorbs and Unknown is the identity, on either side |
| ModelsModels.CombineRegionsLists | models/src/models.rs:596-602 | two lists give a strictly sorted list of exactly the codes of either |
| ModelsModels.CombineRegionsCommutative | models/src/models.rs:590-605 | combining regions is commutative |
| ModelsModels.GetNum | models/src/models.rs:747-752 | the number of present certifications, at most 4, and 0 exactly when none is present |
| ModelsModels.Inherit | models/src/models.rs:757-767 | bcorp, fti and tco are copied when the other has them; EU Ecolabel never changes |
| ModelsModels.InheritMonotone | models/src/models.rs:757-767 | inheriting never loses a certification, never lowers the count, and is idempotent |
| ModelsModels.CombineCertificationsSpec | models/src/models.rs:771-778 | the present certifications of a combination are those of both sides; combining is idempotent with the empty set as identity, and agrees with inheriting on bcorp |
| ModelsModels.AllCategories | models/src/models.rs:1477-1491 | the set of every separator-delimited prefix path of every category key |
| ModelsModels.CategoryPathsOfOne | models/src/models.rs:1477-1491 | for a category not starting with the separator, a text is one of its paths exactly when it is a prefix ending just before a separator or at the end |
| ModelsModels.CategoryPathsAreAncestors | models/src/models.rs:1477-1491 | the paths gathered for a set of category keys are exactly the ancestors of some key |
| CollectingData.Cleaned | collecting/src/data.rs:53 | exactly the characters of the text that are not ' ', '-' or '.' remain |
| CollectingData.GtinToString | collecting/src/data.rs:43-47 | the text is all digits, has the GTIN's value and at least 14 characters |
| CollectingData.GtinToStringLength | collecting/src/data.rs:43-47 | a GTIN up to MAX_GTIN prints as exactly 14 digits |
| CollectingData.GtinTryFrom | collecting/src/data.rs:52-62 | the result is a Length error carrying the cleaned text exactly when its length in UTF-8 bytes is not 8, 12, 13 or 14; a number error also carries the cleaned text |
| CollectingData.GtinTryFromDigits | collecting/src/data.rs:52-62 | cleaned digits of an accepted length parse to their value, at most MAX_GTIN |
| CollectingData.GtinTryFromUsize | collecting/src/data.rs:73-82 | values up to MAX_GTIN are accepted as they are; others are a Length error with their decimal text |
| CollectingData.GtinRoundTrip | collecting/src/data.rs:43-62 | parsing the printed form of a GTIN up to MAX_GTIN gives it back |
| CollectingData.GtinLengthCountsBytes | collecting/src/data.rs:54-55 | "é1234567" (eight characters, nine bytes) is a Length error |
| CollectingData.VatIdTryFrom | collecting/src/data.rs:139-148 | accepted exactly when the cleaned text is four or more UTF-8 bytes long; the id is the cleaned text, and a failure is Length with it |
| CollectingData.VatIdRoundTrip | collecting/src/data.rs:136-148 | a VAT id's own text parses back to it |
| CollectingData.VatIdLengthCountsBytes | collecting/src/data.rs:142 | "éé" (two characters, four bytes) is accepted |
| CollectingData.WikiIdTryFrom | collecting/src/data.rs:228-234 | a text that does not start with 'Q' is a Prefix error |
| CollectingData.WikiIdRoundTrip | collecting/tests/data.rs:32-50 | a Wiki id's "Q" text parses back to it |
| CollectingData.OrganisationIdToString | collecting/src/data.rs:205-212 | the text starts with 'Q' for Wikidata ids and 'V' for VAT ids |
| CollectingData.OrganisationIdTryFrom | collecting/src/data.rs:228-239 | empty is Length, a first character other than 'Q' or 'V' is Prefix, 'V' parses the rest as a VAT id, and a success is a Wikidata id exactly when the text starts with 'Q' |
| CollectingData.OrganisationIdRoundTrip | collecting/src/data.rs:205-239 | every organisation id parses back from its text |
| CollectingData.ProductIdToString | collecting/src/data.rs:292-299 | the text starts with 'Q' or 'G'; after 'G' come the GTIN's digits |
| CollectingData.ProductIdTryFrom | collecting/src/data.rs:313-324 | empty is Length, a first character other than 'Q' or 'G' is Prefix, 'G' parses the rest as a GTIN, and a success is a Wikidata id exactly when the text starts with 'Q' |
| CollectingData.ProductIdRoundTrip | collecting/src/data.rs:292-324 | every product id with a GTIN up to MAX_GTIN parses back from its text |
| CollectingData.GtinConvert | collecting/src/data.rs:29-40 | no list gives []; on success one GTIN per text, each its parse; otherwise the error of the first unparsable text |
| CollectingData.VatIdConvert | collecting/src/data.rs:122-133 | the same over `VatId::try_from` |
| CollectingCategories.AreProductsComparableSpec | collecting/src/categories.rs:94-99 | products are not comparable only in Broad categories |
| CollectingCategories.ToInfo | collecting/src/categories.rs:127-132 | the status, and the children's names in declaration order |
| CollectingCategories.Find | collecting/src/categories.rs:43-50 | the first child with the name, found exactly when one exists |
| CollectingCategories.IsValidCategory | collecting/src/categories.rs:38-51 | the loop's answer is that every '/'-segment names a child of the node reached so far, or the text is the root's name |
| CollectingCategories.GetInfo | collecting/src/categories.rs:54-67 | the loop's answer is the info of the node the walk reaches |
| CollectingCategories.InfoOfIffValid | collecting/src/categories.rs:38-67 | `get_info` answers exactly for valid categories, and the root's name gives the root's info |
| CollectingCategories.RootIsValid | collecting/src/categories.rs:38-42 | the empty text, the root's name, is a valid category |
| CollectingCategories.ValidPrefixClosed | collecting/src/categories.rs:43-50 | every '/'-prefix of a valid category is valid |
| CollectingCategories.WalkStep | collecting/src/categories.rs:43-50 | one more segment is accepted exactly when it is among the reached node's subcategories |
| CollectingCategories.NewCategory | collecting/src/categories.rs:29-35 | `Category::new` succeeds exactly for valid texts, `get_string` returns the text, and a failure carries it |
| CollectingEuEcolabel.PrepareVatNumber | collecting/src/eu_ecolabel.rs:59-70 | None exactly when there is no VAT number; otherwise it starts with the country and is the cleaned number, with or without the country in front |
| CollectingEuEcolabel.PrepareVatNumberPrefix | collecting/src/eu_ecolabel.rs:61-66 | the country is prepended only when the cleaned number does not start with it |
| CollectingEuEcolabel.PrepareVatNumberIdempotent | collecting/src/eu_ecolabel.rs:59-70 | preparing a prepared number changes nothing |
| CollectingOpenFoodFacts.SplitField | collecting/src/open_food_facts.rs:122-148 | [] exactly for an empty field; otherwise one piece more than there are commas, which join back to the field, none holding a comma |
| CollectingOpenFoodFacts.ExtractProductionCountries | collecting/src/open_food_facts.rs:122-128 | the split manufacturing-place tags |
| CollectingOpenFoodFacts.ExtractSellCountries | collecting/src/open_food_facts.rs:132-138 | the split country tags |
| CollectingOpenFoodFacts.ExtractCategories | collecting/src/open_food_facts.rs:142-148 | the split category tags |
| CollectingOpenFoodFacts.SplitFieldJoin | collecting/src/open_food_facts.rs:122-148 | splitting the comma join of comma-free tags gives them back whenever the field is not empty |
| CollectingOpenFoodFacts.ExtractBrandLabels | collecting/src/open_food_facts.rs:107-118 | a duplicate-free list of exactly the brand labels |
| CollectingOpenFoodFacts.InsertTrimmed | collecting/src/open_food_facts.rs:111-115 | the loop adds the trimmed form of every non-empty piece |
| CollectingOpenFoodFacts.BrandOwnerLabel | collecting/src/open_food_facts.rs:109-111 | a non-empty brand owner is a label |
| CollectingOpenFoodFacts.BrandLabelsSpec | collecting/src/open_food_facts.rs:107-118 | the labels are the non-empty brand owner and the trimmed non-empty brand pieces, and nothing else |
| CollectingOpenFoodFacts.BlankBrandGivesEmptyLabel | collecting/src/open_food_facts.rs:111-115 | a blank brand piece gives the empty label, since it is trimmed after the emptiness test |
| CollectingOpenFoodFacts.Load | collecting/src/open_food_facts.rs:183-195 | "csv" and "gz" are accepted, "gz" exactly as gzip; any other extension is an error carrying it |
| CollectingTranspaer.Matched | collecting/src/transpaer.rs:102-109 | a match exactly when the similarity exceeds 0.85 and there is one id, with that id and the similarity |
| CollectingTranspaer.FromCountries | collecting/src/transpaer.rs:224-230 | the loop indexes the countries by tag, the last entry of a tag winning |
| CollectingTranspaer.GetRegions | collecting/src/transpaer.rs:238-240 | regions are only found for a known tag |
| CollectingTranspaer.RegionMapSpec | collecting/src/transpaer.rs:224-240 | a tag is known exactly when some entry has it; its regions are those of its last entry |
| CollectingTranspaer.FromCategories | collecting/src/transpaer.rs:255-268 | the loop indexes the categories by tag, the last entry of a tag winning |
| CollectingTranspaer.CategoryMapGet | collecting/src/transpaer.rs:276-278 | an entry exactly for a known tag |
| CollectingTranspaer.CategoryMapSpec | collecting/src/transpaer.rs:255-278 | a tag is known exactly when some entry has it, and `get` returns the description, categories and delete flag of its last entry |
| LabSubstrate.SubstratesReport.constructor | lab/src/substrate.rs:103-108 | an empty report |
| LabSubstrate.SubstratesReport.AddNoFileStem | lab/src/substrate.rs:111-113 | the path joins the no-stem set; the other set is unchanged |
| LabSubstrate.SubstratesReport.AddPathNotUnicode | lab/src/substrate.rs:115-117 | the path joins the not-Unicode set; the other set is unchanged |
| LabSubstrate.UsableSpec | lab/src/substrate.rs:40-59 | the listed substrates are exactly the directory's files with a Unicode stem |
| LabSubstrate.PathsWhereSpec | lab/src/substrate.rs:44-58 | the reported paths are exactly those of files whose stem is missing, or not Unicode |
| LabSubstrate.Prepare | lab/src/substrate.rs:34-62 | one substrate per usable file, in directory order, each with its position as id, its path and its stem; the report holds the files without a stem and those whose stem is not Unicode |
| LabSubstrate.FindByIdSpec | lab/src/substrate.rs:72-79 | a substrate with the id is found exactly when one exists, and it is the first |
| LabSubstrate.FindByNameSpec | lab/src/substrate.rs:92-99 | a substrate with the name is found exactly when one exists, and it is the first |
| LabSubstrate.GetPathForId | lab/src/substrate.rs:72-79 | the path of the first substrate with the id, or None |
| LabSubstrate.GetNameForId | lab/src/substrate.rs:82-89 | the loop's answer is the name of the first substrate with the id, or None |
| LabSubstrate.GetIdForName | lab/src/substrate.rs:92-99 | the loop's answer is the id of the first substrate with the name, or None |
| LabSubstrate.PositionalLookup | lab/src/substrate.rs:48-53 | with positional ids, the name for id i is the i-th name for every i below the count, and None beyond |
| LabSubstrate.NameIdRoundTrip | lab/src/substrate.rs:82-99 | with positional ids and distinct names, the id for the i-th name is i |
| LabSubstrate.PreparePositional | lab/src/substrate.rs:48-53 | `prepare` gives each substrate its position as id |
| LabCoagulate.NewExternalId | lab/src/coagulate.rs:43-46 | the external id holds the data set and the inner id |
| LabCoagulate.DecomposeNew | lab/src/coagulate.rs:43-50 | decomposing a new external id gives its parts back, and rebuilding from the parts gives the id back |
| LabCoagulate.ExternalLessIsStrictTotalOrder | lab/src/coagulate.rs:35-39 | the derived order of external ids is a strict total order |
| LabCoagulate.GetUniqueIdForProducerExternalId | lab/src/coagulate.rs:103-112 | Ok with the mapped id exactly when the external id is known; otherwise an error carrying it |
| LabCoagulate.GetUniqueIdForProductExternalId | lab/src/coagulate.rs:114-123 | the same for products |
| LabCoagulate.SaveMap | lab/src/coagulate.rs:133-151 | Ok exactly when every data set has a name; then every external id is listed under exactly its unique id, with its data-set name, and each list is duplicate-free; otherwise SubstrateNameNotFoundForId for an unnamed data set |
| LabCoagulate.Save | lab/src/coagulate.rs:125-177 | both maps are grouped that way, and Ok exactly when every data set of both has a name |
| LabCoagulate.ReadMap | lab/src/coagulate.rs:187-206 | Ok exactly when every data-set name is known and no external id repeats; then every listed external id maps to its unique id; otherwise the error names the unknown name or the repeated id |
| LabCoagulate.Read | lab/src/coagulate.rs:179-231 | the same for producers and products together |
| LabCoagulate.EntryReadsBack | lab/src/coagulate.rs:133-142 | a saved entry's data-set name reads back to its id, giving the external id back |
| LabCoagulate.SaveThenRead | lab/src/coagulate.rs:125-231 | what `save` writes has only known names and no repeats, and reads as the original map |
| LabCoagulate.ReadsAsDetermines | lab/src/coagulate.rs:187-206 | the map `read` produces is determined by the file |
| LabCoagulate.SaveReadRoundTrip | lab/src/coagulate.rs:125-231 | reading back what `save` produced, with the same substrates, gives the original map |
| LabCoagulating.UniqueIdsCount | lab/src/coagulating.rs:154-172 | after n increments from zero an organisation or product unique id has the value n |
| LabCoagulating.UniqueIdsDistinct | lab/src/coagulating.rs:154-172 | different numbers of increments give different unique ids |
| LabCoagulating.FilledSymmetric | lab/src/coagulating.rs:281-310 | with distinct external ids, after `fill_ids` each external id maps to its record's individual ids, and the two indexes mirror each other |
| LabCoagulating.FilledIndexed | lab/src/coagulating.rs:281-310 | after `fill_ids` the external index has exactly the records' external ids, and every individual id of a record lists that record |
| LabCoagulating.SharedDone | lab/src/coagulating.rs:337-346 | once every record is passed, records sharing an individual id have the same unique id |
| LabCoagulating.ClustersDone | lab/src/coagulating.rs:312-350 | once every record is passed, the result is clustered: every record has a unique id; two records have the same one exactly when a chain of records, each sharing an individual id with the next, links them; the empty count is the number of records without individual ids; ids follow each cluster's first record; every id up to the count is used |
| LabCoagulating.LinkedSymm | lab/src/coagulating.rs:337-346 | records linked by a chain of shared individual ids are linked in the other direction too |
| LabCoagulating.LinkedTrans | lab/src/coagulating.rs:337-346 | two chains that meet make one chain |
| LabCoagulating.LinkedSameId | lab/src/coagulating.rs:337-346 | once records sharing an individual id agree on their unique id, every chain of such records agrees on it |
| LabCoagulating.RootLinkedExtend | lab/src/coagulating.rs:326-346 | a new cluster whose members are linked to its first record keeps every external id linked to the first record of its cluster |
| LabCoagulating.GatherExternalLinked | lab/src/coagulating.rs:352-372 | an external id reached in a round of the spread is linked to the cluster's first record through the individual id that reached it |
| LabCoagulating.GatherIndividualLinked | lab/src/coagulating.rs:374-387 | each individual id gathered from a linked external id belongs to a record linked to the cluster's first record |
| LabCoagulating.EmptyLinkedToItself | lab/src/coagulating.rs:330-335 | with distinct external ids, a record without individual ids is linked to no other external id |
| LabCoagulating.EmptyRecordAlone | lab/src/coagulating.rs:330-335 | with distinct external ids, a record without individual ids has a unique id no other record has |
| LabCoagulating.IdCombiner.constructor | lab/src/coagulating.rs:261-271 | both indexes and the result are empty, with zero counts |
| LabCoagulating.IdCombiner.IndexRecord | lab/src/coagulating.rs:286-304 | each individual id of a record lists the record's external id in a sorted, duplicate-free list; nothing else changes |
| LabCoagulating.IdCombiner.FillIds | lab/src/coagulating.rs:281-310 | the external index gains each record's individual ids (a later record of an external id wins); each individual id lists, sorted and without duplicates, what it listed before and every record that names it; the result is untouched |
| LabCoagulating.IdCombiner.AssignAll | lab/src/coagulating.rs:360-368 | every listed external id gets the unique id; those that had none are returned as new |
| LabCoagulating.IdCombiner.GatherExternalIds | lab/src/coagulating.rs:352-372 | every external id reached from the individual ids gets the unique id, the visited individual ids leave the index, and the new ids are those that had no unique id yet |
| LabCoagulating.IdCombiner.GatherIndividualIds | lab/src/coagulating.rs:374-387 | the visited external ids leave the index, and the result is the sorted, duplicate-free list of their individual ids |
| LabCoagulating.IdCombiner.SpreadCluster | lab/src/coagulating.rs:337-346 | the loop alternates both gathers until one is empty; the cluster then holds every record reachable from the first one |
| LabCoagulating.IdCombiner.OpenEmpty | lab/src/coagulating.rs:326-335 | a record without individual ids gets the next unique id on its own and is counted as empty |
| LabCoagulating.IdCombiner.OpenCluster | lab/src/coagulating.rs:326-346 | a record not yet assigned opens the next unique id, which spreads over its cluster |
| LabCoagulating.IdCombiner.FindClusters | lab/src/coagulating.rs:312-350 | every record's external id, and no other, gets a unique id between 1 and the count; at most one id per record; with distinct external ids the result is clustered as above: two records share a unique id exactly when a chain of shared individual ids links them |
| LabCoagulating.IdCombiner.Combine | lab/src/coagulating.rs:273-279 | `fill_ids` then `find_clusters` on fresh indexes: every external id gets a unique id within the count, and with distinct external ids two records share one exactly when a chain of shared individual ids links them |
| LabCoagulatingIds.ProducerIdLessIsStrictTotalOrder | lab/src/coagulating.rs:393-404 | the derived order of producer individual ids is a strict total order |
| LabCoagulatingIds.ProductIdLessIsStrictTotalOrder | lab/src/coagulating.rs:489-500 | the derived order of product individual ids is a strict total order |
| LabCoagulatingIds.AcceptedRejectedPartition | lab/src/coagulating.rs:443-453 | every listed text either parses into an individual id or gives an InvalidIndividualId warning for the data set, never both |
| LabCoagulatingIds.DomainIds | lab/src/coagulating.rs:465-470 | every domain is accepted as it is |
| LabCoagulatingIds.ProducerExtractionPartition | lab/src/coagulating.rs:436-473 | ids plus warnings account for every VAT, Wikidata and domain text; domains always pass; each warning names the data set and a VAT or Wikidata text |
| LabCoagulatingIds.ProductExtractionPartition | lab/src/coagulating.rs:541-583 | ids plus warnings account for every EAN, GTIN and Wikidata text; each warning names the data set and one of them |
| LabCoagulatingIds.PushParsed | lab/src/coagulating.rs:443-453 | one loop appends the parsed ids and the warnings for the texts that do not parse |
| LabCoagulatingIds.ExtractProducerIds | lab/src/coagulating.rs:436-473 | the producer ids and warnings, as specified |
| LabCoagulatingIds.ExtractProductIds | lab/src/coagulating.rs:541-583 | the product ids and warnings, as specified |
| LabCoagulatingIds.ProducerIdsFrom | lab/src/coagulating.rs:416-424 | the record's external id decomposes to the data set and inner id, with the extracted ids and warnings |
| LabCoagulatingIds.ProductIdsFrom | lab/src/coagulating.rs:512-520 | the same for products |
| LabCoagulatingIds.WithWarningsKeys | lab/src/coagulating.rs:624-641 | after recording warnings a data set is in the report exactly when it was or some warning names it |
| LabCoagulatingIds.WithWarningsTexts | lab/src/coagulating.rs:624-641 | a data set's set holds a text exactly when it did or some warning carries it |
| LabCoagulatingIds.WithWarningsAppend | lab/src/coagulating.rs:624-628 | recording two lists one after the other is recording their concatenation |
| LabCoagulatingIds.WarningReported | lab/src/coagulating.rs:616-641 | every warning's text ends up reported under its data set |
| LabCoagulatingIds.CoagulationReport.constructor | lab/src/coagulating.rs:607-613 | an empty report |
| LabCoagulatingIds.CoagulationReport.AddInvalidId | lab/src/coagulating.rs:630-641 | the text joins its data set's set; other data sets are unchanged |
| LabCoagulatingIds.CoagulationReport.Add | lab/src/coagulating.rs:616-622 | a warning is recorded as its invalid id |
| LabCoagulatingIds.CoagulationReport.AddMany | lab/src/coagulating.rs:624-628 | the warnings are recorded in order |
| LabCrystalizing.CrystalizationReport.constructor | lab/src/crystalizing.rs:22-30 | an empty report |
| LabCrystalizing.CrystalizationReport.AddInvalidId | lab/src/crystalizing.rs:33-44 | the id joins its data set's set of invalid ids; the missing ids are unchanged |
| LabCrystalizing.CrystalizationReport.AddMissingInnerId | lab/src/crystalizing.rs:51-62 | the inner id joins its data set's set of missing ids; the invalid ids are unchanged |
| LabCrystalizing.CrystalizationReport.AddMissingExternalId | lab/src/crystalizing.rs:46-49 | the decomposed inner id is recorded under its data set |
| LabCrystalizing.AddedToReport | lab/src/crystalizing.rs:33-62 | after adding, the data set holds the id and everything it held, the keys grow by the data set, and other data sets are unchanged |
| LabCrystalizing.MissingReported | lab/src/crystalizing.rs:702-718 | every inner id the coagulate does not know is reported missing under the substrate's data set |
| LabCrystalizing.MissingOnlyHere | lab/src/crystalizing.rs:702-718 | other data sets' missing ids are unchanged |
| LabCrystalizing.Processor.constructor | lab/src/crystalizing.rs:224-229 | the processor holds the given report |
| LabCrystalizing.Processor.ParseInto | lab/src/crystalizing.rs:784-793 | one loop of `convert_*_ids`: the set of the parsed ids, with every text that does not parse reported invalid for the data set |
| LabCrystalizing.Processor.ConvertProductIds | lab/src/crystalizing.rs:778-820 | the sets of parsed EANs, GTINs and Wikidata ids, with every unparsable text reported invalid |
| LabCrystalizing.Processor.ConvertOrganisationIds | lab/src/crystalizing.rs:822-859 | the sets of parsed VAT and Wikidata ids and all domains, with every unparsable text reported invalid |
| LabCrystalizing.Processor.ConvertInnerIds | lab/src/crystalizing.rs:702-718 | the unique ids of the known inner ids; the unknown ones are reported missing |
| LabCrystalizing.ProductIdsAccounted | lab/src/crystalizing.rs:778-820 | every EAN, GTIN and Wikidata text either parses into the output or is reported invalid for that data set |
| LabCrystalizing.OrganisationIdsAccounted | lab/src/crystalizing.rs:822-859 | every VAT and Wikidata text either parses into the output or is reported invalid for that data set |
| LabCrystalizing.TextAccounted | lab/src/crystalizing.rs:784-793 | a listed text that parses is in the set; one that does not gives a warning |
| LabCrystalizing.MediaOf | lab/src/crystalizing.rs:692-696 | at most one medium, carrying the mentions and the source |
| LabCrystalizing.ExtractMediaMentions | lab/src/crystalizing.rs:675-700 | no reports give nothing; otherwise the medium of the mentions of the YouTube reports |
| LabCrystalizing.KeptMentionsSpec | lab/src/crystalizing.rs:682-690 | the mentions are exactly those of the reports with a URL that are kept |
| LabCrystalizing.MentionsAreYoutube | lab/src/crystalizing.rs:682-690 | every mention links to a URL whose domain is "youtube.com", and its title is the report's title, or the URL when there is none |
| LabCrystalizing.YoutubeReportsMentioned | lab/src/crystalizing.rs:682-690 | every report whose URL's domain is "youtube.com" is mentioned |
| LabCrystalizing.ExtractBCorpCert | lab/src/crystalizing.rs:721-740 | a certificate exactly for BCorp substrates with reports, carrying the producer's id |
| LabCrystalizing.ExtractEuEcolabelCert | lab/src/crystalizing.rs:742-748 | a certificate exactly for EU Ecolabel substrates |
| LabCrystalizing.ExtractFtiCert | lab/src/crystalizing.rs:750-764 | a certificate exactly for FTI substrates with a score review, carrying the score |
| LabCrystalizing.ExtractTcoCert | lab/src/crystalizing.rs:766-776 | a certificate exactly for TCO substrates with a name, carrying the first name |
| LabCrystalizing.OneCertifierPerSubstrate | lab/src/crystalizing.rs:721-776 | one substrate yields at most one certification |
| LabCrystalizing.LowerWordsSpec | lab/src/crystalizing.rs:872-874 | the keywords of one text are the lower-cased forms of its words |
| LabCrystalizing.ExtractKeywords | lab/src/crystalizing.rs:869-878 | the lower-cased whitespace-separated words of all texts, without "" |
| LabCrystalizing.AddLowerWords | lab/src/crystalizing.rs:872-874 | the inner loop adds the lower-cased words |
| LabCrystalizing.KeywordsShape | lab/src/crystalizing.rs:869-878 | every keyword is non-empty, lower-case and free of whitespace |
| LabCrystalizing.UniquenessCheck | lab/src/crystalizing.rs:931-945 | Ok exactly when both sizes agree; otherwise NotUniqueKeys with the comment and both sizes |
| LabCrystalizing.StoredRoot | lab/src/crystalizing.rs:1244-1257 | the root category is stored as Broad, with the root's subcategories and no products |
| LabCrystalizing.StoredCategory | lab/src/crystalizing.rs:1259-1273 | a category carries its product ids exactly when its products are comparable, that is unless it is Broad, and keeps its status and subcategories |
| LabCrystalizing.AddToAllSpec | lab/src/crystalizing.rs:1234-1240 | a product's id is appended to the list of each of its categories; other categories are unchanged |
| LabCrystalizing.ByCategorySpec | lab/src/crystalizing.rs:1233-1241 | a category is present exactly when some product is in it, and then maps to the ids of those products in order |
| LabCrystalizing.GroupByCategory | lab/src/crystalizing.rs:1233-1241 | the loop builds that map |
| LabCrystalizing.AddIdToAll | lab/src/crystalizing.rs:1236-1240 | the inner loop appends the product id to the list of each of its category paths, creating a missing list, and leaves every other path as it was |
| LabWikidata.GetLabel | lab/src/wikidata.rs:179-181 | a label exactly when the item has one in that language, and then the item's label in that language |
| LabWikidata.LabelIn | lab/src/wikidata.rs:179-181 | the lookup of a language among labels: found exactly when some label has that language |
| LabWikidata.OtherLabelsSpec | lab/src/wikidata.rs:187-193 | the labels gathered when there is no English one are exactly the values of the non-English labels |
| LabWikidata.LabelsSpec | lab/src/wikidata.rs:183-195 | with an English label, exactly that label; without one, exactly the values of all labels |
| LabWikidata.GetLabels | lab/src/wikidata.rs:183-195 | the loop gathers the labels `LabelsSpec` describes |
| LabWikidata.GetAllLabelsAndAliases | lab/src/wikidata.rs:197-208 | the set holds the value of every label and of every alias |
| LabWikidata.Relates | lab/src/wikidata.rs:233-250 | true exactly when some claim of the property is a statement whose value is an item with the class's id |
| LabWikidata.StringsOfSpec | lab/src/wikidata.rs:252-274 | a text is gathered exactly when a claim holds it as a string value; non-string values are skipped |
| LabWikidata.GetStrings | lab/src/wikidata.rs:252-274 | the loop returns None for a missing property and otherwise the string values of its claims |
| LabWikidata.EntityIdsSpec | lab/src/wikidata.rs:210-231 | a failure names an item value whose id does not convert; a success holds exactly the converted ids of the item values |
| LabWikidata.GetEntityIds | lab/src/wikidata.rs:210-231 | the loop returns None for a missing property, stops at the first id that does not convert, and otherwise returns the ids |
| LabWikidata.IsOrganisationRules | lab/src/wikidata.rs:372-394 | a VAT number makes an organisation, then products do, then a manufacturer rules it out, and with no classes it is not one |
| LabWikidata.IsOrganisation | lab/src/wikidata.rs:372-394 | the loop over the classes decides as the ordered rules say |
| LabWikidata.ManufacturedItems | lab/src/wikidata.rs:372-398 | an item with a manufacturer is a product, and an organisation only through a VAT number or products |
| LabUtils.DisambiguateName | lab/src/utils.rs:140-144 | the result is lower-case and neither starts nor ends with whitespace |
| LabUtils.DisambiguateIdempotent | lab/src/utils.rs:140-144 | disambiguating twice is disambiguating once |
| LabUtils.DisambiguateIgnoresCase | lab/src/utils.rs:140-144 | names that differ only in case disambiguate alike |
| LabUtils.MergeHashmapsWith | lab/src/utils.rs:161-172 | the loop over the second map builds the merge `MergedWithSpec` describes |
| LabUtils.MergedWithSpec | lab/src/utils.rs:161-172 | the keys of both maps; a key of one side keeps its value, and a key of both gets the merge of the two values |
| LabUtils.MergedWithEmpty | lab/src/utils.rs:161-172 | merging in an empty map changes nothing |
| LabUtils.MergedWithExample | lab/src/utils.rs:192-201 | the unit test's maps merge with addition into the expected map |
| LabAdvisors.CountryMapFromSpec | lab/src/advisors.rs:50-56 | a tag is in the country table exactly when an entry with regions names it; every entry with regions must convert |
| LabAdvisors.AssembleCountries | lab/src/advisors.rs:215-224 | the loop builds the country table, or fails at the first tag or regions that do not convert |
| LabAdvisors.CategoryMapFromSpec | lab/src/advisors.rs:227-236 | a tag is in the category table exactly when an entry not marked for deletion and with categories names it |
| LabAdvisors.AssembleCategories | lab/src/advisors.rs:226-240 | the loop builds the category table |
| LabAdvisors.BCorpDomainsSpec | lab/src/advisors.rs:41-48 | the known domains are exactly the domains of the records' websites |
| LabAdvisors.HasDomains | lab/src/advisors.rs:101-109 | true exactly when some passed domain is a known BCorp domain |
| LabAdvisors.MatchesFromSpec | lab/src/advisors.rs:753-762 | a name is kept exactly when one of its matchings is accepted, and then holds such a match |
| LabAdvisors.MatchesAdvisorNew | lab/src/advisors.rs:753-765 | the names with an accepted match, each mapped to that match's Wikidata id; condensing/src/advisors.rs:452-461 builds the same map |
| LabAdvisors.VatToWikiFromSpec | lab/src/advisors.rs:140-153 | a VAT id is mapped only when it was already, or when a record with that VAT number has a matched name, and then to that name's match |
| LabAdvisors.VatToWikiAborts | lab/src/advisors.rs:145-146 | a VAT number that does not parse aborts the construction with its error, whatever the record's name |
| LabAdvisors.EuEcolabelAdvisorNew | lab/src/advisors.rs:128-156 | the two loops build the VAT table from the accepted matches |
| LabAdvisors.TcoHasCompany | lab/src/advisors.rs:299-307 | a company is known exactly when some entry names it |
| LabAdvisors.FtiAdvisorNew | lab/src/advisors.rs:342-366 | fails exactly when some id occurs twice, with exactly those ids; otherwise maps every id to its entry |
| LabAdvisors.WikidataIsOrganisationSpec | lab/src/advisors.rs:548-562 | a product is never an organisation; otherwise an item is one by its claims or as a known manufacturer |
| LabAdvisors.IncludedEntriesSpec | lab/src/advisors.rs:603-608 | an entry is read exactly when a substrate that is not excluded has it |
| LabAdvisors.SubstrateAdvisor.Empty | lab/src/advisors.rs:597-601 | no ids and no domains |
| LabAdvisors.SubstrateAdvisor.ParseInto | lab/src/advisors.rs:662-666 | the set grows by the parsed texts, or the first text that does not parse is the error |
| LabAdvisors.SubstrateAdvisor.ProcessEntry | lab/src/advisors.rs:658-685 | a producer entry adds its wiki ids and domains, a product entry its wiki ids; the first unparsable id is the error |
| LabAdvisors.SubstrateAdvisor.HasDomains | lab/src/advisors.rs:698-706 | true exactly when some listed domain is known |
| LabAdvisors.SubstrateAdvisor.Gather | lab/src/advisors.rs:611-647 | the ids and domains grow by those of the substrate's entries, or some entry's unparsable id is the error |
| LabAdvisors.SubstrateAdvisor.Load | lab/src/advisors.rs:593-656 | the ids and domains of the entries of every substrate not excluded, or the error of an unparsable id in one of them |
| LabCondensing.IsOrganisation | lab/src/condensing.rs:60-86 | the loop over the websites decides as `SourcesIsOrganisationSpec` describes |
| LabCondensing.SourcesIsOrganisationSpec | lab/src/condensing.rs:60-86 | a product is never an organisation; otherwise the Wikidata advisor's verdict, a Fashion Transparency Index entry or a TCO entry each make one |
| LabCondensing.Collector.constructor | lab/src/condensing.rs:151-155 | no producers and no products |
| LabCondensing.Collector.InsertProducer | lab/src/condensing.rs:183-192 | a new id stores the producer; a known id stores the merge of the stored producer with the new one; products are unchanged |
| LabCondensing.Collector.AddProduct | lab/src/condensing.rs:194-196 | the product is appended; producers are unchanged |
| LabCondensing.Collector.Merge | lab/src/condensing.rs:175-179 | producers merged with the producer merge, products appended |
| LabCondensing.Collector.BuildSubstrate | lab/src/condensing.rs:160-173 | the stored producers, each once and sorted by id, and a permutation of the products sorted by id |
| LabCondensing.InsertKeepsKeys | lab/src/condensing.rs:183-192 | inserting keeps every producer stored under its own id |
| LabCondensing.MergeKeepsKeys | lab/src/condensing.rs:175-179 | merging keeps every producer stored under its own id |
| LabCondensing.LinkSlug | lab/src/condensing.rs:923 | the slug is lower-case, no longer than the name, and holds no '.' and no ' '; condensing/src/advisors.rs:70-72 guesses the link id the same way |
| LabCondensing.GuessLinkIdFromCompanyName | lab/src/condensing.rs:920-927 | the BCorp company prefix, then the slug of the name, then '/' |
| LabCondensing.GuessLinkIgnoresCase | lab/src/condensing.rs:920-927 | names that differ only in case give the same link |
| LabCondensing.FilterLatest | lab/src/condensing.rs:964-978 | each company id maps to its latest record, the earliest of ties |
| LabCondensing.FilteredIsLatest | lab/src/condensing.rs:964-978 | every company of the records is kept, with one of its own records that no other record of it post-dates |
| LabCondensing.GetProducerId | lab/src/condensing.rs:670-677 | no id exactly when the disambiguated brand owner is empty; otherwise that lower-case name |
| LabCondensing.BlankOwnerHasNoId | lab/src/condensing.rs:670-677 | a brand owner of whitespace only has no producer id |
| LabCondensing.GuessProducerWikiId | lab/src/condensing.rs:679-699 | no id without a producer id; the matched id of the producer id when it has one; otherwise the brand labels' match when exactly one id matches |
| LabCondensing.MatchedIdsSpec | lab/src/condensing.rs:686-690 | an id is found exactly when some brand label disambiguates to a name matched to it |
| LabCondensing.MatchLabels | lab/src/condensing.rs:686-690 | the loop collects those ids |
| LabCondensing.Vec | lab/src/condensing.rs:701-707 | empty exactly for the empty text, and otherwise the text alone |
| LabCondensing.SellRegionsSpec | lab/src/condensing.rs:646-668 | every region as soon as a tag maps to the world; otherwise unknown without countries, and the countries found otherwise |
| LabCondensing.ExtractSellRegions | lab/src/condensing.rs:646-668 | the loop over the sell-country tags returns those regions |
| LabCondensing.CodesOfSpec | lab/src/condensing.rs:628-633 | a country is found exactly when some tag maps to a list holding it |
| LabCondensing.CollectRegions | lab/src/condensing.rs:628-640 | the countries the tags give, or None when there are none |
| LabCondensing.ExtractProductionRegionsAsWritten | lab/src/condensing.rs:624-644 | the regions of the sell-country tags |
| LabCondensing.ExtractProductionRegions | lab/src/condensing.rs:624-644 | the regions of the manufacturing-place tags |
| LabCondensing.ProductionRegionsIgnoreManufacturing | lab/src/condensing.rs:624-644 | a record made in France and sold nowhere gets no production region as written, and France when corrected |
| LabUpdating.CompareStrings | lab/src/updating.rs:17 | Less, Greater or Equal exactly as the strings compare lexicographically |
| LabUpdating.CompareItems | lab/src/updating.rs:14-21 | Less exactly when the first item has the larger count, or the same count and the smaller tag; Equal only for equal items |
| LabUpdating.ItemLessIsStrictTotalOrder | lab/src/updating.rs:14-21 | the summary order is irreflexive, transitive and total on distinct items |
| LabUpdating.AddTagsSpec | lab/src/updating.rs:167-169 | counting tags adds to each tag's count its number of occurrences, and the map knows exactly the tags seen |
| LabUpdating.CountTags | lab/src/updating.rs:167-169 | the counting loop computes that map |
| LabUpdating.SortedItems | lab/src/updating.rs:28-29 | the drained counts, one item per tag, sorted by `compare_items` |
| LabUpdating.SumWhereAtMost | lab/src/updating.rs:33-40 | the uses of the assigned tags never exceed all uses |
| LabUpdating.Percentage | lab/src/updating.rs:49 | the rounded-down percentage of `part` in `all`, None when there are no uses at all |
| LabUpdating.PercentageAtMost100 | lab/src/updating.rs:49 | a share of a whole is at most 100 percent |
| LabUpdating.SummarizeCountries | lab/src/updating.rs:23-50 | one entry per gathered tag with its count, description and old regions, sorted by `compare_items`, and the share of uses with regions |
| LabUpdating.CountryRows | lab/src/updating.rs:34-47 | the loop makes one entry per item and sums the assigned and all uses |
| LabUpdating.CountryRowsFollowItems | lab/src/updating.rs:28-47 | entries made from sorted items list every gathered tag once, sorted |
| LabUpdating.CategoryEntryOf | lab/src/updating.rs:69-97 | the entry keeps the tag and its count |
| LabUpdating.SummarizeClasses | lab/src/updating.rs:53-102 | one entry per gathered tag with its count, description and old mapping, sorted, and the shares of assigned and of deleted uses |
| LabUpdating.CategoryRows | lab/src/updating.rs:65-99 | the loop makes one entry per item and sums the assigned, the deleted and all uses |
| LabUpdating.CategoryRowsFollowItems | lab/src/updating.rs:58-99 | entries made from sorted items list every gathered tag once, sorted |
| LabUpdating.MergedCounts | lab/src/updating.rs:131 | merging counts adds them tag by tag |
| LabUpdating.OffCombinedSpec | lab/src/updating.rs:129-144 | combining adds the country and category counts tag by tag, and adds every counter |
| LabUpdating.OffCombine | lab/src/updating.rs:129-144 | the combination by merging the maps |
| LabUpdating.OffCombinedCommutes | lab/src/updating.rs:129-144 | the order of combining does not matter |
| LabUpdating.OffProcessedSpec | lab/src/updating.rs:155-190 | a record counts once; its sell and production tags add to the country counts, its category tags to the category counts, and each empty field to its counter |
| LabUpdating.OffWorker.constructor | lab/src/updating.rs:147-149 | nothing counted |
| LabUpdating.OffWorker.Process | lab/src/updating.rs:155-190 | the collector becomes the processed one |
| LabUpdating.OffWorker.Tally | lab/src/updating.rs:159-185 | the counting of `process` on the extracted sell countries, production countries and categories gives the tallied collector: one more record, each tag counted, and an empty list counted in its own counter |
| LabUpdating.OffFoldedCounts | lab/src/updating.rs:231-238 | the stashed counts are the sums over every stashed collector |
| LabUpdating.Stash.constructor | lab/src/updating.rs:216-226 | nothing stashed |
| LabUpdating.Stash.Stash | lab/src/updating.rs:231-238 | the first input is kept and every later one combined into it |
| LabUpdating.WikidataCombinedSpec | lab/src/updating.rs:316-337 | counts and counters are added; a description known to both sides keeps the left one |
| LabUpdating.WikidataCombine | lab/src/updating.rs:316-337 | the combination by merging the maps |
| LabUpdating.ProcessCountries | lab/src/updating.rs:371-382 | the loop counts the tags of the item's countries |
| LabUpdating.ProcessCategories | lab/src/updating.rs:384-401 | the loop counts the tags of the item's classes, then of its superclasses |
| LabUpdating.ProducerStepSpec | lab/src/updating.rs:428-431 | a producer counts as an organisation and its country tags are counted; nothing else moves |
| LabUpdating.ProductStepSpec | lab/src/updating.rs:432-435 | a product counts as a product; other items leave the classes alone |
| LabUpdating.ItemProcessedCounts | lab/src/updating.rs:420-451 | producers count as organisations with their countries, products as products; the entry count does not move here |
| LabUpdating.WikidataWorker.constructor | lab/src/updating.rs:355-361 | nothing counted, with the substrates' producer and product ids |
| LabUpdating.WikidataWorker.Process | lab/src/updating.rs:420-451 | an entity counts as an entry; an item is processed, with the error of an id that does not convert; a property changes nothing else |
| LabUpdating.CountBCorpCountries | lab/src/updating.rs:542-546 | each record adds one to the count of its country |
| LabFiltering.ShouldKeepRules | lab/src/filtering.rs:41-64 | products and items whose id a substrate knows are kept; an item known by no id and without an official website is dropped |
| LabFiltering.WebsitesAreNotDomains | lab/src/filtering.rs:56-60 | an item whose only claim is the website of a substrate's domain is dropped as written, and kept once the website is reduced to its domain |
| LabFiltering.HttpsHostDomain | models/src/utils.rs:9-24 | the domain of "https://" followed by a host is that host |
| LabFiltering.WebsiteOnlyItemFacts | lab/src/wikidata.rs:308-310 | an item with only an official website lists that website and is neither a product nor an organisation |
| LabFiltering.HasWikipediaPage | lab/src/filtering.rs:79-84 | true exactly when some sitelink's site is "enwiki" |
| LabFiltering.FilteringWorker.constructor | lab/src/filtering.rs:29-34 | the worker holds the two advisors |
| LabFiltering.FilteringWorker.Keep | lab/src/filtering.rs:41-64 | the intended `should_keep` decision on the advisors' ids and domains, with websites reduced to domains (the Findings row on lines 56-60; ShouldKeepAsWritten is the decision as written) |
| LabFiltering.FilteringWorker.Process | lab/src/filtering.rs:70-92 | a message is sent exactly for an item kept by the intended decision (the Findings row on lines 56-60), with its line and whether it has an English Wikipedia page |
| LabFiltering.Flagged | lab/src/filtering.rs:127-129 | at most one per message |
| LabFiltering.Entries | lab/src/filtering.rs:125 | the dump line of each message, in order |
| LabFiltering.FilteringStash.constructor | lab/src/filtering.rs:120-122 | nothing received, counted or written |
| LabFiltering.FilteringStash.AddInput | lab/src/filtering.rs:124-131 | the line is buffered, one more entry counted, and one more with a page when flagged; nothing written |
| LabFiltering.FilteringStash.IsFull | lab/src/filtering.rs:133-136 | full exactly at 100000 buffered lines |
| LabFiltering.FilteringStash.Save | lab/src/filtering.rs:138-150 | the buffered lines are appended to the output, in order |
| LabFiltering.FilteringStash.Clear | lab/src/filtering.rs:152-154 | the buffer is emptied; counts and output are unchanged |
| LabFiltering.FilteringStash.Stash | lab/src/filtering.rs:161-173 | the line is buffered, and a full buffer is written out and emptied |
| LabFiltering.FilteringStash.Finish | lab/src/filtering.rs:175-182 | everything received is written in order, and the two counts are those of all received messages |
| LabAnalysis.CloneWithAmount | lab/src/analysis.rs:291-293 | the same class with the new amount |
| LabAnalysis.AnalysisCollector.constructor | lab/src/analysis.rs:315-322 | no products and no classes |
| LabAnalysis.AnalysisCollector.AddProduct | lab/src/analysis.rs:326-328 | the product is appended; classes are unchanged |
| LabAnalysis.AnalysisCollector.AddClass | lab/src/analysis.rs:331-333 | the class is appended; products are unchanged |
| LabAnalysis.AnalysisCollector.Merge | lab/src/analysis.rs:337-340 | both lists extended by the other collector's, in order |
| LabAnalysis.IdSet | lab/src/analysis.rs:355-364 | exactly the ids of an optional list |
| LabAnalysis.ItemClassesSpec | lab/src/analysis.rs:355-364 | a class of the product is exactly one of its superclasses or classes |
| LabAnalysis.GetClasses | lab/src/analysis.rs:355-364 | `get_classes` yields those classes, or the error of an id that does not convert |
| LabAnalysis.AnalysisWorker.constructor | lab/src/analysis.rs:351-353 | an empty collector and the known class ids |
| LabAnalysis.AnalysisWorker.Process | lab/src/analysis.rs:382-409 | an item without an English label adds nothing; otherwise a known class is added with amount 1, and a manufactured item with some class adds a product |
| LabAnalysis.ClassMapSpec | lab/src/analysis.rs:444-445 | every collected id is a key and holds a collected class of that id |
| LabAnalysis.Listing | lab/src/analysis.rs:447-457 | at most one per product |
| LabAnalysis.UncategorizedClassesSpec | lab/src/analysis.rs:447-457 | a class is counted exactly when it was collected, is outside the category list, and some product belongs to it; its amount is the number of such products |
| LabAnalysis.ListingPositive | lab/src/analysis.rs:447-457 | the count is positive exactly when some product belongs to the class |
| LabAnalysis.CountUncategorized | lab/src/analysis.rs:447-457 | the nested loops compute that table |
| LabAnalysis.AmountLessIsStrictWeakOrder | lab/src/analysis.rs:461 | ordering by amount is a strict weak order |
| LabAnalysis.SelectPrintable | lab/src/analysis.rs:460-467 | exactly the printable classes, more than 50 products and not ignored, in increasing amount |
| LabAnalysis.AnalysisStash.constructor | lab/src/analysis.rs:420-425 | an empty collector |
| LabAnalysis.AnalysisStash.Stash | lab/src/analysis.rs:430-433 | the input's products and classes are appended |
| LabAnalysis.AnalysisStash.Finish | lab/src/analysis.rs:435-471 | the printed classes are exactly the printable uncategorised ones, sorted by amount, and "all categorised" is reported exactly when none is printed |
| LabCommands.GroupFlags | lab/src/commands.rs:162-176 | every group uses filtered or immediate data, and only All uses both |
| LabMain.ClockSpec | lab/src/main.rs:8-14 | minutes and seconds are below 60 and the parts add up to the seconds elapsed |
| LabMain.FormatElapsedTimeInjective | lab/src/main.rs:8-14 | different numbers of whole seconds format differently |
| LabMain.FormatElapsedTimeExamples | lab/src/main.rs:102-111 | 134 seconds format as "0h 2m 14s" and 3724 seconds as "1h 2m 4s" |
| BackendRetrieve.DecodeCategoryParam | backend/src/retrieve.rs:523-525 | the same length, with no '.' left |
| BackendRetrieve.EncodeCategoryParam | backend/src/retrieve.rs:527-529 | the same length, with no '/' left |
| BackendRetrieve.CategoryParamRoundTrip | backend/src/retrieve.rs:523-529 | encoding then decoding gives back a name without '.', and decoding then encoding a parameter without '/' |
| BackendRetrieve.PrepareSubcategories | backend/src/retrieve.rs:531-548 | one entry per subcategory, labelled with it, whose id is the subcategory under the root and the name, '.', and the subcategory otherwise |
| BackendRetrieve.PrepareSupercategories | backend/src/retrieve.rs:550-569 | the loop lists the entries `SupercategoriesSpec` describes |
| BackendRetrieve.EntriesSpec | backend/src/retrieve.rs:556-567 | entry `i` is labelled with level `i` and has the buffer of the first `i + 1` levels as id |
| BackendRetrieve.FirstPartNonEmpty | backend/src/retrieve.rs:555-557 | a name that does not start with '.' has a non-empty first level |
| BackendRetrieve.BufferIsJoin | backend/src/retrieve.rs:556-563 | with a non-empty first level, the buffer is the levels joined with '.' |
| BackendRetrieve.SupercategoriesSpec | backend/src/retrieve.rs:550-569 | one entry per level, labelled with it, whose id joins the levels so far with '.'; the last id is the name |
| BackendRetrieve.RootSupercategories | backend/src/retrieve.rs:742-747 | the root has no supercategories |
| BackendRetrieve.SubcategoryExtendsSupercategories | backend/src/retrieve.rs:531-569 | the supercategories of a subcategory are its parent's and one more entry for itself |
| BackendRetrieve.ChildEntries | backend/src/retrieve.rs:556-567 | appending a level appends one entry |
| BackendRetrieve.TopSupercategories | backend/src/retrieve.rs:750-755 | a top-level category lists only itself |
| BackendRetrieve.ThreeLevelSupercategories | backend/src/retrieve.rs:723-740 | a three-level name lists its three levels with growing ids |
| BackendRetrieve.Tokens | backend/src/retrieve.rs:241-242 | every token is non-empty and holds no space |
| BackendRetrieve.KeywordLookups | backend/src/retrieve.rs:263-271 | every keyword with its index for organisations, then every keyword for products |
| BackendRetrieve.SearchByText | backend/src/retrieve.rs:236-274 | a single numeric token shorter than 15 is looked up as a GTIN and a single non-numeric one as an organisation token; then every lower-cased token is looked up as a keyword, for organisations and then products |
| BackendRetrieve.KeywordsAreLowerAndNonEmpty | backend/src/retrieve.rs:263 | every keyword is lower-case and non-empty |
| BackendModels.Hack | backend/src/models.rs:15-28 | the id is kept and exactly one of the two variants is set, the one of the link's kind |
| BackendModels.HackRoundTrip | backend/src/models.rs:15-28 | the flattened link reads back as the link, and a flattened link with one variant flattens back to itself |
| BackendModels.FirstName | backend/src/models.rs:57 | a name exactly when there is one, and then the first |
| BackendModels.OrganisationLinkId | backend/src/models.rs:64-74 | none without ids; otherwise the first VAT id, else the first Wikidata id, else the first domain, each in canonical form |
| BackendModels.ProductLinkId | backend/src/models.rs:119-129 | none without ids; otherwise the first GTIN, else the first EAN, else the first Wikidata id, each in canonical form |
| BackendModels.ConvertOrganisation | backend/src/models.rs:61-90 | a result exactly when the organisation has a link id, naming its database id, linking by that id, and labelled with its name or "" |
| BackendModels.ConvertProduct | backend/src/models.rs:116-145 | a result exactly when the product has a link id, naming its database id, linking by that id, and labelled with its name or "" |
| BackendModels.OrganisationFromDbConverts | backend/src/models.rs:53-90 | an organisation read from the database converts unless it has no ids, keeps its key as decimal, and is labelled with its first name |
| BackendModels.ProductFromDbConverts | backend/src/models.rs:108-145 | a product read from the database converts unless it has no ids, keeps its key as decimal, and is labelled with its first name |
| BackendDb.LinesAreJoined | backend/src/db.rs:46-50 | the query text is the lines joined by newlines, with one after the last |
| BackendDb.LinesSplit | backend/src/db.rs:46-50 | splitting the text at newlines gives back the lines and a final empty piece |
| BackendDb.Query.Builder | backend/src/db.rs:38-40 | the database name, no text and no variables |
| BackendDb.Query.GetQuery | backend/src/db.rs:42-44 | the lines written so far, each ended by a newline |
| BackendDb.Query.Line | backend/src/db.rs:46-50 | the line and a newline are appended; the variables are unchanged |
| BackendDb.Query.Cond | backend/src/db.rs:52-58 | the line is appended exactly when the condition holds |
| BackendDb.Query.Bind | backend/src/db.rs:60-63 | the variable is bound to the value, replacing an earlier binding; the text is unchanged |
| BackendDb.Query.Bond | backend/src/db.rs:65-71 | the variable is bound only when a value is given |
| BackendDb.WriteLines | backend/src/db.rs:46-50 | the lines are appended in order |
| BackendDb.AlternativesQuery | backend/src/db.rs:252-282 | the query of `find_product_alternatives`: its lines and its variables for the given arguments |
| BackendDb.AlternativesRegionFilter | backend/src/db.rs:258-279 | the region filter lines and the `region_code` variable appear exactly when a region is given, and `id` and `category` are always bound |
| CondensingKnowledge.MergeRegionsSpec | condensing/src/knowledge.rs:107-127 | World absorbs either side, Unknown is neutral, and two lists become a strictly sorted list holding exactly the countries of both |
| CondensingKnowledge.MergeRegionsLists | condensing/tests/knowledge.rs:3-29 | the two lists of the regions test merge to the same sorted union in either order |
| CondensingKnowledge.MergedListsAre | condensing/src/knowledge.rs:113-124 | merging two sorted lists gives exactly the sorted, duplicate-free union of their countries |
| CondensingKnowledge.NewWithEuEcolabel | condensing/src/knowledge.rs:207-214 | only the EU Ecolabel certificate is set, with the match accuracy, so one certification is counted |
| CondensingKnowledge.GetNum | condensing/src/knowledge.rs:220-225 | at most four; zero exactly for no certificates and four exactly when all four are present |
| CondensingKnowledge.InheritSpec | condensing/src/knowledge.rs:230-240 | BCorp, FTI and TCO are taken from the other side only where it has them, the EU Ecolabel is never touched, the count never drops, and inheriting twice changes nothing more |
| CondensingKnowledge.MergeCertificationsSpec | condensing/src/knowledge.rs:188-202 | a certificate already present is kept, a missing one is taken from the other side |
| CondensingKnowledge.MergeOrganisationSpec | condensing/src/knowledge.rs:345-357 | different ids leave the organisation unchanged; otherwise VAT ids and websites are united, names, descriptions and images appended, and certifications merged |
| CondensingKnowledge.MergeProductSpec | condensing/src/knowledge.rs:407-420 | different ids leave the product unchanged; otherwise GTINs and the follow links are united and names, descriptions and images appended, while regions and score stay |
| CondensingCondensing.WithProduct | condensing/src/condensing.rs:78-85 | the category index gains exactly the listed categories as keys |
| CondensingCondensing.LinkKeepsConsistent | condensing/src/condensing.rs:73-92 | linking a product to categories keeps the product-to-category and category-to-product indexes each other's inverse |
| CondensingCondensing.MergeKeepsConsistent | condensing/src/condensing.rs:104-128 | merging two collectors with consistent indexes gives consistent indexes |
| CondensingCondensing.CondensingCollector.constructor | condensing/src/condensing.rs:22-40 | an empty collector, whose indexes are consistent |
| CondensingCondensing.CondensingCollector.AddProduct | condensing/src/condensing.rs:44-46 | a new id is inserted, an existing product is merged with the new one, and nothing else changes |
| CondensingCondensing.CondensingCollector.AddOrganisation | condensing/src/condensing.rs:49-58 | a new id is inserted, an existing organisation is merged with the new one, and nothing else changes |
| CondensingCondensing.CondensingCollector.LinkProductToOrganisations | condensing/src/condensing.rs:61-70 | the given organisations join the product's set, and nothing else changes |
| CondensingCondensing.CondensingCollector.LinkProductToCategories | condensing/src/condensing.rs:73-92 | the categories join the product's set, the product joins each category's set, and the two indexes stay consistent |
| CondensingCondensing.CondensingCollector.LinkProductToSellRegions | condensing/src/condensing.rs:95-101 | the product's regions are replaced by the given ones, and nothing else changes |
| CondensingCondensing.CondensingCollector.Merge | condensing/src/condensing.rs:104-128 | every map is merged key by key with the entity merges, set unions and region merge, and the indexes stay consistent |
| CondensingCondensing.ExtractOpenFoodFactsCategories | condensing/src/condensing.rs:160-168 | the loop yields the categories `OffCategoriesSpec` describes, in tag order |
| CondensingCondensing.OffCategoriesSpec | condensing/src/condensing.rs:160-168 | a category is yielded exactly when some tag longer than three characters starts with "en:" and the category is the rest of it |
| CondensingCondensing.OffCategoriesShape | condensing/src/condensing.rs:160-168 | a yielded category is never empty and holds no ',' |
| CondensingCondensing.ExtractKeywords | condensing/src/condensing.rs:192-202 | the keywords of all texts, without the empty word |
| CondensingCondensing.TextsKeywordsSpec | condensing/src/condensing.rs:192-202 | a keyword is found exactly when it is a keyword of one of the texts |
| CondensingCondensing.KeywordsShape | condensing/src/condensing.rs:192-202 | every keyword is non-empty, lower-case and free of white space |
| CondensingCondensing.CategoryDbId | condensing/src/condensing.rs:388 | the id is "categories/" followed by the category name |
| CondensingCondensing.EmittedDistinct | condensing/src/condensing.rs:380-421 | edges built by an injective labelling from distinct pairs are distinct |
| CondensingCondensing.FanOut | condensing/src/condensing.rs:389-393 | one edge per member of the set is appended, and the pairs grow by exactly those members |
| CondensingCondensing.PrepareCategories | condensing/src/condensing.rs:380-405 | exactly the categories with fewer than 300000 products are listed, once each with its db id, and exactly their (category, product) pairs become edges, distinct when the product ids are |
| CondensingCondensing.PrepareManufacturing | condensing/src/condensing.rs:409-421 | exactly one edge per linked (product, organisation) pair, from the organisation to the product, distinct when the db ids are |
| CondensingAdvisors.BCorpAdvisorNewSpec | condensing/src/advisors.rs:21-27 | the advisor knows exactly the domains of the records' websites, each with the company name of its last record |
| CondensingAdvisors.HasDomains | condensing/src/advisors.rs:46-53 | true exactly when one of the domains is a BCorp domain |
| CondensingAdvisors.GetCertFromDomains | condensing/src/advisors.rs:57-64 | a certificate exactly when `HasDomains` holds on the same set, with the link id guessed from the name of a known domain |
| CondensingAdvisors.GetCompanyCert | condensing/src/advisors.rs:251-261 | a certificate exactly when the company is known, carrying its stored brand name |
| CondensingAdvisors.TcoCertSpec | condensing/src/advisors.rs:225-261 | a company is certified exactly when some entry names it, with the name of its last entry |
| CondensingAdvisors.FtiGetCert | condensing/src/advisors.rs:319-328 | a certificate exactly when the company is known, carrying its score |
| CondensingAdvisors.FtiCertOfSource | condensing/src/advisors.rs:275-328 | building fails exactly on repeated ids, naming all of them; otherwise a company has a certificate exactly when an entry names it, with that entry's score |
| CondensingUpdating.UpdateCollector.constructor | condensing/src/updating.rs:15-21 | no tags counted and no empty records |
| CondensingUpdating.UpdateCollector.Merge | condensing/src/updating.rs:25-30 | counts merged tag by tag with addition, and the empty counts added |
| CondensingUpdating.UpdateCollector.ProcessRecord | condensing/src/updating.rs:76-92 | a record without sell countries adds one empty record; otherwise each of its tags counts one more use |
| CondensingUpdating.MergedCountsSpec | condensing/src/updating.rs:25-30 | the merged count of a tag is the sum of both sides' counts, the tags are those of either side, and the merge is symmetric |
| CondensingUpdating.ProcessedCountsSpec | condensing/src/updating.rs:82-92 | each tag's count grows by the number of its occurrences among the record's sell countries, and only those tags appear |
| CondensingUpdating.MoreUsedIsStrictWeakOrder | condensing/src/updating.rs:49 | comparing by count, most first, is a strict weak order, so sorting by it is well defined |
| CondensingUpdating.SortedByUse | condensing/src/updating.rs:48-49 | each counted tag exactly once with its count, sorted most used first |
| CondensingUpdating.CountryRows | condensing/src/updating.rs:51-62 | one entry per item with the mapped regions, and the sums of assigned and of all uses |
| CondensingUpdating.Finalize | condensing/src/updating.rs:42-72 | one entry per counted tag with its count and mapped regions, most used first, and a percentage of assigned uses of at most 100, absent when nothing was counted |
| WikidataDump.Load | wikidata/src/dump.rs:64-74 | "json" and "jsonl" are read as they are, "gz" and "bz2" are decompressed, and any other extension, or none, is an error carrying it |
| WikidataDump.EntityText | wikidata/src/dump.rs:181-182 | the entity text followed by the removed ',' when there was one gives back the line |
| WikidataDump.EntityTextOfKeptLine | wikidata/src/dump.rs:168-186 | a line that is not ignored never yields an empty entity |
| WikidataDump.EntitiesSpec | wikidata/src/dump.rs:153-186 | the callback receives one non-empty entity per kept line, each its line without a trailing ',', and no other |
| WikidataDump.Loader.constructor | wikidata/src/dump.rs:64-86 | the loader keeps the chosen compression method and has handed out nothing |
| WikidataDump.Loader.HandleLine | wikidata/src/dump.rs:172-186 | an ignored line counts 0 and calls nothing; any other line calls the callback once with its entity text and counts 1 |
| WikidataDump.Loader.Run | wikidata/src/dump.rs:93-166 | the callback receives the entities of the lines in order, and the count returned is their number |
| CondenserUtils.SplitOnce | condenser/src/utils.rs:15 | none exactly when the separator is absent; otherwise the text is the part before its first occurrence, the separator, and the rest |
| CondenserUtils.SplitOnceHost | condenser/src/utils.rs:15-17 | keeping the host of a split is keeping the text before the first '/' |
| CondenserUtils.AgreesWithModels | condenser/src/utils.rs:4-19 | the condenser's domain extraction gives the same domain as the shared models utility for every URL |
| CondenserUtils.ExtractDomainFromUrlShape | condenser/src/utils.rs:4-19 | an extracted domain holds no '/' and is lower-case |
| CondenserDataCollector.MergeCertificationsSpec | condenser/src/knowledge.rs:15-24 | each flag of the merge is the or of both sides' flags, so merging is commutative, associative and idempotent |
| CondenserDataCollector.InheritedCertificationsSpec | condenser/src/data_collector.rs:58-63 | a flag ends up set exactly when it was set or some listed, known manufacturer has it |
| CondenserDataCollector.PostprocessedSpec | condenser/src/data_collector.rs:56-66 | only the certifications of a product change, not at all without manufacturer ids, never losing a flag and gaining exactly the flags of its known manufacturers |
| CondenserDataCollector.InheritFrom | condenser/src/data_collector.rs:59-63 | the loop computes the certifications `InheritedCertificationsSpec` describes |
| CondenserDataCollector.DataCollector.constructor | condenser/src/data_collector.rs:24-30 | nothing collected |
| CondenserDataCollector.DataCollector.AddManufacturerIds | condenser/src/data_collector.rs:33-37 | every given id joins the set, and nothing else changes |
| CondenserDataCollector.DataCollector.AddProduct | condenser/src/data_collector.rs:40-42 | the product is appended, and nothing else changes |
| CondenserDataCollector.DataCollector.AddManufacturer | condenser/src/data_collector.rs:45-47 | the manufacturer is stored under its id, replacing any earlier one, and nothing else changes |
| CondenserDataCollector.DataCollector.Postprocess | condenser/src/data_collector.rs:56-66 | every product, in place and in order, becomes the product `PostprocessedSpec` describes, and nothing else changes |
| CondenserDataCollector.DataCollector.Merge | condenser/src/data_collector.rs:79-85 | ids united, products appended in order, and manufacturers extended with the other side winning |
| CondenserDataCollector.MergedManufacturers | condenser/src/data_collector.rs:83 | after a merge an id is known when either side knows it, and maps to the other side's manufacturer when that side has one |
| CondenserAdvisors.BCorpAdvisorNewSpec | condenser/src/advisors.rs:17-21 | the advisor knows exactly the domains of the records' websites |
| CondenserAdvisors.HasDomains | condenser/src/advisors.rs:24-31 | true exactly when one of the domains is a BCorp domain, never for no domains |
| CondenserAdvisors.ConsumersAdvisorLoad | condenser/src/advisors.rs:39-41 | loading succeeds whatever the path |

## Left out

- **Processes and I/O.**
  - Threads, channels, task pools and the `Flow` wiring of the runners are not modelled.
  - File, bucket and database I/O, HTTP and the wall clock are not modelled.
  - Reading and writing YAML, JSON and CSV is not modelled; parsed records are parameters.
  - Logging and printed summaries are left out. Where a summary prints a computed percentage, the model returns that value instead.
- **Wikidata dump reading.** Opening the file, seeking and decompressing (wikidata/src/dump.rs:105-151) are left out. The loader is given the decompressed lines, and the async callback is modelled as the list of strings it receives.
- **Dump I/O errors.** `WikidataDump.Loader.Run` does not model the I/O errors a read or a callback can raise; only the unknown-extension error of `Load` is modelled.
- **Iteration order.**
  - The iteration order of `HashMap` and `HashSet` is left open. Methods that walk a set pick an arbitrary element.
  - Contracts about such walks state only what holds for every order.
- **Integer widths.**
  - `usize`, `u32` and `u64` counters are `nat`, so overflow is not modelled.
  - The u64 bounds the parsers check (MAX_EAN, MAX_GTIN, the u64 range) are modelled explicitly.
- **Floating point.** `f64` match accuracies and scores are `real` and only carried along. The weighted score trees and Levenshtein matching are not part of this model.
- **External crates.**
  - `isocountry` codes are opaque numbered countries.
  - `serde`, `postcard` and md5 are left out, so the md5-hashed keyword keys are not modelled.
  - The `transpaer_schema` record `merge`/`sort` is left out, and `api::Id`/`ShortString` validation panics are not modelled.
  - Wikidata `to_num_id` and `to_db_id` are not visible; they are passed in as function parameters.
- **condensing/src/utils.rs** is not part of this model. Its `merge_hashmaps` and `merge_hashmaps_with` are taken to behave like those of lab/src/utils.rs, which are modelled.
- **Sourced ids.** The `Sourced*` id wrappers are modelled as their inner ids.
- **Open Food Facts regions.** The conversion `Regions::from` of Open Food Facts regions is modelled as the identity.
- **Not modelled in the condensing crate.**
  - `prepare_organisations`, `prepare_products`, `prepare_gtins`, the keyword and presentation builders, and the `save_*` functions only reshape data for files and md5 keys.
  - The EU Ecolabel, Open Food Facts, Wikidata and Library advisors of the condensing crate are not modelled. They are plain lookups or file loaders; the lab's versions of the first three are modelled.
  - `FashionTransparencyIndexAdvisor::prepare_presentation` is not modelled (f64 ranking).
  - The per-entity processing of `process_wikidata_entity`, `process_open_food_facts_record` and `process_eu_ecolabel_record` in condensing/src/condensing.rs is not modelled. Its building blocks (category and keyword extraction, the collector's add and link operations) are.
- **Coagulation and repeated external ids.** `LabCoagulating.IdCombiner` states the cluster property ("records that share an individual id get the same unique id") only when the external ids are distinct. With a repeated external id the later record overwrites the earlier one's unique id. For example, the records [(e, []), (e, [x, y]), (g, [x]), (h, [y])] end with e in cluster 3 and g in cluster 2, although e and g share x. `Coagulate` rejects such data when it is read back.
- **Coagulation test outputs.** The concrete test outputs at lab/src/coagulating.rs:784-850 are not evaluated. The properties they illustrate are proved for all inputs.
- **Domain extraction test inputs.** The test inputs of models/src/utils.rs and condenser/src/utils.rs:25-34 are not evaluated one by one; `ModelsUtils.DomainOfParts` proves the general case they are instances of.
- **Wiki id parsing in the collecting crate.** `WikiId::try_from` of the collecting crate is not visible. It is modelled as 'Q' followed by a decimal number, as its tests use it.
- **Substrate names.** lab/src/substrate.rs calls `Source::from_string`, which is not visible. It is treated as `Source::from_stem`.
- LabUpdating.Percentage: the source divides by zero, and so panics, when no uses were counted. The model returns None in that case.
- LabFiltering.FilteringWorker.Keep: decides by the corrected `ShouldKeep` of the Findings row for lab/src/filtering.rs:56-60, where websites are reduced to domains before the substrate lookup. `LabFiltering.ShouldKeepAsWritten` models the lines as written.
- LabFiltering.FilteringWorker.Process: forwards items by the same corrected decision as `Keep`, so an item linked to a substrate only by a full website URL is forwarded here but dropped by the code as written.
- BackendRetrieve.SupercategoriesSpec: stated only for category names that do not start with '.'. An empty first level changes how the ids are joined, and the statement leaves that case out.
- BackendDb.AlternativesQuery: the ranking by score and `RAND()` is modelled only as the query text, not as an order of results.
- LabMain.FormatElapsedTimeExamples: evaluates two of the seven test inputs, 134 and 3724 seconds. The rest follow from the same arithmetic, which `LabMain.ClockSpec` states for every duration.
- **Left out elsewhere in the repository.** The pipeline's stage orchestration, configuration path checks, the backend server, the dead condenser sources and the thin `HashSet::extend` collectors are outside the modelled core.

## Findings

| source | as written | input that shows it | evidently intended | confidence | as-written member | corrected member |
|---|---|---|---|---|---|---|
| lab/src/condensing.rs:624-644 | `extract_open_food_facts_production_regions` walks the record's sell-country tags | a record with manufacturing place "fr" and no sell countries gets no production region | production regions come from the manufacturing-place tags (`extract_production_countries`) | not executed | LabCondensing.ExtractProductionRegionsAsWritten | LabCondensing.ExtractProductionRegions |
| lab/src/filtering.rs:56-60 | `should_keep` passes the item's raw official-website URLs to `SubstrateAdvisor::has_domains` | an item whose only link to a substrate is the website "https://" + a known domain is dropped | websites are reduced to domains first, as lab/src/condensing.rs:77-79 does before the same lookup | not executed | LabFiltering.ShouldKeepAsWritten | LabFiltering.ShouldKeep |
