# Pet store and pet order services, modelled in Dafny

The repository runs two small HTTP services.

**The catalog (`petstore`)** keeps pet types and their pets in memory:
- three dictionaries that must stay in step: pet-type records by id, each type's pets by lower-cased name, and type ids by lower-cased type name;
- a counter that hands out pet-type ids "1", "2", ….

Creating a pet type looks the species up. It first checks a fixed table of four species, then an upstream animals service, which supplies family, genus, attribute words and the shortest lifespan. Pets carry a name, a DD-MM-YYYY birthdate (or "NA") and a picture file downloaded from a URL. Updates merge the body with the stored pet.

**The order service (`pet-order`)** sells pets:
1. It checks a purchase.
2. It tries catalog 1 and then catalog 2, or only the store the buyer names.
3. At each store it resolves the type, lists its pets and picks one: the first matching the requested name, or any.
4. It deletes that pet from the store and appends the sale to a transaction ledger.
5. The owner can query the ledger with a secret header.

## How the model is built

This project models that core and proves what it promises:

- `text.dfy`: the parts of Python's `str` the code relies on:
  - `lower()` and `strip()`;
  - `str(n)` of the id counter;
  - `int()` of a query argument;
  - the first-match-ignoring-case search.
- `json.dfy`, `wrappers.dfy`: JSON request values with Python truthiness and `dict.get`, and `Option` for `None`.
- `seqs.dfy`: the first position where a test holds.
- `dates.dfy`: `parse_date` and `compare_dates` over a proleptic Gregorian calendar.
- `attributes.dfy`: `temperament_to_attributes`.
- `catalog_store.dfy`: the store.
  - The records are datatypes.
  - The dictionaries and the counter are the fields of `class Store`, and its methods update them in place.
  - The invariant `Valid()` ties the three maps together, and every method preserves it.
- `taxonomy.dfy`: `fetch_pet_type_data`. The upstream reply is an input; the two client exceptions and "any other failure" become the `Outcome` datatype.
- `catalog_service.dfy`: the decisions of the catalog's request handlers over a `Store`.
  - Request bodies and query arguments are inputs.
  - The picture download is an input, `Fetch`.
  - A picture file to delete is a returned effect.
- `orders.dfy`: the order service.
  - Each catalog is a snapshot of what its endpoints answer: the type listing's status and entries, the pets per type id, and the delete status.
  - The ledger is a class whose only mutator appends.
  - The purchase id is a parameter.

Where a loop in the source updates variables step by step, the model has a `method` with that loop. Each such method is proved equal to a function or predicate, and lemmas state the source's promises about that function. Examples:
- `_build_or_update_pet` corresponds to `BuildOrUpdatePet` and `Upserted`;
- the store-selection loop corresponds to `FindPet` and `FirstHalt`;
- the query loop corresponds to `BuildQuery` and `QueryOf`.

Behaviour the model follows exactly as the code does:
- Python's `True == 1` in the order service's store check: `{"store": true}` is store 1. This follows `==` and `in [1, 2]` in `pet-order/app.py:86-95`.
- `update_pet` stores the merged pet under the body's name. A body that renames the pet therefore adds an entry and leaves the old one in place (`petstore/app.py:364-376`).
- The Australian Shepherd attributes: the table at `petstore/ninja_client.py:38` capitalises "Loyal", and `Taxonomy.AustralianShepherd` keeps it.
- `get_pet_type` answers 200 with the record for a type just created. The assertion at `tests/assn4_tests.py:26` expects a 404 instead; the model follows the handler.

## Model

| member | source | states |
|---|---|---|
| Text.Lower | petstore/models.py:68 | `lower()` keeps the length and maps every character to its lower case |
| Text.LowerIdempotent | petstore/models.py:85 | lower-casing twice is lower-casing once, so a stored lower-cased key is its own key |
| Text.FirstCaseless | petstore/ninja_client.py:101-105 | the index found matches ignoring case and no earlier element does; None exactly when no element matches |
| Text.StripLeft | petstore/ninja_client.py:76 | `lstrip()` drops exactly the leading white space: a suffix that starts with a non-space |
| Text.StripRight | petstore/ninja_client.py:76 | `rstrip()` drops exactly the trailing white space: a prefix that ends with a non-space |
| Text.NatToString | petstore/models.py:26 | `str(n)` is a non-empty string of digits without a leading zero |
| Text.DigitsValueOfNatToString | petstore/models.py:26 | the digits `str(n)` writes have the value n |
| Text.NatToStringInjective | petstore/models.py:24-28 | different counter values give different id strings, so successive ids are distinct |
| Text.ParseNumeral | petstore/app.py:108-111 | `int()` accepts exactly an optional sign followed by one or more digits |
| Text.ParseIntRejectsSeparators | pet-order/app.py:155-158 | a numeral with one of the separators U+001C to U+001F before or after it is not an integer, though `strip()` would remove that character |
| Text.ParseIntOfNumeral | pet-order/app.py:155-156 | `int()` reads back every numeral `str()` writes for a natural number |
| Text.ParseIntOfNegativeNumeral | pet-order/app.py:155-156 | `int()` reads a minus sign followed by a numeral as the negative number |
| Seqs.FirstWhere | pet-order/app.py:102-121 | the first position where a test holds: it holds there and nowhere before; None exactly when it holds nowhere |
| Seqs.FirstWhereAt | pet-order/app.py:120-121 | a position where the test holds and before which it never does is the first one |
| Dates.ParseDate | petstore/models.py:38-40 | a string that parses is a real date of years 1 to 9999 |
| Dates.ParseFormat | petstore/models.py:35-40 | every valid date is parsed back from its own DD-MM-YYYY text |
| Dates.FormatParse | petstore/models.py:35-40 | a string that parses is exactly the DD-MM-YYYY text of its date |
| Dates.CompareDates | petstore/models.py:43-50 | the day difference is defined exactly when both strings parse |
| Dates.OrdinalMonotone | petstore/models.py:50 | day numbers strictly follow calendar order |
| Dates.CompareDatesOrder | petstore/models.py:43-50 | positive iff the first date is later, negative iff earlier, zero iff the strings are equal; `compare_dates(a, a) == 0` and `compare_dates(a, b) > 0` iff `compare_dates(b, a) < 0` |
| Attributes.RemovePunctuation | petstore/models.py:71-72 | every character of the result is a non-punctuation character of the input, and every such character occurs in it |
| Attributes.RemovePunctuationAppend | petstore/models.py:71-72 | removing punctuation from a concatenation concatenates the results, so order and repetitions are kept |
| Attributes.RemovePunctuationOfClean | petstore/models.py:71-72 | a string without punctuation is returned unchanged |
| Attributes.SplitWords | petstore/models.py:75 | `split()` returns non-empty words without white space, made of the input's characters |
| Attributes.SplitJoin | petstore/models.py:75 | splitting a space-joined list of words gives back the words |
| Attributes.SplitSkipsSpace | petstore/models.py:75 | white space before the text, any amount of it, is dropped by `split()` |
| Attributes.SplitOfWord | petstore/models.py:75 | a word ended by white space or the end of the text is the first word `split()` gives, then the split goes on; with SplitSkipsSpace this fixes `split()` on every input |
| Attributes.TemperamentToAttributes | petstore/models.py:57-76 | `[]` for None or ""; otherwise every word is non-empty, lower-case, free of punctuation and of white space |
| Attributes.AttributesOfJoinedWords | petstore/models.py:57-76 | the space-joined text of a list of lower-case, punctuation-free words converts back to exactly that list, in order |
| Attributes.SpacedPunctuationDropped | petstore/models.py:57-76 | a punctuation mark standing alone between two words ("shy - friendly") leaves a double space, and the result is still just the two words |
| CatalogStore.PetToJsonHidesUrl | petstore/models.py:143-149 | two pets have the same JSON exactly when their name, birthdate and picture agree; the picture URL never shows |
| CatalogStore.WithoutNameKeeps | petstore/models.py:139 | the filtered list holds exactly the names of another lower-cased spelling, keeps no repeats, and its lower-cased names lose exactly the key |
| CatalogStore.RegisterKeepsIndexes | petstore/models.py:88-95 | registering a new record with a new name and id keeps the three maps in step |
| CatalogStore.RemoveKeepsIndexes | petstore/models.py:98-105 | removing a type from all three maps keeps them in step |
| CatalogStore.AddKeepsTypeIndexed | petstore/models.py:121-127 | storing a pet under its lower-cased name, listing the name when that spelling is new, keeps the list and map in step |
| CatalogStore.DeleteKeepsIndexes | petstore/models.py:130-140 | removing a pet's key and every spelling of its name keeps the maps in step |
| CatalogStore.Store.constructor | petstore/models.py:10-21 | the store starts with three empty maps and counter 1 |
| CatalogStore.Store.GeneratePetTypeId | petstore/models.py:24-28 | the id is the decimal string of the counter, which rises by exactly 1; the id is not in use |
| CatalogStore.Store.PetTypeExistsByName | petstore/models.py:83-85 | true iff some stored type has this name ignoring case |
| CatalogStore.Store.RegisterPetType | petstore/models.py:88-95 | the record is stored under its id, the id gets an empty pet map, the lower-cased name maps to the id and every spelling of it now exists; the invariant holds |
| CatalogStore.Store.RemovePetType | petstore/models.py:98-105 | an unknown id changes nothing; otherwise the id leaves all three maps and nothing else changes |
| CatalogStore.Store.PetsForType | petstore/models.py:112-113 | the type's pets keyed by lower-cased name, whose keys are the lower-cased names of its list; empty for an unknown id |
| CatalogStore.Store.AddPet | petstore/models.py:116-127 | the pet is stored under its lower-cased name, overwriting; the name is appended only when that exact spelling is new, so the list grows by at most one |
| CatalogStore.Store.DeletePet | petstore/models.py:130-140 | None and no change iff the type has no pet under the lower-cased name; otherwise the stored pet, gone from the map, with every spelling of its name gone from the list |
| CatalogStore.Store.RemovePet | petstore/models.py:133-140 | the removal `delete_pet` performs once the pet is found: removed from the map and from the list |
| Taxonomy.LeadingDigits | petstore/ninja_client.py:133 | the length of the maximal digit run that starts the string |
| Taxonomy.DigitRunsEmpty | petstore/ninja_client.py:133-134 | `findall(r"\d+")` finds nothing iff the string has no digit |
| Taxonomy.MinOf | petstore/ninja_client.py:135 | `min` is a member of the list and a lower bound of it |
| Taxonomy.LifespanOf | petstore/ninja_client.py:129-135 | None iff the value is not a string or has no digit; else the least number among the digit runs |
| Taxonomy.RunsOfNumeral | petstore/ninja_client.py:133 | a digit run ended by a non-digit is one number, and the search goes on after it |
| Taxonomy.RangeRuns | petstore/ninja_client.py:133 | "lo-hi" yields the two numbers in order |
| Taxonomy.LifespanOfRange | petstore/ninja_client.py:129-135 | a lifespan "lo-hi" with any non-digit separator is the smaller bound |
| Taxonomy.Extract | petstore/ninja_client.py:110-127 | every attribute of the record is a word |
| Taxonomy.ExtractFields | petstore/ninja_client.py:110-135 | missing family or genus is ""; attributes come from a non-empty temperament, else a non-empty group behaviour, else none; the lifespan comes from the `lifespan` field |
| Taxonomy.ChooseEntry | petstore/ninja_client.py:100-108 | the loop picks the first entry whose name matches ignoring case, none when no entry does |
| Taxonomy.FetchPetTypeData | petstore/ninja_client.py:63-142 | the step-by-step client gives the outcome `Resolve` defines |
| Taxonomy.CannedBypassesUpstream | petstore/ninja_client.py:76-78 | a name in the table, stripped and lower-cased, gives the table's record whatever upstream would answer |
| Taxonomy.AustralianShepherd | petstore/ninja_client.py:35-40 | any spacing or capitalisation of "australian shepherd" gives the table's record, "Loyal" capitalised |
| Taxonomy.StatusClassified | petstore/ninja_client.py:92-96 | off the table, status 400 is NotFound and any other non-200 an ApiError with that status |
| Taxonomy.FirstMatchChosen | petstore/ninja_client.py:100-108 | on a 200 reply the record comes from the first entry whose name matches ignoring case |
| Taxonomy.NoMatchNotFound | petstore/ninja_client.py:107-108 | on a 200 reply with no matching entry the outcome is NotFound |
| Taxonomy.KeyOfPlainName | petstore/ninja_client.py:76 | an already stripped, lower-case name is its own table key |
| CatalogService.CreatePetType | petstore/app.py:49-90 | Malformed for a missing or non-string type and for a duplicate ignoring case, checked before the taxonomy lookup; NotFound to Malformed, upstream errors to 500s, without a change; else a record with the next id, the taxonomy fields and no pets, registered |
| CatalogService.StoreNewType | petstore/app.py:77-88 | the id from the counter, the record with the taxonomy fields and an empty pet list, registered and returned |
| CatalogService.PassesStep | petstore/app.py:105-117 | passing one more filter is passing the earlier ones and that one |
| CatalogService.ApplyFilter | petstore/app.py:105-117 | a filter keeps exactly the records it matches: case-insensitive text or integer lifespan; a non-integer lifespan is the error |
| CatalogService.ListPetTypes | petstore/app.py:93-128 | 400 iff the lifespan argument is not an integer; else exactly the records passing every given filter and `hasAttribute` |
| CatalogService.FiltersIgnoreCase | petstore/app.py:114-126 | any spelling of a type's name, and of any of its attributes, selects it |
| CatalogService.LifespanFilter | petstore/app.py:106-112 | a numeric lifespan filter keeps exactly the records with that lifespan |
| CatalogService.GetPetType | petstore/app.py:135-140 | the record stored under the id, which carries that id; None (404) iff absent |
| CatalogService.DeletePetType | petstore/app.py:143-154 | 404 iff absent, 400 iff its pet list is non-empty, both without change; else removed from the three maps |
| CatalogService.DeletableTypeHasNoPets | petstore/app.py:149-153 | a type whose name list is empty owns no pets in the pet map |
| CatalogService.BuildOrUpdatePet | petstore/app.py:193-250 | the branch-by-branch upsert gives the outcome `Upserted` defines |
| CatalogService.UpsertRejects | petstore/app.py:200-212 | a missing or non-string name, or a birthdate neither "NA" nor a date, is Malformed; an omitted birthdate passes |
| CatalogService.UpsertWellFormed | petstore/app.py:204-224 | every pet built has "NA" or a valid date as birthdate |
| CatalogService.OmittedFieldsKept | petstore/app.py:218-224 | an omitted birthdate keeps the stored one; an omitted URL keeps picture and URL, with no download and no removal |
| CatalogService.SameUrlKeepsPicture | petstore/app.py:226-228 | the stored URL again keeps the picture, with no download and no removal |
| CatalogService.NewUrlReplacesPicture | petstore/app.py:229-242 | a different URL replaces the picture: the download when truthy, "NA" when not; the old file is removed |
| CatalogService.NewPetDownload | petstore/app.py:232-235 | a new pet is downloaded iff its URL is truthy, and nothing is removed |
| CatalogService.DownloadFailure | petstore/app.py:168-173 | a download that is not 200 is a 500 with its status; a refused or failed fetch builds nothing |
| CatalogService.AsWrittenDiffersOnlyOnNA | petstore/app.py:233 | the written condition differs from the intended one exactly for an existing "NA" picture given a different truthy URL |
| CatalogService.AsWrittenNeverDownloadsForNA | petstore/app.py:233 | as written, an update never downloads for a pet whose picture is "NA" |
| CatalogService.AsWrittenCounterexample | petstore/app.py:233 | Rex, without a picture and given a first URL, is downloaded by the intended condition and not by the written one |
| CatalogService.CreatePet | petstore/app.py:253-275 | 404 for an unknown type, 400 for a non-object body, the upsert's failure; else the new pet stored and returned; no file removed |
| CatalogService.UpdatePet | petstore/app.py:349-377 | 404 for an unknown type or pet, 400 for a non-object body, the upsert's failure, all without change; else the merged pet stored under its own name and the old file returned for removal; the upsert downloads by the corrected test of the Findings row |
| CatalogService.GetPet | petstore/app.py:317-327 | the JSON of the pet under the lower-cased name, whose name matches ignoring case; None iff type or pet is absent |
| CatalogService.DeletePetRoute | petstore/app.py:330-346 | 404 iff the type or pet is absent, without change; else the pet is deleted and its picture file, unless "NA", removed |
| CatalogService.ListPets | petstore/app.py:278-310 | 404 iff the type is absent; 400 iff a set bound does not parse; else the pets in range |
| CatalogService.ListPetsFilters | petstore/app.py:299-308 | a pet is listed iff its date is strictly after `birthdateGT` and strictly before `birthdateLT` (each when set); an "NA" pet iff neither is set |
| Orders.TypeIdOf | pet-order/app.py:40-48 | the id of the first type whose name matches ignoring case; None iff the listing is not 200 or nothing matches |
| Orders.GetPetTypeId | pet-order/app.py:40-48 | the loop returns what `TypeIdOf` defines |
| Orders.ReadOrder | pet-order/app.py:74-98 | rejected iff the body is not an object, purchaser or pet-type is not a string, store is present but not 1 or 2, or pet-name comes without store; the store order is the one store named, or [1, 2] when none is |
| Orders.PinnedStore | pet-order/app.py:86-96 | a valid body naming store 1 or 2 checks only that store |
| Orders.MatchByName | pet-order/app.py:111-115 | the loop finds the first pet whose name matches ignoring case |
| Orders.TryStore | pet-order/app.py:103-118 | skip iff the search does not stop at the store; crash iff a truthy pet name is not a string; else a pet the request accepts, spelled as the store spells it |
| Orders.FindPet | pet-order/app.py:100-124 | the first store in order at which the search stops decides: none, a crash, or a pet picked there |
| Orders.FallsThroughToSecond | pet-order/app.py:98-121 | with no store named, store 2 is reached exactly when store 1 does not stop the search |
| Orders.PinnedIgnoresOther | pet-order/app.py:93-96 | a purchase pinned to one store never depends on the other store |
| Orders.Ledger.constructor | pet-order/app.py:16 | the ledger starts empty |
| Orders.Ledger.Append | pet-order/app.py:142 | the transaction is appended at the end; purchase ids stay distinct |
| Orders.CreatePurchase | pet-order/app.py:67-144 | 400 Malformed iff the checks fail; no pet, or a delete other than 204, is "No pet of this type is available" with the ledger unchanged; else exactly one transaction is appended with the purchaser, pet-type, store, the store's spelling of the pet and the fresh id |
| Orders.BuildQuery | pet-order/app.py:152-160 | the loop builds the filter `QueryOf` defines: a `store` argument that is not an integer is dropped, the rest kept verbatim |
| Orders.Select | pet-order/app.py:162 | `find` keeps exactly the matching transactions |
| Orders.ListTransactions | pet-order/app.py:147-163 | 401 iff the `OwnerPC` header is not the secret; else the transactions matching the built filter, in ledger order |
| Orders.NonNumericStoreDropped | pet-order/app.py:154-158 | a non-integer `store` argument filters as if it were absent |
| Orders.UnknownFieldSelectsNothing | pet-order/app.py:160-162 | an argument naming no transaction field lists nothing |
| Orders.SelectAppend | pet-order/app.py:142-162 | after an append, a listing gains the new transaction at its end iff it matches |
| Orders.SelectNarrows | pet-order/app.py:152-162 | more arguments only narrow a listing |
| Orders.SelectNone | pet-order/app.py:162 | a filter nothing matches lists nothing |
| Orders.PurchaseListedById | pet-order/app.py:132-162 | after a purchase, querying its id lists exactly its transaction |

## Left out

- HTTP itself is not modelled: Flask routing, `jsonify`, and `require_json` with its 415 answer (`petstore/app.py:39-42`, `pet-order/app.py:34-37`). A body that is not a JSON object is `None`. A result datatype names each status.
- Three routes are not modelled because they hold no decision logic: the 405 `PUT /pet-types/{id}` route, `GET /pictures/{file}` and `/kill`.
- Picture files are not modelled:
  - `_download_picture` (`petstore/app.py:168-190`) is the `Fetch` input: its status and the file it wrote.
  - Its salted-`hash()` file name is an opaque string.
  - `os.remove` of an old or deleted picture is the returned `removed` file name.
  - `ensure_pictures_folder` is left out.
- The upstream animals service is the `Upstream` input. Several client details are left out:
  - the API key from the environment, whose absence raises like any other failure (`Unreachable`);
  - the debug `print`;
  - a body that is not a list of objects.
- Taxonomy.EntryName: an entry whose `name` is JSON null reads as "". The source raises on `None.lower()` there.
- Taxonomy.Extract:
  - A `family` or `genus` that is JSON null reads as "". The source stores `None`.
  - A non-string truthy temperament is not modelled.
  - A `taxonomy` or `characteristics` field that is JSON null reads as absent, and the record is found. In the source, `.get` on `None` raises (`petstore/ninja_client.py:110`, `:114`), and create_pet_type answers 500 "API call failed".
  - A non-string `family`, `genus` or `group_behavior` is not modelled.
- CatalogService.UpdatePet: the handler follows the corrected download test of the Findings row, not the test at `petstore/app.py:233` as written. For a stored pet whose picture is "NA" and a new truthy URL, the model downloads; the source keeps "NA". `CatalogService.DownloadsAsWritten` states the written test.
- Json.Value: values are compared as JSON values, not by Python's `==`. The URL comparison at `petstore/app.py:227` differs in two ways:
  - a float, array or object is kept only by its truthiness, so two such values with the same truthiness are equal here, though Python can tell them apart;
  - `true` and `1` (and `1.0` and `1`) differ here, while Python's `True == 1` makes them equal.
- Taxonomy.ChooseEntry: returns a matching `{}` entry. The source's `if not chosen` treats an empty dict as no match, which affects only a type name of "".
- Orders.CreatePurchase:
  - The `requests` calls to the two catalogs are snapshots; an exception they raise is not modelled.
  - `uuid4()` is the `freshId` parameter, required not to be in the ledger already.
  - `random.choice` is "some listed pet".
  - Concurrent purchases are not modelled.
  - The 201 answer carries the five-field transaction. In the source, `insert_one` at `pet-order/app.py:142` adds Mongo's `_id` to the same dict, so `jsonify` at line 144 most likely cannot encode it and fails.
- MongoDB is the `Ledger` sequence with equality matching on the five stored fields. Mongo's `_id`, projections and its other query operators are left out.
- Dates.ParseDate: accepts exactly two-digit day, two-digit month and four-digit year, in ASCII digits. `strptime` also accepts these, which are rejected here:
  - one-digit day and month fields;
  - a space-padded day such as `" 1-01-2020"`;
  - Unicode decimal digits other than ASCII.
- Text.Lower: lower-cases ASCII letters only. Python's `lower()` covers all of Unicode.
- Text.ParseInt: accepts ASCII digits only. Python's `int()` also accepts other Unicode digits and underscores between digits.
- Taxonomy.DigitRuns: reads ASCII digits only. Python's `\d` matches every Unicode decimal digit.
- Orders.ReadOrder: a JSON float store such as `1.0` is a bad store here. In Python it equals 1 and is accepted.
- CatalogService.RequestedType: any body that is not a JSON object is malformed (400) here. In the source, several such bodies raise instead (500):
  - an array such as `["type"]` reaches `data["type"]`;
  - a non-zero number or `true` makes `"type" in data` fail;
  - a string that contains `type` reaches `data["type"]`.
  - A body whose `type` field holds a non-string value is malformed in both.
- CatalogService.ListPetTypes: returns a set, not a list in insertion order; dictionary order is not modelled.
- CatalogService.ListPets: returns a set, not a list in insertion order; dictionary order is not modelled.
- `query_job.py` and the network test in `tests/` are harness code and are not part of this model.

## Findings

| source | as written | input that shows it | evidently intended | confidence | as-written member | corrected member |
|---|---|---|---|---|---|---|
| petstore/app.py:233 | an update downloads only when the picture differs from the stored one; a different URL resets the picture to "NA" first, so a pet whose stored picture is "NA" never downloads | pet Rex stored with picture "NA" and no URL; `PUT` with `{"name": "Rex", "picture-url": "http://example.com/rex.jpg"}` stores picture "NA" and the new URL, and downloads nothing | download whenever the URL is truthy and the pet is new or the update supplies a different URL | not executed | CatalogService.DownloadsAsWritten (CatalogService.AsWrittenCounterexample) | CatalogService.Downloads (CatalogService.BuildOrUpdatePet) |
