# nlrb-scrapy: case-record assembly and key normalization, in Dafny

This project models the core of the `nlrb-scrapy` crawler. The crawler builds one record per
National Labor Relations Board case. It reads the case page, and may fetch more docket pages.
It then merges in the row the advanced search returns for the case. Last, the item pipeline
normalizes every key of the record.

The model works on the data the spider's XPath selectors return, not on HTML. A case page
(`CasePage.Page`) holds:

- the response text, which the "… data is not available" tests look at;
- the title;
- the flex rows of bold-labelled fields;
- the related-document links and the allegation texts;
- the participant rows;
- the related-case links;
- the docket table bodies.

A docket row is a list of cells (`Docket.Cell`). A search result is a header list and a list of
body rows (`Spider.SearchTable`). Every tuple unpack, `assert`, dict subscript and `.strip()` on a
missing text in the source becomes an `Err` of `Errors.Error`.

Modules:

- **Text**, **Dates**, **Assoc**, **Values**, **Collect**: what the scraper borrows from Python.
  - `str.strip`, the `in` substring test and `join`, on ASCII text.
  - `strptime("%m/%d/%Y")`, which splits its text at the slashes.
  - Dicts as insertion-ordered association lists. Assigning to a present key keeps its position.
    `update` and dict comprehensions assign pair by pair, so the last value wins.
  - JSON-like record values.
  - Head-first loops that stop at the first error.
- **CaseTypes**: `_case_type`.
- **Docket**: `_parse_docket_table`. It is a loop method proved against the function
  `DocketTable`, with lemmas on each entry's fields.
- **CasePage**: what `parse_case` computes from a page, as functions, with lemmas on the record
  they describe.
- **Items**: the record that is shared and changed in place. It is the class `CaseItem`: `details`
  in `parse_case`, then `item` in the two callbacks.
- **Requests**: the docket-page request and the advanced-search request, as descriptors (kind and case number), with the URL and form data each one carries.
- **Spider**: `parse_case`, `parse_docket` and `parse_advanced_search`.
  - Each is a method that changes a `CaseItem` step by step. It is proved to end in the state, and
    to issue the request, that `CaseSpec`, `DocketStep` and `MergeSearch` describe.
  - Lemmas on those functions cover the routing and the merge.
- **Pipelines**: `normalize_keys` and `NlrbPipeline.process_item`.

The model follows what the code actually does in these places:

- A case number that carries several `-XX-` markers gets the first one in the test order. It is not
  rejected.
- A participant row is dropped when any of its cells has `colspan=3`, not only when its single
  cell does.
- A field label loses `:` and blanks at both ends, not only at the end.
- A docket party text that is empty is `None`, as well as an absent one.
- A search row without a `Case Number` column fails with the `KeyError` of `pop`.

## Model

| member | source | states |
|---|---|---|
| CaseTypes.Classify | nlrb/spiders/nlrb.py:243-275 | Succeeds iff one of the 14 markers occurs, else `UnknownCaseType`; the code's marker occurs; every other occurring marker comes later in the order RC, RM, RD, UD, UC, CA, CD, CC, CB, CE, CP, CG, AC, WH |
| CaseTypes.FirstMarked | nlrb/spiders/nlrb.py:243-273 | The first position in a code list whose marker occurs, none before it occurs; none if no marker occurs |
| CaseTypes.ClassifyUnique | nlrb/spiders/nlrb.py:243-275 | A number carrying exactly one marker is classified by that marker |
| CaseTypes.ClassifyExample | nlrb/spiders/nlrb.py:253-254 | `05-CA-123456` is classified `CA` |
| Docket.ParseDocketTable | nlrb/spiders/nlrb.py:278-306 | The row loop returns exactly `DocketTable(rows)`: one entry appended per row, or the first row's error |
| Docket.DateValue | nlrb/spiders/nlrb.py:284-291 | A missing date text fails with `MissingText`; the value is null exactly when the trimmed text is "pre 2010", otherwise a valid date; the only other failure is `DateParseError` |
| Docket.PartyValue | nlrb/spiders/nlrb.py:300-302 | The party is null exactly when its text is absent or empty; otherwise it is the trimmed text |
| Docket.EntryOf | nlrb/spiders/nlrb.py:280-304 | A row without exactly three cells fails with `WrongCellCount`; an entry is a dict; the only other failures are a missing text and a date that does not parse |
| Docket.DocketTable | nlrb/spiders/nlrb.py:278-306 | A parsed table has exactly one entry per row |
| Docket.FillEntry | nlrb/spiders/nlrb.py:280-304 | The entry read field by field (the date, then the document title and link, then the party) equals the specified entry of the row, or its error |
| Docket.DocumentPairs | nlrb/spiders/nlrb.py:293-298 | The document cell yields the key `document`, then `url` exactly when the cell has a link |
| Docket.EntryOkIff | nlrb/spiders/nlrb.py:280-298 | A row fails exactly when it lacks three cells, a date text, a date that is "pre 2010" or parses, or a document text |
| Docket.EntryParts | nlrb/spiders/nlrb.py:280-304 | A parsed entry is the date pair, the document pairs and the party pair, in that order |
| Docket.EntryKeys | nlrb/spiders/nlrb.py:281-302 | Entry keys are `date`, `document`, `url` exactly when the cell has a link, `issued_by/filed_by`, with no key twice |
| Docket.EntryDate | nlrb/spiders/nlrb.py:284-291 | The date is null exactly for the trimmed text "pre 2010"; otherwise it is the date the text parses to |
| Docket.EntryDateRoundTrip | nlrb/spiders/nlrb.py:289-291 | A valid date written as month/day/year, with blanks around it or not, reads back as that date |
| Docket.EntryDocument | nlrb/spiders/nlrb.py:293-298 | With a link: trimmed link text and `url` = href. Without: trimmed text with `*` stripped from both ends, and no `url` key |
| Docket.EntryParty | nlrb/spiders/nlrb.py:300-302 | `issued_by/filed_by` is null iff the party text is absent or empty; otherwise it is the trimmed text |
| Docket.DocketTableShape | nlrb/spiders/nlrb.py:278-306 | A table parses iff every row does: one entry per row, in row order; otherwise the first failing row's error |
| Dates.ParseDate | nlrb/spiders/nlrb.py:289-291 | Only real calendar dates come out of the month/day/year parse |
| Dates.ParseFormatDate | nlrb/spiders/nlrb.py:289-291 | Parsing the zero-padded month/day/year form of a valid date gives that date back |
| Dates.Pre2010IsNotADate | nlrb/spiders/nlrb.py:284-291 | "pre 2010" does not parse as a date, so it can only come out as the null date |
| Dates.NoSlashIsNotADate | nlrb/spiders/nlrb.py:289-291 | A text with no slash never parses as a month/day/year date |
| Values.OfText | nlrb/spiders/nlrb.py:92 | A text the selector may miss is `None` exactly when it is missing, and the string otherwise |
| CasePage.Label | nlrb/spiders/nlrb.py:45 | A cleaned label neither starts nor ends with `:` or a space |
| CasePage.BasicField | nlrb/spiders/nlrb.py:44-57 | Writing one basic label succeeds exactly when the field is writable: it has a label, a `Case Number` carries a type marker, a `Date Filed` parses |
| CasePage.BasicFieldWrites | nlrb/spiders/nlrb.py:45-57 | A basic label fails with `MissingText`, `UnknownCaseType` or `DateParseError` as the spider does, or makes its assignments in order: label and stripped text; for `Case Number` then `case_type`; for `Date Filed` the parsed date |
| CasePage.BasicFoldOk | nlrb/spiders/nlrb.py:44-57 | A writable basic-info row updates the record with its assignments, field after field |
| CasePage.BasicFoldErr | nlrb/spiders/nlrb.py:44-57 | The basic-info loop stops at the first field that cannot be written, with that field's error |
| CasePage.BasicFieldsOfPairs | nlrb/spiders/nlrb.py:44-57 | The basic-info row succeeds iff every field is writable. On success the record is updated with the row's assignments in order, so the last write to a label wins; on failure the error is the first unwritable field's |
| CasePage.Tallies | nlrb/spiders/nlrb.py:60-77 | The tally rows read exactly when every field of every row has a label, one mapping per row, in order; otherwise the error is `MissingText` |
| CasePage.TallyOf | nlrb/spiders/nlrb.py:62-75 | A tally row is a dict exactly when every field has a label, and fails with `MissingText` otherwise |
| CasePage.RelatedDocuments | nlrb/spiders/nlrb.py:79-96 | Empty when the sentinel is on the page; otherwise one `{name, url}` record per link, in order |
| CasePage.Allegations | nlrb/spiders/nlrb.py:98-107 | Empty when the sentinel is on the page; otherwise one `{allegation}` record per item, in order |
| CasePage.Listed | nlrb/spiders/nlrb.py:116 | The kept rows are at most the table's rows, each from the table and without a `colspan=3` cell |
| CasePage.ListedAppend | nlrb/spiders/nlrb.py:116 | Listing two runs of rows one after the other is listing each: kept rows stay in document order, each kept once |
| CasePage.ListedSingle | nlrb/spiders/nlrb.py:116 | A single row is kept exactly when it has no `colspan=3` cell |
| CasePage.ListedIff | nlrb/spiders/nlrb.py:116 | A row is kept exactly when it is in the table and has no `colspan=3` cell |
| CasePage.ParticipantOf | nlrb/spiders/nlrb.py:117-137 | A row without three cells fails with `WrongCellCount`; a record is a dict with the keys type, subtype, participant, address, phone_number in order; the only other failures are a missing text and a type cell without a line break |
| CasePage.RelatedCases | nlrb/spiders/nlrb.py:143-149 | One record per related-case link, in order: record i is `{related_case_number: link text i}` |
| CasePage.TallyFoldOk | nlrb/spiders/nlrb.py:66-73 | Writing a row of labelled fields one by one is the dict update with its (label, stripped value) pairs |
| CasePage.TallyFoldErr | nlrb/spiders/nlrb.py:66-67 | A field without a label text makes the tally row fail |
| CasePage.TallyOfPairs | nlrb/spiders/nlrb.py:62-75 | A tally row fails iff some field has no label; otherwise its mapping is the dict built from its (label, value) pairs, last label winning |
| CasePage.ParticipantShape | nlrb/spiders/nlrb.py:119-137 | A row parses iff it has 3 cells, a bold type, at least one line break and a phone text. Its keys are type, subtype, participant, address, phone_number, in order: the stripped bold text; the first segment; the other segments joined by newlines and stripped; the address lines, each stripped, joined by newlines and stripped; the first phone text, stripped |
| CasePage.Participants | nlrb/spiders/nlrb.py:109-141 | Under the sentinel there are no participants; otherwise a successful read has one record per listed row |
| CasePage.ParticipantsOkIff | nlrb/spiders/nlrb.py:109-141 | The participants read exactly when the sentinel is on the page or every listed row is readable; otherwise the error is that of the first unreadable listed row |
| CasePage.ListedReadable | nlrb/spiders/nlrb.py:116-137 | The listed rows all read exactly when every row without a `colspan=3` cell is readable |
| CasePage.ParticipantsShape | nlrb/spiders/nlrb.py:109-141 | Empty under the sentinel; otherwise one record per kept row, in order |
| CasePage.CaseRecordSections | nlrb/spiders/nlrb.py:59-149 | A built record holds one tally per flex row after the first (count = rows − 1), the documents, allegations, participants and related cases read from the page |
| CasePage.SentinelSectionsEmpty | nlrb/spiders/nlrb.py:79-141 | Each of related_documents, allegations and participants is the empty list when its sentinel is on the page |
| CasePage.BasicFieldValid | nlrb/spiders/nlrb.py:44-57 | Writing one basic label keeps the record a dict whose case number is text |
| CasePage.BasicFieldsValid | nlrb/spiders/nlrb.py:44-57 | The whole basic-info row keeps the record a dict whose case number is text |
| CasePage.WithSectionsValid | nlrb/spiders/nlrb.py:77-149 | Writing the sections keeps the record a dict whose case number is text |
| CasePage.CaseRecordValid | nlrb/spiders/nlrb.py:23-149 | The built record is a dict, and its `Case Number`, if any, is text |
| CasePage.CaseRecord | nlrb/spiders/nlrb.py:23-149 | A page without a title fails with `MissingTitle`; a titled page without flex rows fails with `NoFlexRows` |
| CasePage.CaseRecordOkIff | nlrb/spiders/nlrb.py:23-149 | A record is built exactly when the page has a title and flex rows, the basic-info row is writable, every tally field is labelled and every listed participant row is readable. Past the basic row, an unlabelled tally fails with `MissingText`, and otherwise the first unreadable participant row gives its error |
| CasePage.WithSections | nlrb/spiders/nlrb.py:77-149 | Each section key holds the list written to it: the later assignments touch other keys |
| CasePage.WithSectionsOthers | nlrb/spiders/nlrb.py:77-149 | Writing the five sections leaves every other key as it was |
| CasePage.CaseRecordBasic | nlrb/spiders/nlrb.py:23-149 | A titled page with flex rows fails at the first unwritable basic field, with its error; in a built record every key but the sections holds what the title and the basic-info assignments left there |
| CasePage.PutKeepsConsistent | nlrb/spiders/nlrb.py:56-57 | Assigning any other key keeps case type and filing date consistent |
| CasePage.BasicFieldConsistent | nlrb/spiders/nlrb.py:51-57 | A basic label keeps `case_type` equal to the classification of `Case Number` and `Date Filed` a valid date; a `Case Number` label stores its stripped text and a `Date Filed` label the date its own stripped text parses to |
| CasePage.BasicFieldsConsistent | nlrb/spiders/nlrb.py:44-57 | The whole basic-info row keeps `case_type` and `Date Filed` consistent with `Case Number` |
| CasePage.CaseRecordConsistent | nlrb/spiders/nlrb.py:44-57 | In a built record, `case_type` is the type `Case Number` carries and `Date Filed` is a valid date, unless a page label itself reads `case_type` |
| Items.CaseItem.constructor | nlrb/spiders/nlrb.py:26 | A new record is empty and valid |
| Items.CaseItem.Set | nlrb/spiders/nlrb.py:52 | `item[k] = v` is `Put`, and it keeps the record valid |
| Items.CaseItem.Get | nlrb/spiders/nlrb.py:151 | A lookup is missing exactly when the key is absent |
| Items.CaseItem.Update | nlrb/spiders/nlrb.py:209 | `item.update(qs)` is the pairwise update, and the record stays valid |
| Items.PutKeepsTextCaseNumber | nlrb/spiders/nlrb.py:52 | Assigning another key, or a text to `Case Number`, keeps the case number text |
| Requests.SearchTerm | nlrb/spiders/nlrb.py:186 | The search term is the case number between two double quotes |
| Requests.SearchTermNamesCase | nlrb/spiders/nlrb.py:186 | Different case numbers give different search terms |
| Requests.Url | nlrb/spiders/nlrb.py:165-175 | A search goes to the fixed advanced-search URL; a docket-page request goes to the sorted docket URL with the case number as its path segment |
| Requests.Form | nlrb/spiders/nlrb.py:172-190 | A docket-page request carries no form. A search carries a dict: the ten fixed fields in order, then `search_term` = the quoted case number |
| Requests.RequestsDiffer | nlrb/spiders/nlrb.py:165-190 | Two different requests differ in URL or form: the case number and the kind can be read back off the wire |
| Spider.CaseNumberOf | nlrb/spiders/nlrb.py:151 | `item["Case Number"]` is the text stored there, or a `KeyError` exactly when it is absent |
| Spider.CaseSpec | nlrb/spiders/nlrb.py:23-191 | A record that `parse_case` hands on is a dict whose case number is text |
| Spider.AddBasicFields | nlrb/spiders/nlrb.py:44-57 | The label loop leaves exactly the fold of the basic-field rule over the row, or stops at its error |
| Spider.ReadTally | nlrb/spiders/nlrb.py:63-75 | The inner loop yields exactly the row's tally mapping, or its error |
| Spider.ReadTallies | nlrb/spiders/nlrb.py:60-77 | The outer loop yields exactly one tally per row, or the first error |
| Spider.ReadRelatedDocuments | nlrb/spiders/nlrb.py:79-96 | The loop yields exactly the related-document records |
| Spider.ReadAllegations | nlrb/spiders/nlrb.py:98-107 | The loop yields exactly the allegation records |
| Spider.ReadParticipants | nlrb/spiders/nlrb.py:110-141 | The loop, skipping `colspan=3` rows, yields exactly the participant records, or the first error |
| Spider.FillParticipant | nlrb/spiders/nlrb.py:119-137 | After the spider's three failure checks (type text, a line break, phone text), the five keys are filled one by one; the record is the specified participant, or the error of the first failed check |
| Spider.ParseCase | nlrb/spiders/nlrb.py:23-191 | The fresh item ends holding `CaseSpec`'s record and the one request issued is `CaseSpec`'s; or the error |
| Spider.BuildRecord | nlrb/spiders/nlrb.py:23-149 | The item built section by section equals `CaseRecord(page)`, or the error that stopped it |
| Spider.RouteCase | nlrb/spiders/nlrb.py:151-191 | The docket decision changes the item and issues the request exactly as `Route` says |
| Spider.Route | nlrb/spiders/nlrb.py:151-191 | Without a case number routing fails with the `KeyError`; a request issued is always for the record's own case number |
| Spider.RouteOkIff | nlrb/spiders/nlrb.py:151-191 | Routing succeeds exactly when the record has a case number and the docket is announced missing or is the one docket table and every row of it reads. Otherwise: the `KeyError`; `UnexpectedResponseShape` for anything but one table; or the docket's own error |
| Spider.RouteValid | nlrb/spiders/nlrb.py:160-161 | Routing keeps the record a dict whose case number is text |
| Spider.RouteOutcome | nlrb/spiders/nlrb.py:151-191 | Docket sentinel: record unchanged, search request. Fewer than 10 entries: docket attached, search request. 10 or more: nothing attached, docket-page request and no search |
| Spider.CaseSpecKeepsCaseNumber | nlrb/spiders/nlrb.py:151-191 | The handed-on record keeps the built record's text case number; a search request searches that number; a docket-page request leaves the record as built |
| Spider.ParseDocket | nlrb/spiders/nlrb.py:213-240 | The item and the outcome are those of `DocketStep`: docket stored, then a search for the item's case number |
| Spider.DocketStep | nlrb/spiders/nlrb.py:213-240 | Unless the snippet holds exactly one table the record is unchanged and the step fails; a request issued is the search for the record's case number |
| Spider.DocketStepOutcome | nlrb/spiders/nlrb.py:217-220 | With the one expected table: a bad row leaves the record unchanged and returns that row's error; otherwise the record gains the parsed docket under `docket`, every other key keeps its value, and the step succeeds exactly when the record has a case number (else the `KeyError`) |
| Spider.PaginatedDocketSearches | nlrb/spiders/nlrb.py:213-240 | After a docket-page request, a successful `parse_docket` stores the whole docket, keeps the case number and asks for the search of that same number |
| Spider.RowPairs | nlrb/spiders/nlrb.py:205-207 | `zip` pairs header i with cell i, as far as the shorter list goes |
| Spider.RowColumn | nlrb/spiders/nlrb.py:205-207 | The search row, its case number popped, is a dict in which each other header holds the cell under its last occurrence |
| Spider.ParseAdvancedSearch | nlrb/spiders/nlrb.py:193-211 | The item becomes `MergeSearch`'s record; on any failure it is left unchanged |
| Spider.MergeSearch | nlrb/spiders/nlrb.py:193-211 | More or fewer than one body row fails with `AmbiguousSearchResult`; a record without a case number never merges |
| Spider.MergeOkIff | nlrb/spiders/nlrb.py:199-208 | The merge succeeds iff there is one body row and its last `Case Number` cell equals the item's. Otherwise: `AmbiguousSearchResult`, `MissingKey`, or `ReconciliationMismatch` |
| Spider.MergeKeepsCaseNumber | nlrb/spiders/nlrb.py:208-209 | A successful merge keeps the item's case number |
| Spider.MergeKeepsOthers | nlrb/spiders/nlrb.py:205-209 | A successful merge keeps every key that is not a zipped header; a header past the end of the row is dropped by `zip` and changes nothing |
| Spider.MergeTakesColumn | nlrb/spiders/nlrb.py:205-209 | After a merge, every other header (its last occurrence within the zip) holds its cell, overwriting the item's value |
| Spider.MergeValid | nlrb/spiders/nlrb.py:205-209 | A merged record is still a dict whose case number is text |
| Pipelines.NormalizeKey | nlrb/pipelines.py:14 | A normalized key has the same length, no space and no upper-case ASCII letter |
| Pipelines.Normalize | nlrb/pipelines.py:11-20 | A dict stays a dict with no more keys, a list a list of the same length, and anything else is returned as it is |
| Pipelines.NormalizeList | nlrb/pipelines.py:17-18 | A list keeps its length and order; element i is normalized element i |
| Pipelines.NormalizeScalar | nlrb/pipelines.py:19-20 | A value that is neither dict nor list is returned unchanged |
| Pipelines.NormalizePairs | nlrb/pipelines.py:13-16 | One pair per entry, in the dict's order; pair i's key is key i normalized, with no space and no capital |
| Pipelines.NormalizeDictKeys | nlrb/pipelines.py:13-16 | A dict's keys become the normalized keys, each once at its first position, never more keys than before |
| Pipelines.NormalizeLastWins | nlrb/pipelines.py:13-16 | On a collision the entry holds the normalized value of the last key that normalizes to it |
| Pipelines.NormalizeCanonical | nlrb/pipelines.py:11-20 | The output is canonical at every depth: normal, distinct keys |
| Pipelines.CanonicalFixed | nlrb/pipelines.py:11-20 | A canonical value is a fixed point of normalization |
| Pipelines.NormalizeIdempotent | nlrb/pipelines.py:11-20 | Normalizing twice equals normalizing once, at any depth |
| Pipelines.KeyExamples | nlrb/pipelines.py:14 | `Case Number`, `Tallies` and `A B` normalize to `case_number`, `tallies` and `a_b` |
| Pipelines.NormalizeExample | nlrb/pipelines.py:11-20 | For any case number c and count n, `{"Case Number": c, "Tallies": [{"A B": n}]}` becomes `{"case_number": c, "tallies": [{"a_b": n}]}` |
| Pipelines.ProcessItem | nlrb/pipelines.py:23-25 | `process_item` returns a canonical record that normalization leaves unchanged; the spider argument plays no part |

## Left out

- `start_requests` (reading case numbers from a CSV file) and the first page fetch: this is I/O.
- Scrapy's request objects, callbacks, `cb_kwargs`, scheduling and concurrency.
  - Requests are descriptors: `Requests.Request`.
  - A callback is a method that receives the same `CaseItem`.
  - The order in which a generator's requests are consumed is not modelled.
- XPath selection over HTML, and the JSON decode of the docket-page answer (`response.json()[3]["data"]`). Their results are inputs.
  - The related-document links are given as those under the first list after the "Related Documents" heading. There are none when the heading is absent.
  - `Page.docketTables` and the docket-page tables are every table body the selector finds.
- The `try/except ValueError` and `status_code = 404` around the title do nothing useful in the source. A missing title is the failure `MissingTitle`.
- Full Unicode semantics of `str.strip` and `str.lower`. Text is ASCII; whitespace is the ASCII characters Python's `isspace` accepts.
- `strptime` leniency beyond `%m/%d/%Y`. This covers one- or two-digit month and day, a day with a leading blank, and a four-digit year. Locale effects are not modelled.
- Python `assert` statements vanish under `python -O`. The model always checks them.
- `Spider.FillParticipant` checks the three ways a row can fail before it fills any key. The spider fills `type` to `address` before it reads the phone text, but a failure drops the partial record, so the outcome is the same.
- On a failure, the partly built `details` of `parse_case` is dropped, as in the source. `ParseCase` says nothing about its contents then, beyond its validity.
- BasicFieldsConsistent: states only that the row keeps `case_type` and `Date Filed` consistent; the values each label writes, and the failures, are stated by `CasePage.BasicFieldsOfPairs`.
- CaseRecordConsistent: states only the consistency of `case_type` and `Date Filed` in a built record; what each basic key holds, and the failure on an unwritable field, are stated by `CasePage.CaseRecordBasic`.
- Spider.CaseSpec: its own contract states only that the record stays a valid dict. The routing is stated by `Spider.RouteOkIff`, `Spider.RouteOutcome` and `Spider.CaseSpecKeepsCaseNumber`.
- CasePage.Listed: its own contract states only which rows are kept; their order and that each is kept once are stated by `CasePage.ListedAppend` and `CasePage.ListedSingle`.
