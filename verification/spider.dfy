/**
 * `NLRBSpider.parse_case`, `parse_docket` and `parse_advanced_search`
 * (nlrb/spiders/nlrb.py) over the data their selectors return. Each builds
 * or changes the case record (a `CaseItem`) step by step, and each is
 * proved to end in the state, and to issue the request, that the
 * functions of this module and of module CasePage describe.
 */
module Spider {
  import opened Wrappers
  import opened Errors
  import opened Values
  import opened Assoc
  import opened Collect
  import opened Items
  import opened CasePage
  import opened Requests
  import Text
  import Dates
  import CaseTypes
  import Docket

  /** Fewer docket entries than this are kept inline; more are fetched page by page. */
  const InlineDocketLimit: int := 10

  /** `item["Case Number"]`: its text, or the `KeyError`. */
  function CaseNumberOf(ps: seq<(string, Value)>): (r: Result<string, Error>)
    requires TextCaseNumber(ps)
    ensures r.Ok? <==> Lookup(ps, CaseNumberKey).Some?
    ensures r.Ok? ==> Lookup(ps, CaseNumberKey) == Some(Str(r.value))
    ensures r.Err? ==> r.error == MissingKey(CaseNumberKey)
  {
    match Lookup(ps, CaseNumberKey)
    case None => Err(MissingKey(CaseNumberKey))
    case Some(v) => Ok(v.s)
  }

  /**
   * How `parse_case` ends: the record it hands on and the one request it
   * issues, or the error that ended it.
   */
  function CaseSpec(page: Page): (r: Result<(seq<(string, Value)>, Request), Error>)
    ensures r.Ok? ==> IsDict(r.value.0) && TextCaseNumber(r.value.0)
  {
    var details :- CaseRecord(page);
    CaseRecordValid(page);
    RouteValid(page, details);
    Route(page, details)
  }

  /**
   * The end of `parse_case`, once the record is built: the docket is kept
   * inline when it is short; a long one is left for `parse_docket`, and
   * then no search request is made here.
   */
  function Route(page: Page, details: seq<(string, Value)>): (r: Result<(seq<(string, Value)>, Request), Error>)
    requires TextCaseNumber(details)
    ensures CaseNumberOf(details).Err? ==> r == Err(CaseNumberOf(details).error)
    ensures r.Ok? ==> CaseNumberOf(details) == Ok(r.value.1.caseNumber)
  {
    var caseNumber :- CaseNumberOf(details);
    if Text.Contains(page.text, DocketMissing) then Ok((details, AdvancedSearch(caseNumber)))
    else if |page.docketTables| != 1 then Err(UnexpectedResponseShape)
    else
      var docket :- Docket.DocketTable(page.docketTables[0]);
      if |docket| < InlineDocketLimit then Ok((Put(details, "docket", List(docket)), AdvancedSearch(caseNumber)))
      else Ok((details, DocketPage(caseNumber)))
  }

  /** The first flex row written into the record, label by label. */
  method AddBasicFields(item: CaseItem, fs: seq<Field>) returns (r: Result<(), Error>)
    requires item.Valid()
    modifies item
    ensures item.Valid()
    ensures FoldFrom(BasicField, old(item.fields), fs).Ok? ==>
      r.Ok? && item.fields == FoldFrom(BasicField, old(item.fields), fs).value
    ensures FoldFrom(BasicField, old(item.fields), fs).Err? ==>
      r == Err(FoldFrom(BasicField, old(item.fields), fs).error)
  {
    ghost var start := item.fields;
    for i := 0 to |fs|
      invariant item.Valid()
      invariant FoldFrom(BasicField, item.fields, fs[i..]) == FoldFrom(BasicField, start, fs)
    {
      assert fs[i..][1..] == fs[i + 1..];
      var f := fs[i];
      if f.heading.None? {
        return Err(MissingText);
      }
      var key := Label(f.heading.value);
      var value := Text.Trim(f.following);
      if key == CaseNumberKey {
        item.Set(key, Str(value));
        var code := CaseTypes.Classify(value);
        if code.Err? {
          return Err(code.error);
        }
        item.Set("case_type", Str(CaseTypes.Name(code.value)));
      } else if key == "Date Filed" {
        var d := Dates.ParseDate(value);
        if d.None? {
          return Err(DateParseError);
        }
        item.Set(key, DateVal(d.value));
      } else {
        item.Set(key, Str(value));
      }
    }
    return Ok(());
  }

  /** One tally row read into its own mapping. */
  method ReadTally(fs: seq<Field>) returns (r: Result<Value, Error>)
    ensures r == TallyOf(fs)
  {
    var tally: seq<(string, Value)> := [];
    for i := 0 to |fs|
      invariant FoldFrom(TallyField, tally, fs[i..]) == FoldFrom(TallyField, [], fs)
    {
      assert fs[i..][1..] == fs[i + 1..];
      if fs[i].heading.None? {
        return Err(MissingText);
      }
      tally := Put(tally, Label(fs[i].heading.value), Str(Text.Trim(fs[i].following)));
    }
    return Ok(Dict(tally));
  }

  /** The tally rows, one mapping appended per row. */
  method ReadTallies(rows: seq<seq<Field>>) returns (r: Result<seq<Value>, Error>)
    ensures r == Tallies(rows)
  {
    var tallies: seq<Value> := [];
    for i := 0 to |rows|
      invariant CollectFrom(TallyOf, tallies, rows[i..]) == Tallies(rows)
    {
      assert rows[i..][1..] == rows[i + 1..];
      var tally := ReadTally(rows[i]);
      if tally.Err? {
        return Err(tally.error);
      }
      tallies := tallies + [tally.value];
    }
    return Ok(tallies);
  }

  /** The related documents, one record appended per link. */
  method ReadRelatedDocuments(page: Page) returns (docs: seq<Value>)
    ensures docs == RelatedDocuments(page)
  {
    docs := [];
    if !Text.Contains(page.text, RelatedDocumentsMissing) {
      for i := 0 to |page.relatedDocuments|
        invariant |docs| == i
        invariant forall j :: 0 <= j < i ==> docs[j] == DocumentRecord(page.relatedDocuments[j])
      {
        docs := docs + [DocumentRecord(page.relatedDocuments[i])];
      }
    }
  }

  /** The allegations, one record appended per item. */
  method ReadAllegations(page: Page) returns (xs: seq<Value>)
    ensures xs == Allegations(page)
  {
    xs := [];
    if !Text.Contains(page.text, AllegationsMissing) {
      for i := 0 to |page.allegations|
        invariant |xs| == i
        invariant forall j :: 0 <= j < i ==> xs[j] == AllegationRecord(page.allegations[j])
      {
        xs := xs + [AllegationRecord(page.allegations[i])];
      }
    }
  }

  /** The participants, one record appended per row without a `colspan=3` cell. */
  method ReadParticipants(page: Page) returns (r: Result<seq<Value>, Error>)
    ensures r == Participants(page)
  {
    if Text.Contains(page.text, ParticipantsMissing) {
      return Ok([]);
    }
    var rows := page.participantRows;
    var participants: seq<Value> := [];
    for i := 0 to |rows|
      invariant CollectFrom(ParticipantOf, participants, Listed(rows[i..])) == Participants(page)
    {
      assert rows[i..][1..] == rows[i + 1..];
      if rows[i].spansThree {
        continue;
      }
      var entry := FillParticipant(rows[i]);
      if entry.Err? {
        return Err(entry.error);
      }
      participants := participants + [entry.value];
    }
    return Ok(participants);
  }

  /**
   * One participant row, its record filled key by key in the order the
   * spider assigns them. The spider fails on a missing type text, on a
   * type cell without a line break, and on a missing phone text, in that
   * order; none of these leaves anything behind, so they are checked first.
   */
  method FillParticipant(row: PRow) returns (r: Result<Value, Error>)
    ensures r == ParticipantOf(row)
  {
    if |row.cells| != 3 {
      return Err(WrongCellCount);
    }
    var who, address, phone := row.cells[0], row.cells[1], row.cells[2];
    if who.bold.None? {
      return Err(MissingText);
    }
    var segs := Segments(who);
    if segs == [] {
      return Err(MalformedParticipantRow);
    }
    if phone.texts == [] {
      return Err(MissingText);
    }
    var kind, subtype, participant := Text.Trim(who.bold.value), segs[0], Text.Trim(Text.Join(segs[1..], "\n"));
    var addressText, phoneNumber := Text.Trim(Text.Join(Lines(address.texts), "\n")), Text.Trim(phone.texts[0]);
    var entry := [("type", Str(kind))];
    entry := entry + [("subtype", Str(subtype))];
    entry := entry + [("participant", Str(participant))];
    entry := entry + [("address", Str(addressText))];
    entry := entry + [("phone_number", Str(phoneNumber))];
    ParticipantEntriesInOrder(kind, subtype, participant, addressText, phoneNumber);
    return Ok(Dict(entry));
  }

  /**
   * `parse_case(response)`: the record is built section by section in a
   * fresh item; the outcome is the one request issued, or the error that
   * ended the callback.
   */
  method ParseCase(page: Page) returns (r: Result<Request, Error>, item: CaseItem)
    ensures fresh(item) && item.Valid()
    ensures CaseSpec(page).Ok? ==> r == Ok(CaseSpec(page).value.1) && item.fields == CaseSpec(page).value.0
    ensures CaseSpec(page).Err? ==> r == Err(CaseSpec(page).error)
  {
    var built;
    built, item := BuildRecord(page);
    if built.Err? {
      return Err(built.error), item;
    }
    r := RouteCase(page, item);
  }

  /** The record of `parse_case`, section by section, in a fresh item. */
  method BuildRecord(page: Page) returns (r: Result<(), Error>, item: CaseItem)
    ensures fresh(item) && item.Valid()
    ensures CaseRecord(page).Ok? ==> r.Ok? && item.fields == CaseRecord(page).value
    ensures CaseRecord(page).Err? ==> r == Err(CaseRecord(page).error)
  {
    item := new CaseItem();
    if page.title.None? {
      return Err(MissingTitle), item;
    }
    item.Set("name", Str(Text.Trim(page.title.value)));
    assert item.fields == [("name", Str(Text.Trim(page.title.value)))];
    if page.flexRows == [] {
      return Err(NoFlexRows), item;
    }
    var basic := AddBasicFields(item, page.flexRows[0]);
    if basic.Err? {
      return Err(basic.error), item;
    }
    ghost var basicFields := item.fields;

    var tallies := ReadTallies(page.flexRows[1..]);
    if tallies.Err? {
      return Err(tallies.error), item;
    }
    item.Set("tallies", List(tallies.value));
    var docs := ReadRelatedDocuments(page);
    item.Set("related_documents", List(docs));
    var allegations := ReadAllegations(page);
    item.Set("allegations", List(allegations));
    var participants := ReadParticipants(page);
    if participants.Err? {
      return Err(participants.error), item;
    }
    item.Set("participants", List(participants.value));
    item.Set("related cases", List(RelatedCases(page)));
    assert item.fields == WithSections(basicFields, tallies.value, docs, allegations, participants.value, RelatedCases(page));
    return Ok(()), item;
  }

  /** The end of `parse_case`: the docket decision and the request it issues. */
  method RouteCase(page: Page, item: CaseItem) returns (r: Result<Request, Error>)
    requires item.Valid()
    modifies item
    ensures item.Valid()
    ensures Route(page, old(item.fields)).Ok? ==>
      r == Ok(Route(page, old(item.fields)).value.1) && item.fields == Route(page, old(item.fields)).value.0
    ensures Route(page, old(item.fields)).Err? ==> r == Err(Route(page, old(item.fields)).error)
  {
    var caseNumber := item.Get(CaseNumberKey);
    if caseNumber.None? {
      return Err(MissingKey(CaseNumberKey));
    }
    var number := caseNumber.value.s;

    var calledDockets := false;
    if !Text.Contains(page.text, DocketMissing) {
      if |page.docketTables| != 1 {
        return Err(UnexpectedResponseShape);
      }
      var docket := Docket.ParseDocketTable(page.docketTables[0]);
      if docket.Err? {
        return Err(docket.error);
      }
      if |docket.value| < InlineDocketLimit {
        item.Set("docket", List(docket.value));
      } else {
        r := Ok(DocketPage(number));
        calledDockets := true;
      }
    }
    if !calledDockets {
      r := Ok(AdvancedSearch(number));
    }
  }

  /**
   * How `parse_docket(response, item)` leaves the record and what it
   * issues: the single table of the fetched snippet is parsed and stored
   * under `docket` before the case number is read, so a record without a
   * case number keeps its new docket while the callback fails.
   */
  function DocketStep(tables: seq<seq<Docket.Row>>, ps: seq<(string, Value)>): (r: (seq<(string, Value)>, Result<Request, Error>))
    requires TextCaseNumber(ps)
    ensures |tables| != 1 ==> r == (ps, Err(UnexpectedResponseShape))
    ensures r.1.Ok? ==> CaseNumberOf(ps).Ok? && r.1.value == AdvancedSearch(CaseNumberOf(ps).value)
  {
    if |tables| != 1 then (ps, Err(UnexpectedResponseShape))
    else
      match Docket.DocketTable(tables[0])
      case Err(e) => (ps, Err(e))
      case Ok(docket) =>
        var fields := Put(ps, "docket", List(docket));
        PutKeepsTextCaseNumber(ps, "docket", List(docket));
        PutOthers(ps, "docket", List(docket), CaseNumberKey);
        match CaseNumberOf(fields)
        case Ok(caseNumber) => (fields, Ok(AdvancedSearch(caseNumber)))
        case Err(e) => (fields, Err(e))
  }

  /**
   * With the one table it expects, `parse_docket` either fails on a bad row,
   * leaving the record as it was with that row's error, or stores the parsed
   * docket under `docket`, changes no other key, and then succeeds exactly
   * when the record has a case number.
   */
  lemma DocketStepOutcome(tables: seq<seq<Docket.Row>>, ps: seq<(string, Value)>)
    requires TextCaseNumber(ps) && |tables| == 1
    ensures Docket.DocketTable(tables[0]).Err? ==>
      DocketStep(tables, ps) == (ps, Err(Docket.DocketTable(tables[0]).error))
    ensures Docket.DocketTable(tables[0]).Ok? ==>
      && DocketStep(tables, ps).0 == Put(ps, "docket", List(Docket.DocketTable(tables[0]).value))
      && (DocketStep(tables, ps).1.Ok? <==> Lookup(ps, CaseNumberKey).Some?)
      && (Lookup(ps, CaseNumberKey).None? ==> DocketStep(tables, ps).1 == Err(MissingKey(CaseNumberKey)))
      && forall k :: k != "docket" ==> Lookup(DocketStep(tables, ps).0, k) == Lookup(ps, k)
  {
    if Docket.DocketTable(tables[0]).Ok? {
      var docket := List(Docket.DocketTable(tables[0]).value);
      forall k | k != "docket" ensures Lookup(Put(ps, "docket", docket), k) == Lookup(ps, k) {
        PutOthers(ps, "docket", docket, k);
      }
    }
  }

  /** `parse_docket(response, item)`, over the tables of the decoded snippet. */
  method ParseDocket(tables: seq<seq<Docket.Row>>, item: CaseItem) returns (r: Result<Request, Error>)
    requires item.Valid()
    modifies item
    ensures item.Valid()
    ensures (item.fields, r) == DocketStep(tables, old(item.fields))
  {
    if |tables| != 1 {
      return Err(UnexpectedResponseShape);
    }
    var docket := Docket.ParseDocketTable(tables[0]);
    if docket.Err? {
      return Err(docket.error);
    }
    item.Set("docket", List(docket.value));
    var caseNumber := item.Get(CaseNumberKey);
    if caseNumber.None? {
      return Err(MissingKey(CaseNumberKey));
    }
    r := Ok(AdvancedSearch(caseNumber.value.s));
  }

  /** The result table of the advanced search: its header texts and, per body row, each cell's first text. */
  datatype SearchTable = SearchTable(headers: seq<string>, rows: seq<seq<Option<string>>>)

  /** `zip(keys, row.xpath("./td"))`: header and cell side by side, as far as the shorter goes. */
  function RowPairs(headers: seq<string>, cells: seq<Option<string>>): (ps: seq<(string, Value)>)
    ensures |ps| <= |headers| && |ps| <= |cells|
    ensures |ps| == |headers| || |ps| == |cells|
    ensures forall i :: 0 <= i < |ps| ==> ps[i] == (headers[i], OfText(cells[i]))
  {
    var n := if |headers| < |cells| then |headers| else |cells|;
    seq(n, i requires 0 <= i < n => (headers[i], OfText(cells[i])))
  }

  /**
   * `parse_advanced_search(response, item)`: the record after the merge,
   * or the failed assertion or lookup, which leaves the record as it was.
   */
  function MergeSearch(table: SearchTable, ps: seq<(string, Value)>): (r: Result<seq<(string, Value)>, Error>)
    ensures |table.rows| != 1 ==> r == Err(AmbiguousSearchResult)
    ensures Lookup(ps, CaseNumberKey).None? ==> r.Err?
    ensures r.Ok? ==> |table.rows| == 1 && Lookup(ps, CaseNumberKey).Some?
  {
    if |table.rows| != 1 then Err(AmbiguousSearchResult)
    else
      var result := FromPairs(RowPairs(table.headers, table.rows[0]));
      match Lookup(ps, CaseNumberKey)
      case None => Err(MissingKey(CaseNumberKey))
      case Some(mine) =>
        match Lookup(result, CaseNumberKey)
        case None => Err(MissingKey(CaseNumberKey))
        case Some(theirs) =>
          if mine != theirs then Err(ReconciliationMismatch)
          else Ok(UpdateWith(ps, Remove(result, CaseNumberKey)))
  }

  /** `parse_advanced_search(response, item)`: pop the case number from the row, then update the item. */
  method ParseAdvancedSearch(table: SearchTable, item: CaseItem) returns (r: Result<(), Error>)
    requires item.Valid()
    modifies item
    ensures item.Valid()
    ensures MergeSearch(table, old(item.fields)).Ok? ==>
      r.Ok? && item.fields == MergeSearch(table, old(item.fields)).value
    ensures MergeSearch(table, old(item.fields)).Err? ==>
      r == Err(MergeSearch(table, old(item.fields)).error) && item.fields == old(item.fields)
  {
    if |table.rows| != 1 {
      return Err(AmbiguousSearchResult);
    }
    var result := FromPairs(RowPairs(table.headers, table.rows[0]));
    var mine := item.Get(CaseNumberKey);
    if mine.None? {
      return Err(MissingKey(CaseNumberKey));
    }
    var theirs := Lookup(result, CaseNumberKey);
    if theirs.None? {
      return Err(MissingKey(CaseNumberKey));
    }
    result := Remove(result, CaseNumberKey);
    if mine.value != theirs.value {
      return Err(ReconciliationMismatch);
    }
    item.Update(result);
    return Ok(());
  }

  // Properties of the routing

  /**
   * Where `parse_case` goes once the record is built: with the docket
   * sentinel, or with a docket of fewer than ten entries, it asks for the
   * search of its own case number (and only in the second case attaches
   * the docket); with ten or more it asks for the first docket page and
   * makes no search request.
   */
  lemma RouteOutcome(page: Page, details: seq<(string, Value)>)
    requires TextCaseNumber(details)
    requires Route(page, details).Ok?
    ensures Lookup(details, CaseNumberKey).Some?
    ensures var (fields, request) := Route(page, details).value;
      var caseNumber := Lookup(details, CaseNumberKey).value.s;
      && (Text.Contains(page.text, DocketMissing) ==> fields == details && request == AdvancedSearch(caseNumber))
      && (!Text.Contains(page.text, DocketMissing) ==>
            |page.docketTables| == 1 && Docket.DocketTable(page.docketTables[0]).Ok? &&
            var docket := Docket.DocketTable(page.docketTables[0]).value;
            if |docket| < InlineDocketLimit
            then fields == Put(details, "docket", List(docket)) && request == AdvancedSearch(caseNumber)
            else fields == details && request == DocketPage(caseNumber))
  {
    var caseNumber := CaseNumberOf(details).value;
    if !Text.Contains(page.text, DocketMissing) {
      assert |page.docketTables| == 1;
      var docket := Docket.DocketTable(page.docketTables[0]);
      assert docket.Ok?;
      if |docket.value| < InlineDocketLimit {
        assert Route(page, details).value == (Put(details, "docket", List(docket.value)), AdvancedSearch(caseNumber));
      } else {
        assert Route(page, details).value == (details, DocketPage(caseNumber));
      }
    }
  }

  /** Routing keeps the record a dict whose case number is text. */
  lemma RouteValid(page: Page, details: seq<(string, Value)>)
    requires IsDict(details) && TextCaseNumber(details)
    ensures Route(page, details).Ok? ==>
      IsDict(Route(page, details).value.0) && TextCaseNumber(Route(page, details).value.0)
  {
    if Route(page, details).Ok? && !Text.Contains(page.text, DocketMissing) {
      var docket := Docket.DocketTable(page.docketTables[0]).value;
      PutIsDict(details, "docket", List(docket));
      PutKeepsTextCaseNumber(details, "docket", List(docket));
    }
  }

  /**
   * `parse_case` ends with a request exactly when the record has a case
   * number and the docket is either announced missing or is the one docket
   * table, every row of which reads. Without a case number it fails with
   * the `KeyError`; with anything but one docket table, on the tuple
   * unpacking; and with a bad docket row, with that row's error.
   */
  lemma RouteOkIff(page: Page, details: seq<(string, Value)>)
    requires TextCaseNumber(details)
    ensures Route(page, details).Ok? <==>
      && Lookup(details, CaseNumberKey).Some?
      && (Text.Contains(page.text, DocketMissing)
          || (|page.docketTables| == 1 && Docket.DocketTable(page.docketTables[0]).Ok?))
    ensures Lookup(details, CaseNumberKey).None? ==> Route(page, details) == Err(MissingKey(CaseNumberKey))
    ensures (Lookup(details, CaseNumberKey).Some? && !Text.Contains(page.text, DocketMissing)
             && |page.docketTables| != 1) ==> Route(page, details) == Err(UnexpectedResponseShape)
    ensures (Lookup(details, CaseNumberKey).Some? && !Text.Contains(page.text, DocketMissing)
             && |page.docketTables| == 1 && Docket.DocketTable(page.docketTables[0]).Err?) ==>
      Route(page, details) == Err(Docket.DocketTable(page.docketTables[0]).error)
  {
  }

  /**
   * The record never loses its case number on the way: `parse_case` hands
   * on the number it read, and the request it issues is a search for that
   * number exactly when it is not a docket-page request.
   */
  lemma CaseSpecKeepsCaseNumber(page: Page)
    requires CaseSpec(page).Ok?
    ensures CaseRecord(page).Ok?
    ensures var (fields, request) := CaseSpec(page).value;
      && Lookup(fields, CaseNumberKey) == Lookup(CaseRecord(page).value, CaseNumberKey)
      && Lookup(fields, CaseNumberKey).Some? && Lookup(fields, CaseNumberKey).value.Str?
      && (request.AdvancedSearch? ==> request == AdvancedSearch(Lookup(fields, CaseNumberKey).value.s))
      && (request.DocketPage? ==> fields == CaseRecord(page).value)
  {
    var details := CaseRecord(page).value;
    CaseRecordValid(page);
    RouteOutcome(page, details);
    if !Text.Contains(page.text, DocketMissing) {
      var docket := Docket.DocketTable(page.docketTables[0]).value;
      if |docket| < InlineDocketLimit {
        PutOthers(details, "docket", List(docket), CaseNumberKey);
      }
    }
  }

  /**
   * A docket fetched page by page ends the same way as a short one: once
   * `parse_case` has asked for the docket page, a `parse_docket` that
   * succeeds stores the whole docket and asks for the search of the same
   * case number, so exactly one search request follows every case.
   */
  lemma PaginatedDocketSearches(page: Page, tables: seq<seq<Docket.Row>>)
    requires CaseSpec(page).Ok? && CaseSpec(page).value.1.DocketPage?
    requires DocketStep(tables, CaseSpec(page).value.0).1.Ok?
    ensures var details := CaseSpec(page).value.0;
      && Lookup(details, CaseNumberKey).Some?
      && |tables| == 1 && Docket.DocketTable(tables[0]).Ok?
      && var (fields, request) := DocketStep(tables, details);
         && Lookup(fields, "docket") == Some(List(Docket.DocketTable(tables[0]).value))
         && Lookup(fields, CaseNumberKey) == Lookup(details, CaseNumberKey)
         && request == Ok(AdvancedSearch(Lookup(details, CaseNumberKey).value.s))
  {
    CaseSpecKeepsCaseNumber(page);
    var details := CaseSpec(page).value.0;
    PutOthers(details, "docket", List(Docket.DocketTable(tables[0]).value), CaseNumberKey);
  }

  // Properties of the search-row merge

  /**
   * The merge succeeds exactly when there is one body row, the record has
   * a case number, and the row's `Case Number` column (the last one, if the
   * header repeats) holds that same value.
   */
  lemma MergeOkIff(table: SearchTable, ps: seq<(string, Value)>)
    ensures MergeSearch(table, ps).Ok? <==>
      && |table.rows| == 1
      && var pairs := RowPairs(table.headers, table.rows[0]);
      && LastIndexOf(Keys(pairs), CaseNumberKey).Some?
      && Lookup(ps, CaseNumberKey) == Some(pairs[LastIndexOf(Keys(pairs), CaseNumberKey).value].1)
    ensures |table.rows| != 1 ==> MergeSearch(table, ps) == Err(AmbiguousSearchResult)
    ensures |table.rows| == 1 ==>
      var pairs := RowPairs(table.headers, table.rows[0]);
      var column := LastIndexOf(Keys(pairs), CaseNumberKey);
      && (Lookup(ps, CaseNumberKey).None? || column.None? ==> MergeSearch(table, ps) == Err(MissingKey(CaseNumberKey)))
      && (Lookup(ps, CaseNumberKey).Some? && column.Some? && Lookup(ps, CaseNumberKey).value != pairs[column.value].1 ==>
            MergeSearch(table, ps) == Err(ReconciliationMismatch))
  {
    if |table.rows| == 1 {
      FromPairsLookup(RowPairs(table.headers, table.rows[0]), CaseNumberKey);
    }
  }

  /** A successful merge leaves the record's case number as it was. */
  lemma MergeKeepsCaseNumber(table: SearchTable, ps: seq<(string, Value)>)
    requires MergeSearch(table, ps).Ok?
    ensures Lookup(MergeSearch(table, ps).value, CaseNumberKey) == Lookup(ps, CaseNumberKey)
  {
    var result := FromPairs(RowPairs(table.headers, table.rows[0]));
    UpdateKeepsOthers(ps, Remove(result, CaseNumberKey), CaseNumberKey);
  }

  /**
   * A successful merge leaves every key that is not a zipped column header
   * as it was: a header past the end of the row is dropped by `zip`.
   */
  lemma MergeKeepsOthers(table: SearchTable, ps: seq<(string, Value)>, k: string)
    requires MergeSearch(table, ps).Ok?
    requires k !in Keys(RowPairs(table.headers, table.rows[0]))
    ensures Lookup(MergeSearch(table, ps).value, k) == Lookup(ps, k)
  {
    var pairs := RowPairs(table.headers, table.rows[0]);
    var result := FromPairs(pairs);
    var empty: seq<(string, Value)> := [];
    UpdateKeySet(empty, pairs, k);
    UpdateKeepsOthers(ps, Remove(result, CaseNumberKey), k);
  }

  /**
   * After a successful merge every other column is in the record: a header
   * holds the cell under its last occurrence in the row, overwriting
   * whatever the record held.
   */
  lemma MergeTakesColumn(table: SearchTable, ps: seq<(string, Value)>, i: nat)
    requires MergeSearch(table, ps).Ok?
    requires i < |table.headers| && i < |table.rows[0]|
    requires table.headers[i] != CaseNumberKey
    requires forall j :: i < j < |table.headers| && j < |table.rows[0]| ==> table.headers[j] != table.headers[i]
    ensures Lookup(MergeSearch(table, ps).value, table.headers[i]) == Some(OfText(table.rows[0][i]))
  {
    var k := table.headers[i];
    var row := Remove(FromPairs(RowPairs(table.headers, table.rows[0])), CaseNumberKey);
    RowColumn(table.headers, table.rows[0], i);
    assert MergeSearch(table, ps).value == UpdateWith(ps, row);
    UpdateFromDict(ps, row, k);
  }

  /** The row, its case number popped, holds each other header's last cell and no key twice. */
  lemma RowColumn(headers: seq<string>, cells: seq<Option<string>>, i: nat)
    requires i < |headers| && i < |cells|
    requires headers[i] != CaseNumberKey
    requires forall j :: i < j < |headers| && j < |cells| ==> headers[j] != headers[i]
    ensures var row := Remove(FromPairs(RowPairs(headers, cells)), CaseNumberKey);
      IsDict(row) && Lookup(row, headers[i]) == Some(OfText(cells[i]))
  {
    var pairs := RowPairs(headers, cells);
    var result := FromPairs(pairs);
    var empty: seq<(string, Value)> := [];
    UpdateLastWins(empty, pairs, i);
    RemoveOthers(result, CaseNumberKey, headers[i]);
    UpdateIsDict(empty, pairs);
    RemoveIsDict(result, CaseNumberKey);
  }

  /** A successful merge keeps the record a dict whose case number is text. */
  lemma MergeValid(table: SearchTable, ps: seq<(string, Value)>)
    requires IsDict(ps) && TextCaseNumber(ps)
    requires MergeSearch(table, ps).Ok?
    ensures IsDict(MergeSearch(table, ps).value) && TextCaseNumber(MergeSearch(table, ps).value)
  {
    var result := FromPairs(RowPairs(table.headers, table.rows[0]));
    UpdateIsDict(ps, Remove(result, CaseNumberKey));
    MergeKeepsCaseNumber(table, ps);
  }
}
