/**
 * What `parse_case` (nlrb/spiders/nlrb.py) reads off a case page, and the
 * record it assembles from it, as functions of the page. The page is given
 * as the plain data its selectors pick out; the spider's loops over that
 * data are in module Spider and are proved to compute these functions.
 */
module CasePage {
  import opened Wrappers
  import opened Errors
  import opened Values
  import opened Assoc
  import opened Collect
  import opened Items
  import Text
  import Dates
  import CaseTypes
  import Docket

  /**
   * A bold label of a flex row, if it has a text node, and the text that
   * follows the bold element (an XPath `string(...)`, so never absent).
   */
  datatype Field = Field(heading: Option<string>, following: string)

  /** A link of the Related Documents list: its string value and its `href`, if any. */
  datatype DocLink = DocLink(text: string, href: Option<string>)

  /**
   * A cell of the participants table: the text of its bold element, if any;
   * for each `<br>`, the first text node after it, if any; its own text nodes.
   */
  datatype PCell = PCell(bold: Option<string>, breaks: seq<Option<string>>, texts: seq<string>)

  /** A row of the participants table; `spansThree` when one of its cells has `colspan=3`. */
  datatype PRow = PRow(spansThree: bool, cells: seq<PCell>)

  /** A case page as the selectors see it. */
  datatype Page = Page(
    text: string,                         // the whole response text, for the sentinel tests
    title: Option<string>,                // the page title's text node
    flexRows: seq<seq<Field>>,            // the flex rows: basic details first, then the tallies
    relatedDocuments: seq<DocLink>,       // links under the "Related Documents" heading (none without it)
    allegations: seq<Option<string>>,     // the first text of each allegation item
    participantRows: seq<PRow>,           // the rows of the participants table body
    relatedCases: seq<string>,            // the link texts of the related-cases table
    docketTables: seq<seq<Docket.Row>>)   // every docket table body on the page

  const RelatedDocumentsMissing: string := "Related Documents data is not available"
  const AllegationsMissing: string := "Allegations data is not available"
  const ParticipantsMissing: string := "Participants data is not available"
  const DocketMissing: string := "Docket Activity data is not available"

  /** `text.strip(": ")`: a label without the colons and blanks around it. */
  function Label(t: string): (k: string)
    ensures k != [] ==> k[0] !in {':', ' '} && k[|k| - 1] !in {':', ' '}
  {
    Text.Strip(t, {':', ' '})
  }

  /** Every tally row has all its labels. */
  predicate TallyRowsLabelled(rows: seq<seq<Field>>) {
    forall i :: 0 <= i < |rows| ==> Labelled(rows[i])
  }

  // ---------------------------------------------------------------- basic details

  /**
   * One label of the first flex row written into the record: "Case Number"
   * also sets "case_type", "Date Filed" must be a date, any other label is
   * stored as text.
   */
  function BasicField(acc: seq<(string, Value)>, f: Field): (r: Result<seq<(string, Value)>, Error>)
    ensures r.Ok? <==> Writable(f)
  {
    match f.heading
    case None => Err(MissingText)
    case Some(l) =>
      var key, value := Label(l), Text.Trim(f.following);
      if key == CaseNumberKey then
        match CaseTypes.Classify(value)
        case Ok(c) => Ok(Put(Put(acc, key, Str(value)), "case_type", Str(CaseTypes.Name(c))))
        case Err(e) => Err(e)
      else if key == "Date Filed" then
        match Dates.ParseDate(value)
        case Some(d) => Ok(Put(acc, key, DateVal(d)))
        case None => Err(DateParseError)
      else
        Ok(Put(acc, key, Str(value)))
  }

  /** A basic-details field the spider can write: it has a label, its case number a type, its filing date a date. */
  predicate Writable(f: Field) {
    && f.heading.Some?
    && (Label(f.heading.value) == CaseNumberKey ==> CaseTypes.Classify(Text.Trim(f.following)).Ok?)
    && (Label(f.heading.value) == "Date Filed" ==> Dates.ParseDate(Text.Trim(f.following)).Some?)
  }

  /** Why the spider stops on a field it cannot write. */
  function WriteError(f: Field): Error
    requires !Writable(f)
  {
    if f.heading.None? then MissingText
    else if Label(f.heading.value) == CaseNumberKey then UnknownCaseType
    else DateParseError
  }

  /**
   * The assignments a writable field makes, in order: its label with its
   * stripped text, and for a case number then its type; a filing date is
   * stored as the date its text parses to.
   */
  function Writes(f: Field): seq<(string, Value)>
    requires Writable(f)
  {
    var key, value := Label(f.heading.value), Text.Trim(f.following);
    if key == CaseNumberKey then
      [(key, Str(value)), ("case_type", Str(CaseTypes.Name(CaseTypes.Classify(value).value)))]
    else if key == "Date Filed" then [(key, DateVal(Dates.ParseDate(value).value))]
    else [(key, Str(value))]
  }

  /** Every field of the row can be written. */
  predicate AllWritable(fs: seq<Field>) {
    forall i :: 0 <= i < |fs| ==> Writable(fs[i])
  }

  /** The assignments of a writable row, field after field. */
  function RowWrites(fs: seq<Field>): seq<(string, Value)>
    requires AllWritable(fs)
  {
    if fs == [] then []
    else
      assert AllWritable(fs[1..]) by {
        forall i | 0 <= i < |fs[1..]| ensures Writable(fs[1..][i]) {
          assert fs[1..][i] == fs[i + 1];
        }
      }
      Writes(fs[0]) + RowWrites(fs[1..])
  }

  /** Field `i` is the first of the row that cannot be written. */
  predicate FirstUnwritable(fs: seq<Field>, i: int) {
    0 <= i < |fs| && !Writable(fs[i]) && forall j :: 0 <= j < i ==> Writable(fs[j])
  }

  // ---------------------------------------------------------------- tallies

  /** One label of a tally row: its value is stored as text. */
  function TallyField(acc: seq<(string, Value)>, f: Field): Result<seq<(string, Value)>, Error> {
    match f.heading
    case None => Err(MissingText)
    case Some(_) => Ok(Put(acc, FieldPair(f).0, FieldPair(f).1))
  }

  /** A labelled field as a (label, stripped text) pair. */
  function FieldPair(f: Field): (string, Value)
    requires f.heading.Some?
  {
    (Label(f.heading.value), Str(Text.Trim(f.following)))
  }

  /** The tally mapping of one flex row: a dict, or `MissingText` when a field has no label. */
  function TallyOf(fs: seq<Field>): (r: Result<Value, Error>)
    ensures r.Ok? <==> Labelled(fs)
    ensures r.Ok? ==> r.value.Dict?
    ensures r.Err? ==> r.error == MissingText
  {
    assert FoldFrom(TallyField, [], fs).Ok? <==> Labelled(fs) by {
      if Labelled(fs) {
        TallyFoldOk([], fs);
      } else {
        TallyFoldErr([], fs);
      }
    }
    assert FoldFrom(TallyField, [], fs).Err? ==> FoldFrom(TallyField, [], fs).error == MissingText by {
      if !Labelled(fs) {
        TallyFoldErr([], fs);
      }
    }
    var ps :- FoldFrom(TallyField, [], fs);
    Ok(Dict(ps))
  }

  /**
   * One tally mapping per flex row after the first. The rows read exactly
   * when every field is labelled; otherwise the error is MissingText.
   */
  function Tallies(rows: seq<seq<Field>>): (r: Result<seq<Value>, Error>)
    ensures r.Ok? <==> TallyRowsLabelled(rows)
    ensures r.Err? ==> r.error == MissingText
    ensures r.Ok? ==> |r.value| == |rows| && forall i :: 0 <= i < |rows| ==> TallyOf(rows[i]) == Ok(r.value[i])
  {
    CollectShape(TallyOf, rows);
    CollectFrom(TallyOf, [], rows)
  }

  /** The (label, value) pairs of a row whose labels are all present. */
  function FieldPairs(fs: seq<Field>): (ps: seq<(string, Value)>)
    requires Labelled(fs)
    ensures |ps| == |fs|
  {
    if fs == [] then []
    else [FieldPair(fs[0])] + FieldPairs(fs[1..])
  }

  // ---------------------------------------------------------------- related documents, allegations

  function DocumentRecord(d: DocLink): Value {
    Dict([("name", Str(d.text)), ("url", OfText(d.href))])
  }

  /** `related_documents`: none when the page says there are none. */
  function RelatedDocuments(page: Page): (docs: seq<Value>)
    ensures Text.Contains(page.text, RelatedDocumentsMissing) ==> docs == []
    ensures !Text.Contains(page.text, RelatedDocumentsMissing) ==>
      |docs| == |page.relatedDocuments|
      && forall i :: 0 <= i < |docs| ==> docs[i] == DocumentRecord(page.relatedDocuments[i])
  {
    if Text.Contains(page.text, RelatedDocumentsMissing) then []
    else
      seq(|page.relatedDocuments|, i requires 0 <= i < |page.relatedDocuments| => DocumentRecord(page.relatedDocuments[i]))
  }

  function AllegationRecord(a: Option<string>): Value {
    Dict([("allegation", OfText(a))])
  }

  /** `allegations`: none when the page says there are none. */
  function Allegations(page: Page): (xs: seq<Value>)
    ensures Text.Contains(page.text, AllegationsMissing) ==> xs == []
    ensures !Text.Contains(page.text, AllegationsMissing) ==>
      |xs| == |page.allegations|
      && forall i :: 0 <= i < |xs| ==> xs[i] == AllegationRecord(page.allegations[i])
  {
    if Text.Contains(page.text, AllegationsMissing) then []
    else seq(|page.allegations|, i requires 0 <= i < |page.allegations| => AllegationRecord(page.allegations[i]))
  }

  // ---------------------------------------------------------------- participants

  /** `text.strip() if text else ""`. */
  function Segment(t: Option<string>): string {
    match t
    case Some(s) => Text.Trim(s)
    case None => ""
  }

  /** The line-break segments of a participant cell. */
  function Segments(c: PCell): (segs: seq<string>)
    ensures |segs| == |c.breaks|
  {
    seq(|c.breaks|, i requires 0 <= i < |c.breaks| => Segment(c.breaks[i]))
  }

  /** The address cell's text nodes, each stripped. */
  function Lines(texts: seq<string>): (ls: seq<string>)
    ensures |ls| == |texts|
  {
    seq(|texts|, i requires 0 <= i < |texts| => Text.Trim(texts[i]))
  }

  /**
   * One participant: the bold text is the type, the first segment the
   * subtype, the other segments the participant, then address and phone.
   */
  function ParticipantOf(row: PRow): (r: Result<Value, Error>)
    ensures |row.cells| != 3 ==> r == Err(WrongCellCount)
    ensures r.Ok? ==> r.value.Dict? && Keys(r.value.entries) == ["type", "subtype", "participant", "address", "phone_number"]
    ensures r.Err? ==> r.error in {WrongCellCount, MissingText, MalformedParticipantRow}
  {
    if |row.cells| != 3 then Err(WrongCellCount)
    else
      var who, address, phone := row.cells[0], row.cells[1], row.cells[2];
      match who.bold
      case None => Err(MissingText)
      case Some(b) =>
        var segs := Segments(who);
        if segs == [] then Err(MalformedParticipantRow)
        else if phone.texts == [] then Err(MissingText)
        else
          Ok(Dict(ParticipantEntries(Text.Trim(b), segs[0], Text.Trim(Text.Join(segs[1..], "\n")),
                                     Text.Trim(Text.Join(Lines(address.texts), "\n")), Text.Trim(phone.texts[0]))))
  }

  /** The five fields of a participant record, in the order the spider sets them. */
  function ParticipantEntries(kind: string, subtype: string, participant: string, address: string, phone: string)
    : (es: seq<(string, Value)>)
    ensures Keys(es) == ["type", "subtype", "participant", "address", "phone_number"]
    ensures es[0] == ("type", Str(kind))
    ensures es[1] == ("subtype", Str(subtype)) && es[2] == ("participant", Str(participant))
    ensures es[3] == ("address", Str(address)) && es[4] == ("phone_number", Str(phone))
  {
    [("type", Str(kind)), ("subtype", Str(subtype)), ("participant", Str(participant)),
     ("address", Str(address)), ("phone_number", Str(phone))]
  }

  /** Assigning the five fields one after another gives the participant's entries. */
  lemma ParticipantEntriesInOrder(kind: string, subtype: string, participant: string, address: string, phone: string)
    ensures [("type", Str(kind))] + [("subtype", Str(subtype))] + [("participant", Str(participant))]
            + [("address", Str(address))] + [("phone_number", Str(phone))]
            == ParticipantEntries(kind, subtype, participant, address, phone)
  {
  }

  /** The rows the participants selector keeps: those without a `colspan=3` cell, in order. */
  function Listed(rows: seq<PRow>): (kept: seq<PRow>)
    ensures |kept| <= |rows|
    ensures forall i :: 0 <= i < |kept| ==> !kept[i].spansThree && kept[i] in rows
    decreases |rows|
  {
    if rows == [] then []
    else if rows[0].spansThree then Listed(rows[1..])
    else [rows[0]] + Listed(rows[1..])
  }

  /** `participants`: none when the page says there are none, otherwise one record per listed row. */
  function Participants(page: Page): (r: Result<seq<Value>, Error>)
    ensures Text.Contains(page.text, ParticipantsMissing) ==> r == Ok([])
    ensures !Text.Contains(page.text, ParticipantsMissing) && r.Ok? ==> |r.value| == |Listed(page.participantRows)|
  {
    if Text.Contains(page.text, ParticipantsMissing) then Ok([])
    else
      CollectShape(ParticipantOf, Listed(page.participantRows));
      CollectFrom(ParticipantOf, [], Listed(page.participantRows))
  }

  // ---------------------------------------------------------------- related cases, the record

  /** `related cases`: one record per link of the related-cases table, in order. */
  function RelatedCases(page: Page): (xs: seq<Value>)
    ensures |xs| == |page.relatedCases|
    ensures forall i :: 0 <= i < |xs| ==> xs[i] == Dict([("related_case_number", Str(page.relatedCases[i]))])
  {
    seq(|page.relatedCases|, i requires 0 <= i < |page.relatedCases| =>
      Dict([("related_case_number", Str(page.relatedCases[i]))]))
  }

  /**
   * The sections written after the basic details, in the order `parse_case`
   * writes them. Each section holds what was read for it: the later
   * assignments touch other keys.
   */
  function WithSections(basic: seq<(string, Value)>, tallies: seq<Value>, docs: seq<Value>,
                        allegations: seq<Value>, participants: seq<Value>, related: seq<Value>): (r: seq<(string, Value)>)
    ensures Lookup(r, "tallies") == Some(List(tallies))
    ensures Lookup(r, "related_documents") == Some(List(docs))
    ensures Lookup(r, "allegations") == Some(List(allegations))
    ensures Lookup(r, "participants") == Some(List(participants))
    ensures Lookup(r, "related cases") == Some(List(related))
  {
    var d1 := Put(basic, "tallies", List(tallies));
    var d2 := Put(d1, "related_documents", List(docs));
    var d3 := Put(d2, "allegations", List(allegations));
    var d4 := Put(d3, "participants", List(participants));
    PutOthers(d1, "related_documents", List(docs), "tallies");
    PutOthers(d2, "allegations", List(allegations), "tallies");
    PutOthers(d3, "participants", List(participants), "tallies");
    PutOthers(d4, "related cases", List(related), "tallies");
    PutOthers(d2, "allegations", List(allegations), "related_documents");
    PutOthers(d3, "participants", List(participants), "related_documents");
    PutOthers(d4, "related cases", List(related), "related_documents");
    PutOthers(d3, "participants", List(participants), "allegations");
    PutOthers(d4, "related cases", List(related), "allegations");
    PutOthers(d4, "related cases", List(related), "participants");
    Put(d4, "related cases", List(related))
  }

  /** The record `parse_case` has built when it reaches the docket, or why it gave up. */
  function CaseRecord(page: Page): (r: Result<seq<(string, Value)>, Error>)
    ensures page.title.None? ==> r == Err(MissingTitle)
    ensures page.title.Some? && page.flexRows == [] ==> r == Err(NoFlexRows)
  {
    match page.title
    case None => Err(MissingTitle)
    case Some(t) =>
      if page.flexRows == [] then Err(NoFlexRows)
      else
        var basic :- FoldFrom(BasicField, [("name", Str(Text.Trim(t)))], page.flexRows[0]);
        var tallies :- Tallies(page.flexRows[1..]);
        var participants :- Participants(page);
        Ok(WithSections(basic, tallies, RelatedDocuments(page), Allegations(page), participants, RelatedCases(page)))
  }

  // ---------------------------------------------------------------- the record is a dict

  /** Writing one basic-details label keeps the record a dict with a text case number. */
  lemma BasicFieldValid(acc: seq<(string, Value)>, f: Field)
    requires IsDict(acc) && TextCaseNumber(acc)
    ensures BasicField(acc, f).Ok? ==> IsDict(BasicField(acc, f).value) && TextCaseNumber(BasicField(acc, f).value)
  {
    if BasicField(acc, f).Ok? {
      var key, value := Label(f.heading.value), Text.Trim(f.following);
      var v := if key == CaseNumberKey then Str(value) else BasicField(acc, f).value[0].1;
      if key == CaseNumberKey {
        PutIsDict(acc, key, Str(value));
        PutKeepsTextCaseNumber(acc, key, Str(value));
        var c := CaseTypes.Classify(value).value;
        PutIsDict(Put(acc, key, Str(value)), "case_type", Str(CaseTypes.Name(c)));
        PutKeepsTextCaseNumber(Put(acc, key, Str(value)), "case_type", Str(CaseTypes.Name(c)));
      } else if key == "Date Filed" {
        var d := Dates.ParseDate(value).value;
        PutIsDict(acc, key, DateVal(d));
        PutKeepsTextCaseNumber(acc, key, DateVal(d));
      } else {
        PutIsDict(acc, key, Str(value));
        PutKeepsTextCaseNumber(acc, key, Str(value));
      }
    }
  }

  /** The whole first flex row keeps the record a dict with a text case number. */
  lemma {:induction false} BasicFieldsValid(acc: seq<(string, Value)>, fs: seq<Field>)
    requires IsDict(acc) && TextCaseNumber(acc)
    ensures FoldFrom(BasicField, acc, fs).Ok? ==>
      IsDict(FoldFrom(BasicField, acc, fs).value) && TextCaseNumber(FoldFrom(BasicField, acc, fs).value)
    decreases |fs|
  {
    if fs != [] {
      BasicFieldValid(acc, fs[0]);
      if BasicField(acc, fs[0]).Ok? {
        BasicFieldsValid(BasicField(acc, fs[0]).value, fs[1..]);
      }
    }
  }

  /** Writing the sections keeps the record a dict with a text case number. */
  lemma WithSectionsValid(basic: seq<(string, Value)>, tallies: seq<Value>, docs: seq<Value>,
                          allegations: seq<Value>, participants: seq<Value>, related: seq<Value>)
    requires IsDict(basic) && TextCaseNumber(basic)
    ensures var d := WithSections(basic, tallies, docs, allegations, participants, related);
      IsDict(d) && TextCaseNumber(d)
  {
    var d1 := Put(basic, "tallies", List(tallies));
    PutIsDict(basic, "tallies", List(tallies));
    PutKeepsTextCaseNumber(basic, "tallies", List(tallies));
    var d2 := Put(d1, "related_documents", List(docs));
    PutIsDict(d1, "related_documents", List(docs));
    PutKeepsTextCaseNumber(d1, "related_documents", List(docs));
    var d3 := Put(d2, "allegations", List(allegations));
    PutIsDict(d2, "allegations", List(allegations));
    PutKeepsTextCaseNumber(d2, "allegations", List(allegations));
    var d4 := Put(d3, "participants", List(participants));
    PutIsDict(d3, "participants", List(participants));
    PutKeepsTextCaseNumber(d3, "participants", List(participants));
    PutIsDict(d4, "related cases", List(related));
    PutKeepsTextCaseNumber(d4, "related cases", List(related));
  }

  /** The record `parse_case` builds is a dict, and its case number, if any, is text. */
  lemma CaseRecordValid(page: Page)
    ensures CaseRecord(page).Ok? ==> IsDict(CaseRecord(page).value) && TextCaseNumber(CaseRecord(page).value)
  {
    if CaseRecord(page).Ok? {
      var start := [("name", Str(Text.Trim(page.title.value)))];
      assert IsDict(start) && TextCaseNumber(start);
      BasicFieldsValid(start, page.flexRows[0]);
      var basic := FoldFrom(BasicField, start, page.flexRows[0]).value;
      WithSectionsValid(basic, Tallies(page.flexRows[1..]).value, RelatedDocuments(page), Allegations(page),
                        Participants(page).value, RelatedCases(page));
    }
  }

  // ---------------------------------------------------------------- the sections

  /**
   * A built record holds one tally mapping per flex row after the first,
   * the related documents, allegations and participants read from the page,
   * and one related-case record per related-case link.
   */
  lemma CaseRecordSections(page: Page)
    requires CaseRecord(page).Ok?
    ensures page.flexRows != [] && Tallies(page.flexRows[1..]).Ok? && Participants(page).Ok?
    ensures |Tallies(page.flexRows[1..]).value| == |page.flexRows| - 1
    ensures var r := CaseRecord(page).value;
      && Lookup(r, "tallies") == Some(List(Tallies(page.flexRows[1..]).value))
      && Lookup(r, "related_documents") == Some(List(RelatedDocuments(page)))
      && Lookup(r, "allegations") == Some(List(Allegations(page)))
      && Lookup(r, "participants") == Some(List(Participants(page).value))
      && Lookup(r, "related cases") == Some(List(RelatedCases(page)))
  {
  }

  /** A section whose "… data is not available" sentinel is on the page is the empty list. */
  lemma SentinelSectionsEmpty(page: Page)
    requires CaseRecord(page).Ok?
    ensures var r := CaseRecord(page).value;
      && (Text.Contains(page.text, RelatedDocumentsMissing) ==> Lookup(r, "related_documents") == Some(List([])))
      && (Text.Contains(page.text, AllegationsMissing) ==> Lookup(r, "allegations") == Some(List([])))
      && (Text.Contains(page.text, ParticipantsMissing) ==> Lookup(r, "participants") == Some(List([])))
  {
    CaseRecordSections(page);
  }

  // ---------------------------------------------------------------- tallies

  /** Every field of the row has a label. */
  predicate Labelled(fs: seq<Field>) {
    forall i :: 0 <= i < |fs| ==> fs[i].heading.Some?
  }

  /** Writing a row's labelled fields one by one is updating with its (label, value) pairs. */
  lemma {:induction false} TallyFoldOk(acc: seq<(string, Value)>, fs: seq<Field>)
    requires Labelled(fs)
    ensures FoldFrom(TallyField, acc, fs) == Ok(UpdateWith(acc, FieldPairs(fs)))
    decreases |fs|
  {
    if fs == [] {
      assert FieldPairs(fs) == [];
    } else {
      var rest := fs[1..];
      assert Labelled(rest) by {
        forall i | 0 <= i < |rest| ensures rest[i].heading.Some? {
          assert rest[i] == fs[i + 1];
        }
      }
      var p := FieldPair(fs[0]);
      TallyFoldOk(Put(acc, p.0, p.1), rest);
      UpdateCons(acc, p, FieldPairs(rest));
    }
  }

  /** A field without a label makes the row fail. */
  lemma {:induction false} TallyFoldErr(acc: seq<(string, Value)>, fs: seq<Field>)
    requires !Labelled(fs)
    ensures FoldFrom(TallyField, acc, fs) == Err(MissingText)
    decreases |fs|
  {
    if fs[0].heading.Some? {
      var rest := fs[1..];
      assert !Labelled(rest) by {
        var i :| 0 <= i < |fs| && fs[i].heading.None?;
        assert rest[i - 1] == fs[i];
      }
      TallyFoldErr(Put(acc, FieldPair(fs[0]).0, FieldPair(fs[0]).1), rest);
    }
  }

  /**
   * A tally row fails exactly when one of its fields has no label; otherwise
   * its mapping is the dict of its (label, stripped value) pairs, the last
   * field winning on a repeated label.
   */
  lemma TallyOfPairs(fs: seq<Field>)
    ensures TallyOf(fs).Ok? <==> Labelled(fs)
    ensures TallyOf(fs).Err? ==> TallyOf(fs).error == MissingText
    ensures TallyOf(fs).Ok? ==> TallyOf(fs).value == Dict(FromPairs(FieldPairs(fs)))
  {
    if Labelled(fs) {
      TallyFoldOk([], fs);
    } else {
      TallyFoldErr([], fs);
    }
  }

  // ---------------------------------------------------------------- basic details

  /** A basic-details field either fails with its error or makes its assignments, in order. */
  lemma BasicFieldWrites(acc: seq<(string, Value)>, f: Field)
    ensures !Writable(f) ==> BasicField(acc, f) == Err(WriteError(f))
    ensures Writable(f) ==> BasicField(acc, f) == Ok(UpdateWith(acc, Writes(f)))
  {
    if Writable(f) {
      var key, value := Label(f.heading.value), Text.Trim(f.following);
      if key == CaseNumberKey {
        var c := CaseTypes.Classify(value).value;
        UpdateTwo(acc, (key, Str(value)), ("case_type", Str(CaseTypes.Name(c))));
      } else if key == "Date Filed" {
        UpdateOne(acc, (key, DateVal(Dates.ParseDate(value).value)));
      } else {
        UpdateOne(acc, (key, Str(value)));
      }
    }
  }

  /** A writable row updates the record with its assignments, field after field. */
  lemma {:induction false} BasicFoldOk(acc: seq<(string, Value)>, fs: seq<Field>)
    requires AllWritable(fs)
    ensures FoldFrom(BasicField, acc, fs) == Ok(UpdateWith(acc, RowWrites(fs)))
    decreases |fs|
  {
    if fs == [] {
      assert RowWrites(fs) == [];
    } else {
      var rest := fs[1..];
      assert AllWritable(rest) by {
        forall i | 0 <= i < |rest| ensures Writable(rest[i]) {
          assert rest[i] == fs[i + 1];
        }
      }
      BasicFieldWrites(acc, fs[0]);
      BasicFoldOk(UpdateWith(acc, Writes(fs[0])), rest);
      UpdateAppend(acc, Writes(fs[0]), RowWrites(rest));
    }
  }

  /** A row stops at its first field that cannot be written, with that field's error. */
  lemma {:induction false} BasicFoldErr(acc: seq<(string, Value)>, fs: seq<Field>, i: nat)
    requires FirstUnwritable(fs, i)
    ensures FoldFrom(BasicField, acc, fs) == Err(WriteError(fs[i]))
    decreases |fs|
  {
    if i == 0 {
      BasicFieldWrites(acc, fs[0]);
    } else {
      assert Writable(fs[0]);
      var rest := fs[1..];
      assert FirstUnwritable(rest, i - 1) by {
        assert rest[i - 1] == fs[i];
        forall j | 0 <= j < i - 1 ensures Writable(rest[j]) {
          assert rest[j] == fs[j + 1];
        }
      }
      BasicFoldErr(BasicField(acc, fs[0]).value, rest, i - 1);
    }
  }

  /** A row that is not all writable has a first field that is not. */
  lemma {:induction false} SomeFirstUnwritable(fs: seq<Field>)
    requires !AllWritable(fs)
    ensures exists i :: FirstUnwritable(fs, i)
    decreases |fs|
  {
    if Writable(fs[0]) {
      var rest := fs[1..];
      assert !AllWritable(rest) by {
        var k :| 0 <= k < |fs| && !Writable(fs[k]);
        assert rest[k - 1] == fs[k];
      }
      SomeFirstUnwritable(rest);
      var i :| FirstUnwritable(rest, i);
      assert rest[i] == fs[i + 1];
      forall j | 0 <= j < i + 1 ensures Writable(fs[j]) {
        if j > 0 {
          assert fs[j] == rest[j - 1];
        }
      }
      assert FirstUnwritable(fs, i + 1);
    } else {
      assert FirstUnwritable(fs, 0);
    }
  }

  /**
   * The first flex row, written label by label: it fails exactly when some
   * field cannot be written, with the error of the first such field;
   * otherwise the record is updated with the row's assignments in order
   * (each label with its stripped text, a case number followed by its
   * type, a filing date as the date its own text parses to), so the last
   * write to a label wins.
   */
  lemma BasicFieldsOfPairs(acc: seq<(string, Value)>, fs: seq<Field>)
    ensures FoldFrom(BasicField, acc, fs).Ok? <==> AllWritable(fs)
    ensures AllWritable(fs) ==> FoldFrom(BasicField, acc, fs) == Ok(UpdateWith(acc, RowWrites(fs)))
    ensures forall i :: FirstUnwritable(fs, i) ==> FoldFrom(BasicField, acc, fs) == Err(WriteError(fs[i]))
  {
    if AllWritable(fs) {
      BasicFoldOk(acc, fs);
    } else {
      SomeFirstUnwritable(fs);
    }
    forall i | FirstUnwritable(fs, i) ensures FoldFrom(BasicField, acc, fs) == Err(WriteError(fs[i])) {
      BasicFoldErr(acc, fs, i);
    }
  }

  /** The keys `parse_case` writes after the basic details. */
  const SectionKeys: set<string> := {"tallies", "related_documents", "allegations", "participants", "related cases"}

  /** Writing the sections leaves every other key as it was. */
  lemma WithSectionsOthers(basic: seq<(string, Value)>, tallies: seq<Value>, docs: seq<Value>,
                           allegations: seq<Value>, participants: seq<Value>, related: seq<Value>, k: string)
    requires k !in SectionKeys
    ensures Lookup(WithSections(basic, tallies, docs, allegations, participants, related), k) == Lookup(basic, k)
  {
    var d1 := Put(basic, "tallies", List(tallies));
    var d2 := Put(d1, "related_documents", List(docs));
    var d3 := Put(d2, "allegations", List(allegations));
    var d4 := Put(d3, "participants", List(participants));
    PutOthers(basic, "tallies", List(tallies), k);
    PutOthers(d1, "related_documents", List(docs), k);
    PutOthers(d2, "allegations", List(allegations), k);
    PutOthers(d3, "participants", List(participants), k);
    PutOthers(d4, "related cases", List(related), k);
  }

  /**
   * A titled page with flex rows fails at the first basic-details field
   * that cannot be written, with that field's error. A built record holds,
   * under every key but the sections, what the title and the basic-details
   * assignments left there.
   */
  lemma CaseRecordBasic(page: Page)
    requires page.title.Some? && page.flexRows != []
    ensures forall i :: FirstUnwritable(page.flexRows[0], i) ==> CaseRecord(page) == Err(WriteError(page.flexRows[0][i]))
    ensures CaseRecord(page).Ok? ==>
      && AllWritable(page.flexRows[0])
      && forall k :: k !in SectionKeys ==>
           Lookup(CaseRecord(page).value, k)
           == Lookup(UpdateWith([("name", Str(Text.Trim(page.title.value)))], RowWrites(page.flexRows[0])), k)
  {
    var start := [("name", Str(Text.Trim(page.title.value)))];
    BasicFieldsOfPairs(start, page.flexRows[0]);
    if CaseRecord(page).Ok? {
      var basic := FoldFrom(BasicField, start, page.flexRows[0]).value;
      forall k | k !in SectionKeys
        ensures Lookup(CaseRecord(page).value, k) == Lookup(basic, k)
      {
        WithSectionsOthers(basic, Tallies(page.flexRows[1..]).value, RelatedDocuments(page), Allegations(page),
                           Participants(page).value, RelatedCases(page), k);
      }
    }
  }

  /**
   * A page's record is built exactly when it has a title and flex rows, its
   * basic-details row can be written, every tally row is labelled and every
   * listed participant row is readable. Past the basic details, an
   * unlabelled tally gives MissingText, and otherwise the first unreadable
   * participant row gives its own error.
   */
  lemma CaseRecordOkIff(page: Page)
    ensures CaseRecord(page).Ok? <==>
      && page.title.Some? && page.flexRows != [] && AllWritable(page.flexRows[0])
      && TallyRowsLabelled(page.flexRows[1..]) && ParticipantsReadable(page)
    ensures (page.title.Some? && page.flexRows != [] && AllWritable(page.flexRows[0])
             && !TallyRowsLabelled(page.flexRows[1..])) ==> CaseRecord(page) == Err(MissingText)
    ensures (page.title.Some? && page.flexRows != [] && AllWritable(page.flexRows[0])
             && TallyRowsLabelled(page.flexRows[1..]) && !ParticipantsReadable(page)) ==>
      var rows := Listed(page.participantRows);
      exists i :: FirstFailure(ParticipantOf, rows, i) && CaseRecord(page) == Err(ParticipantOf(rows[i]).error)
  {
    if page.title.Some? && page.flexRows != [] {
      BasicFieldsOfPairs([("name", Str(Text.Trim(page.title.value)))], page.flexRows[0]);
      ParticipantsOkIff(page);
      if AllWritable(page.flexRows[0]) && TallyRowsLabelled(page.flexRows[1..]) && !ParticipantsReadable(page) {
        var rows := Listed(page.participantRows);
        var i := FirstError(ParticipantOf, rows);
        assert CaseRecord(page) == Err(ParticipantOf(rows[i]).error);
        assert exists j :: FirstFailure(ParticipantOf, rows, j) && CaseRecord(page) == Err(ParticipantOf(rows[j]).error);
      }
    }
  }

  // ---------------------------------------------------------------- participants

  /** A row is listed exactly when it is in the table and has no `colspan=3` cell. */
  lemma {:induction false} ListedIff(rows: seq<PRow>, row: PRow)
    ensures row in Listed(rows) <==> row in rows && !row.spansThree
    decreases |rows|
  {
    if rows != [] {
      ListedIff(rows[1..], row);
      assert rows == [rows[0]] + rows[1..];
    }
  }

  /** Listing distributes over concatenation: kept rows stay in document order, each once. */
  lemma {:induction false} ListedAppend(a: seq<PRow>, b: seq<PRow>)
    ensures Listed(a + b) == Listed(a) + Listed(b)
    decreases |a|
  {
    if a != [] {
      assert (a + b)[0] == a[0];
      assert (a + b)[1..] == a[1..] + b;
      ListedAppend(a[1..], b);
    } else {
      assert a + b == b;
    }
  }

  /** A single row is kept exactly when it has no `colspan=3` cell. */
  lemma ListedSingle(row: PRow)
    ensures Listed([row]) == if row.spansThree then [] else [row]
  {
    assert [row][1..] == [];
  }

  /** A participant row the spider can read: three cells, a bold type, a line break and a phone text. */
  predicate Readable(row: PRow) {
    |row.cells| == 3 && row.cells[0].bold.Some? && row.cells[0].breaks != [] && row.cells[2].texts != []
  }

  /**
   * A participant row is read when it has three cells, a bold type, at
   * least one line break and a phone text; its record then has the five
   * keys in order: the stripped bold text as type, the first segment as
   * subtype, the remaining segments joined by newlines as the participant,
   * the address cell's stripped lines joined by newlines, and the first
   * phone text, each stripped.
   */
  lemma ParticipantShape(row: PRow)
    ensures ParticipantOf(row).Ok? <==> Readable(row)
    ensures ParticipantOf(row).Ok? ==>
      var es := ParticipantOf(row).value.entries;
      var segs := Segments(row.cells[0]);
      && Keys(es) == ["type", "subtype", "participant", "address", "phone_number"]
      && es[0] == ("type", Str(Text.Trim(row.cells[0].bold.value)))
      && es[1] == ("subtype", Str(segs[0]))
      && es[2] == ("participant", Str(Text.Trim(Text.Join(segs[1..], "\n"))))
      && es[3] == ("address", Str(Text.Trim(Text.Join(Lines(row.cells[1].texts), "\n"))))
      && es[4] == ("phone_number", Str(Text.Trim(row.cells[2].texts[0])))
  {
    if |row.cells| == 3 && row.cells[0].bold.Some? {
      assert Segments(row.cells[0]) == [] <==> row.cells[0].breaks == [];
    }
  }

  /** Every listed participant row is readable, unless the page says there are none. */
  predicate ParticipantsReadable(page: Page) {
    || Text.Contains(page.text, ParticipantsMissing)
    || forall row :: row in page.participantRows && !row.spansThree ==> Readable(row)
  }

  /**
   * The participants read exactly when every listed row is readable or the
   * page says there are none; otherwise the error is the first unreadable
   * listed row's.
   */
  lemma ParticipantsOkIff(page: Page)
    ensures Participants(page).Ok? <==> ParticipantsReadable(page)
    ensures Participants(page).Err? ==>
      var rows := Listed(page.participantRows);
      exists i :: FirstFailure(ParticipantOf, rows, i) && Participants(page).error == ParticipantOf(rows[i]).error
  {
    if !Text.Contains(page.text, ParticipantsMissing) {
      var rows := Listed(page.participantRows);
      ListedReadable(page.participantRows);
      if Participants(page).Err? {
        var i := FirstError(ParticipantOf, rows);
        assert Participants(page).error == ParticipantOf(rows[i]).error;
        assert exists j :: FirstFailure(ParticipantOf, rows, j) && Participants(page).error == ParticipantOf(rows[j]).error;
      }
    }
  }

  /** The listed rows all read exactly when every row without a `colspan=3` cell is readable. */
  lemma ListedReadable(rows: seq<PRow>)
    ensures CollectFrom(ParticipantOf, [], Listed(rows)).Ok? <==>
      forall row :: row in rows && !row.spansThree ==> Readable(row)
  {
    var xs := Listed(rows);
    CollectOk(ParticipantOf, [], xs);
    if forall i :: 0 <= i < |xs| ==> ParticipantOf(xs[i]).Ok? {
      forall row | row in rows && !row.spansThree ensures Readable(row) {
        ListedIff(rows, row);
        var i :| 0 <= i < |xs| && xs[i] == row;
        ParticipantShape(row);
      }
    } else {
      var i :| 0 <= i < |xs| && ParticipantOf(xs[i]).Err?;
      ListedIff(rows, xs[i]);
      ParticipantShape(xs[i]);
    }
  }

  /** Unless the page says there are none, there is one participant record per listed row, in order. */
  lemma ParticipantsShape(page: Page)
    requires Participants(page).Ok?
    ensures Text.Contains(page.text, ParticipantsMissing) ==> Participants(page).value == []
    ensures !Text.Contains(page.text, ParticipantsMissing) ==>
      var rows := Listed(page.participantRows);
      && |Participants(page).value| == |rows|
      && forall i :: 0 <= i < |rows| ==> ParticipantOf(rows[i]) == Ok(Participants(page).value[i])
  {
    CollectShape(ParticipantOf, Listed(page.participantRows));
  }

  // ---------------------------------------------------------------- case type and filing date

  /**
   * What the basic details promise about themselves: a case number comes
   * with the case type it carries, and a filing date is a real date.
   */
  predicate Consistent(ps: seq<(string, Value)>) {
    && (match Lookup(ps, CaseNumberKey)
        case None => true
        case Some(v) =>
          v.Str? && CaseTypes.Classify(v.s).Ok?
          && Lookup(ps, "case_type") == Some(Str(CaseTypes.Name(CaseTypes.Classify(v.s).value))))
    && (match Lookup(ps, "Date Filed")
        case None => true
        case Some(v) => v.DateVal? && Dates.Valid(v.date))
  }

  /** An assignment to a key other than those three keeps the record consistent. */
  lemma PutKeepsConsistent(ps: seq<(string, Value)>, k: string, v: Value)
    requires Consistent(ps)
    requires k != CaseNumberKey && k != "case_type" && k != "Date Filed"
    ensures Consistent(Put(ps, k, v))
  {
    PutOthers(ps, k, v, CaseNumberKey);
    PutOthers(ps, k, v, "case_type");
    PutOthers(ps, k, v, "Date Filed");
  }

  /**
   * A basic-details label other than `case_type` keeps the record
   * consistent; a case number is stored as its stripped text and a filing
   * date as the date its own stripped text parses to.
   */
  lemma BasicFieldConsistent(acc: seq<(string, Value)>, f: Field)
    requires Consistent(acc)
    requires f.heading.Some? ==> Label(f.heading.value) != "case_type"
    ensures BasicField(acc, f).Ok? ==> Consistent(BasicField(acc, f).value)
    ensures BasicField(acc, f).Ok? && Label(f.heading.value) == CaseNumberKey ==>
      Lookup(BasicField(acc, f).value, CaseNumberKey) == Some(Str(Text.Trim(f.following)))
    ensures BasicField(acc, f).Ok? && Label(f.heading.value) == "Date Filed" ==>
      Lookup(BasicField(acc, f).value, "Date Filed") == Some(DateVal(Dates.ParseDate(Text.Trim(f.following)).value))
  {
    if BasicField(acc, f).Ok? {
      var key, value := Label(f.heading.value), Text.Trim(f.following);
      if key == CaseNumberKey {
        var c := CaseTypes.Classify(value).value;
        var a1 := Put(acc, key, Str(value));
        PutOthers(acc, key, Str(value), "Date Filed");
        PutOthers(a1, "case_type", Str(CaseTypes.Name(c)), "Date Filed");
        PutOthers(a1, "case_type", Str(CaseTypes.Name(c)), CaseNumberKey);
      } else if key == "Date Filed" {
        var d := Dates.ParseDate(value).value;
        PutOthers(acc, key, DateVal(d), CaseNumberKey);
        PutOthers(acc, key, DateVal(d), "case_type");
      } else {
        PutKeepsConsistent(acc, key, Str(value));
      }
    }
  }

  /** No label of the row reads `case_type`. */
  predicate NoCaseTypeLabel(fs: seq<Field>) {
    forall i :: 0 <= i < |fs| && fs[i].heading.Some? ==> Label(fs[i].heading.value) != "case_type"
  }

  lemma {:induction false} BasicFieldsConsistent(acc: seq<(string, Value)>, fs: seq<Field>)
    requires Consistent(acc) && NoCaseTypeLabel(fs)
    ensures FoldFrom(BasicField, acc, fs).Ok? ==> Consistent(FoldFrom(BasicField, acc, fs).value)
    decreases |fs|
  {
    if fs != [] {
      BasicFieldConsistent(acc, fs[0]);
      if BasicField(acc, fs[0]).Ok? {
        assert NoCaseTypeLabel(fs[1..]) by {
          forall i | 0 <= i < |fs[1..]| && fs[1..][i].heading.Some?
            ensures Label(fs[1..][i].heading.value) != "case_type"
          {
            assert fs[1..][i] == fs[i + 1];
          }
        }
        BasicFieldsConsistent(BasicField(acc, fs[0]).value, fs[1..]);
      }
    }
  }

  /**
   * In a built record the case type is the one its case number carries,
   * and the filing date is a valid date (unless the page itself has a
   * label reading `case_type`, which would overwrite the case type).
   */
  lemma CaseRecordConsistent(page: Page)
    requires CaseRecord(page).Ok?
    requires page.flexRows != [] && NoCaseTypeLabel(page.flexRows[0])
    ensures Consistent(CaseRecord(page).value)
  {
    var start := [("name", Str(Text.Trim(page.title.value)))];
    assert Keys(start) == ["name"];
    BasicFieldsConsistent(start, page.flexRows[0]);
    var basic := FoldFrom(BasicField, start, page.flexRows[0]).value;
    var d1 := Put(basic, "tallies", List(Tallies(page.flexRows[1..]).value));
    var d2 := Put(d1, "related_documents", List(RelatedDocuments(page)));
    var d3 := Put(d2, "allegations", List(Allegations(page)));
    var d4 := Put(d3, "participants", List(Participants(page).value));
    PutKeepsConsistent(basic, "tallies", List(Tallies(page.flexRows[1..]).value));
    PutKeepsConsistent(d1, "related_documents", List(RelatedDocuments(page)));
    PutKeepsConsistent(d2, "allegations", List(Allegations(page)));
    PutKeepsConsistent(d3, "participants", List(Participants(page).value));
    PutKeepsConsistent(d4, "related cases", List(RelatedCases(page)));
  }
}
