/**
 * `_parse_docket_table` (nlrb/spiders/nlrb.py): every row of a docket table
 * becomes one entry with a date (null for "pre 2010"), a document title,
 * the document's link when it has one, and the issuing or filing party.
 */
module Docket {
  import opened Wrappers
  import opened Errors
  import opened Values
  import opened Assoc
  import Text
  import Dates
  import opened Collect

  /** The first anchor of a document cell: its text, if any, and its `href`, if any. */
  datatype Link = Link(text: Option<string>, href: Option<string>)

  /** A table cell: its first direct text node, if any, and its first anchor, if any. */
  datatype Cell = Cell(text: Option<string>, link: Option<Link>)

  /** A table row: the cells in document order. */
  type Row = seq<Cell>

  /** The date text the docket shows for activity older than its records. */
  const PreTen: string := "pre 2010"

  /** The `"date"` field: null for "pre 2010", otherwise the parsed date. */
  function DateValue(cell: Cell): (r: Result<Value, Error>)
    ensures cell.text.None? ==> r == Err(MissingText)
    ensures cell.text.Some? ==> (r == Ok(Null) <==> Text.Trim(cell.text.value) == PreTen)
    ensures r.Ok? && r.value != Null ==> r.value.DateVal? && Dates.Valid(r.value.date)
    ensures r.Err? ==> r.error in {MissingText, DateParseError}
  {
    match cell.text
    case None => Err(MissingText)
    case Some(t) =>
      var s := Text.Trim(t);
      if s == PreTen then Ok(Null)
      else
        match Dates.ParseDate(s)
        case Some(d) => Ok(DateVal(d))
        case None => Err(DateParseError)
  }

  /** The `"document"` field, and `"url"` when the document is a link. */
  function DocumentPairs(cell: Cell): (r: Result<seq<(string, Value)>, Error>)
    ensures r.Ok? ==> Keys(r.value) == ["document"] + (if cell.link.Some? then ["url"] else [])
  {
    match cell.link
    case Some(l) =>
      (match l.text
       case None => Err(MissingText)
       case Some(t) => Ok([("document", Str(Text.Trim(t))), ("url", OfText(l.href))]))
    case None =>
      match cell.text
      case None => Err(MissingText)
      case Some(t) => Ok([("document", Str(Text.Strip(Text.Trim(t), {'*'})))])
  }

  /** The `"issued_by/filed_by"` field: null for an absent or empty text. */
  function PartyValue(cell: Cell): (v: Value)
    ensures v == Null <==> cell.text.None? || cell.text.value == ""
    ensures v != Null ==> v == Str(Text.Trim(cell.text.value))
  {
    match cell.text
    case Some(t) => if t == "" then Null else Str(Text.Trim(t))
    case None => Null
  }

  /**
   * The docket entry one row yields: a dict, or the failed unpacking into
   * three cells, a missing text, or a date that does not parse.
   */
  function EntryOf(row: Row): (r: Result<Value, Error>)
    ensures |row| != 3 ==> r == Err(WrongCellCount)
    ensures r.Ok? ==> r.value.Dict?
    ensures r.Err? ==> r.error in {WrongCellCount, MissingText, DateParseError}
  {
    if |row| != 3 then Err(WrongCellCount)
    else
      var date :- DateValue(row[0]);
      var doc :- DocumentPairs(row[1]);
      Ok(Dict([("date", date)] + doc + [("issued_by/filed_by", PartyValue(row[2]))]))
  }

  /** The docket a table yields: every row's entry, in row order, or the first row's failure. */
  function DocketTable(rows: seq<Row>): (r: Result<seq<Value>, Error>)
    ensures r.Ok? ==> |r.value| == |rows|
  {
    CollectShape(EntryOf, rows);
    CollectFrom(EntryOf, [], rows)
  }

  /**
   * `_parse_docket_table(docket_table)`: one pass over the rows, each
   * entry appended to the docket in row order.
   */
  method ParseDocketTable(rows: seq<Row>) returns (r: Result<seq<Value>, Error>)
    ensures r == DocketTable(rows)
  {
    var docket: seq<Value> := [];
    for i := 0 to |rows|
      invariant CollectFrom(EntryOf, docket, rows[i..]) == DocketTable(rows)
    {
      assert rows[i..][1..] == rows[i + 1..];
      var entry := FillEntry(rows[i]);
      if entry.Err? {
        return Err(entry.error);
      }
      docket := docket + [entry.value];
    }
    return Ok(docket);
  }

  /**
   * The body of the row loop: the entry of one row, read field by field:
   * the date, then the document title and link, then the party.
   */
  method FillEntry(row: Row) returns (r: Result<Value, Error>)
    ensures r == EntryOf(row)
  {
    if |row| != 3 {
      return Err(WrongCellCount);
    }
    var date, document, party := row[0], row[1], row[2];
    if date.text.None? {
      return Err(MissingText);
    }
    var dateStr := Text.Trim(date.text.value);
    var dateValue: Value;
    if dateStr == PreTen {
      dateValue := Null;
    } else {
      var d := Dates.ParseDate(dateStr);
      if d.None? {
        return Err(DateParseError);
      }
      dateValue := DateVal(d.value);
    }
    assert DateValue(date) == Ok(dateValue);
    var doc: seq<(string, Value)>;
    if document.link.Some? {
      var link := document.link.value;
      if link.text.None? {
        return Err(MissingText);
      }
      doc := [("document", Str(Text.Trim(link.text.value))), ("url", OfText(link.href))];
      assert DocumentPairs(document) == Ok(doc);
    } else {
      if document.text.None? {
        return Err(MissingText);
      }
      doc := [("document", Str(Text.Strip(Text.Trim(document.text.value), {'*'})))];
      assert DocumentPairs(document) == Ok(doc);
    }
    var partyValue := Null;
    if party.text.Some? && party.text.value != "" {
      partyValue := Str(Text.Trim(party.text.value));
    }
    assert partyValue == PartyValue(party);
    return Ok(Dict([("date", dateValue)] + doc + [("issued_by/filed_by", partyValue)]));
  }

  /** A row fails exactly when it lacks three cells, a date, a parsable date or a document title. */
  lemma EntryOkIff(row: Row)
    ensures EntryOf(row).Ok? <==>
      |row| == 3
      && row[0].text.Some?
      && (Text.Trim(row[0].text.value) == PreTen || Dates.ParseDate(Text.Trim(row[0].text.value)).Some?)
      && (if row[1].link.Some? then row[1].link.value.text.Some? else row[1].text.Some?)
  {
  }

  /** A parsed row's entry: the date pair, the document pairs and the party pair, in that order. */
  lemma EntryParts(row: Row)
    requires EntryOf(row).Ok?
    ensures |row| == 3 && DateValue(row[0]).Ok? && DocumentPairs(row[1]).Ok?
    ensures EntryOf(row) == Ok(Dict([("date", DateValue(row[0]).value)] + DocumentPairs(row[1]).value
                                    + [("issued_by/filed_by", PartyValue(row[2]))]))
  {
  }

  /**
   * The fields of a parsed row: `date`, `document`, then `url` exactly when
   * the document cell has a link, then `issued_by/filed_by`, no key twice.
   */
  lemma EntryKeys(row: Row)
    requires EntryOf(row).Ok?
    ensures EntryOf(row).value.Dict?
    ensures var es := EntryOf(row).value.entries;
      IsDict(es)
      && Keys(es) == ["date", "document"] + (if row[1].link.Some? then ["url"] else []) + ["issued_by/filed_by"]
  {
    EntryParts(row);
    EntryPairsKeys(DateValue(row[0]).value, DocumentPairs(row[1]).value, PartyValue(row[2]), row[1].link.Some?);
  }

  lemma EntryPairsKeys(date: Value, doc: seq<(string, Value)>, party: Value, withUrl: bool)
    requires Keys(doc) == ["document"] + (if withUrl then ["url"] else [])
    ensures var ks := Keys([("date", date)] + doc + [("issued_by/filed_by", party)]);
      ks == ["date", "document"] + (if withUrl then ["url"] else []) + ["issued_by/filed_by"]
      && Distinct(ks)
  {
    var first, last := [("date", date)], [("issued_by/filed_by", party)];
    KeysAppend(first, doc);
    KeysAppend(first + doc, last);
    assert Keys(first) == ["date"];
    assert Keys(last) == ["issued_by/filed_by"];
    EntryKeysDistinct(withUrl);
  }

  lemma EntryKeysDistinct(withUrl: bool)
    ensures Distinct(["date", "document"] + (if withUrl then ["url"] else []) + ["issued_by/filed_by"])
  {
    var ks := ["date", "document"] + (if withUrl then ["url"] else []) + ["issued_by/filed_by"];
    forall i, j | 0 <= i < j < |ks| ensures ks[i] != ks[j] {
      assert |ks[i]| != |ks[j]|;
    }
  }

  /**
   * The date of a parsed row is null exactly for the text "pre 2010";
   * otherwise it is the date the text spells.
   */
  lemma EntryDate(row: Row)
    requires EntryOf(row).Ok?
    ensures var es := EntryOf(row).value.entries;
      var s := Text.Trim(row[0].text.value);
      (Lookup(es, "date") == Some(Null) <==> s == PreTen)
      && (s != PreTen ==> Dates.ParseDate(s).Some? && Lookup(es, "date") == Some(DateVal(Dates.ParseDate(s).value)))
  {
    EntryParts(row);
    EntryKeys(row);
    LookupAt(EntryOf(row).value.entries, 0);
  }

  /** A date written as the docket writes it, blanks around it or not, reads back as that date. */
  lemma EntryDateRoundTrip(row: Row, d: Dates.Date, pad: string)
    requires Dates.Valid(d) && EntryOf(row).Ok?
    requires forall k :: 0 <= k < |pad| ==> pad[k] in Text.Whitespace
    requires row[0].text == Some(pad + Dates.FormatDate(d) + pad)
    ensures Lookup(EntryOf(row).value.entries, "date") == Some(DateVal(d))
  {
    var f := Dates.FormatDate(d);
    assert f[0] !in Text.Whitespace && f[|f| - 1] !in Text.Whitespace by {
      DigitNotBlank(f[0]);
      DigitNotBlank(f[|f| - 1]);
    }
    TrimPadded(pad, f);
    Dates.ParseFormatDate(d);
    assert Text.Trim(row[0].text.value) != PreTen by {
      assert |f| != |PreTen|;
    }
    EntryDate(row);
  }

  lemma DigitNotBlank(c: char)
    requires Dates.IsDigit(c)
    ensures c !in Text.Whitespace
  {
  }

  /** Trimming a text with no blank at either end out of blank padding gives the text. */
  lemma TrimPadded(pad: string, f: string)
    requires forall k :: 0 <= k < |pad| ==> pad[k] in Text.Whitespace
    requires f != [] && f[0] !in Text.Whitespace && f[|f| - 1] !in Text.Whitespace
    ensures Text.Trim(pad + f + pad) == f
  {
    var s := pad + f + pad;
    var r := Text.Trim(s);
    Text.StripIsSlice(s, Text.Whitespace);
    var i :| Text.SliceBetween(s, Text.Whitespace, r, i);
    assert s[|pad|] == f[0] && s[|pad| + |f| - 1] == f[|f| - 1];
    assert r != [] by {
      Text.StripEmptyIff(s, Text.Whitespace);
    }
    assert r[0] == s[i] && r[|r| - 1] == s[i + |r| - 1];
    assert forall k :: 0 <= k < |pad| ==> s[k] == pad[k] && s[|pad| + |f| + k] == pad[k];
    assert i == |pad|;
    assert i + |r| == |pad| + |f|;
    assert r == s[|pad|..|pad| + |f|];
  }

  /**
   * The document of a parsed row: with a link, its trimmed title and its
   * target under `url`; without, the trimmed text with every leading and
   * trailing `*` removed, and no `url` key.
   */
  lemma EntryDocument(row: Row)
    requires EntryOf(row).Ok?
    ensures var es := EntryOf(row).value.entries;
      if row[1].link.Some? then
        Lookup(es, "document") == Some(Str(Text.Trim(row[1].link.value.text.value)))
        && Lookup(es, "url") == Some(OfText(row[1].link.value.href))
      else
        var doc := Text.Strip(Text.Trim(row[1].text.value), {'*'});
        Lookup(es, "document") == Some(Str(doc))
        && Lookup(es, "url") == None
        && (doc != [] ==> doc[0] != '*' && doc[|doc| - 1] != '*')
  {
    EntryParts(row);
    DocumentLookups(DateValue(row[0]).value, DocumentPairs(row[1]).value, PartyValue(row[2]), row[1].link.Some?);
  }

  /** In an entry's pairs, `document` and `url` hold what the document cell gave them. */
  lemma DocumentLookups(date: Value, doc: seq<(string, Value)>, party: Value, withUrl: bool)
    requires Keys(doc) == ["document"] + (if withUrl then ["url"] else [])
    ensures var es := [("date", date)] + doc + [("issued_by/filed_by", party)];
      && Lookup(es, "document") == Some(doc[0].1)
      && (withUrl ==> Lookup(es, "url") == Some(doc[1].1))
      && (!withUrl ==> Lookup(es, "url") == None)
  {
    var es := [("date", date)] + doc + [("issued_by/filed_by", party)];
    EntryPairsKeys(date, doc, party, withUrl);
    assert es[1] == doc[0];
    LookupAt(es, 1);
    if withUrl {
      assert es[2] == doc[1];
      LookupAt(es, 2);
    } else {
      assert "url" !in Keys(es);
    }
  }

  /** The party of a parsed row: null for an absent or empty text, the trimmed text otherwise. */
  lemma EntryParty(row: Row)
    requires EntryOf(row).Ok?
    ensures var es := EntryOf(row).value.entries;
      var t := row[2].text;
      (Lookup(es, "issued_by/filed_by") == Some(Null) <==> t.None? || t.value == "")
      && (t.Some? && t.value != "" ==> Lookup(es, "issued_by/filed_by") == Some(Str(Text.Trim(t.value))))
  {
    EntryParts(row);
    EntryKeys(row);
    var es := EntryOf(row).value.entries;
    LookupAt(es, |es| - 1);
  }

  /**
   * A table yields a docket exactly when every row yields an entry: one
   * entry per row, in row order; otherwise the first failing row's error.
   */
  lemma DocketTableShape(rows: seq<Row>)
    ensures DocketTable(rows).Ok? <==> forall i :: 0 <= i < |rows| ==> EntryOf(rows[i]).Ok?
    ensures DocketTable(rows).Ok? ==>
      |DocketTable(rows).value| == |rows|
      && forall i :: 0 <= i < |rows| ==> EntryOf(rows[i]) == Ok(DocketTable(rows).value[i])
    ensures DocketTable(rows).Err? ==>
      exists i :: FirstFailure(EntryOf, rows, i) && DocketTable(rows).error == EntryOf(rows[i]).error
  {
    CollectShape(EntryOf, rows);
  }
}
