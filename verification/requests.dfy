/**
 * The requests the spider issues after reading a case page. A request is
 * named by its kind (which callback reads the answer) and the case it is
 * for; `Url` and `Form` spell out where it goes and what it carries.
 */
module Requests {
  import opened Wrappers
  import Assoc

  datatype Request =
    /** `JsonRequest` for the first page of the case's docket; answered by `parse_docket`. */
    | DocketPage(caseNumber: string)
    /** `FormRequest(method="GET")` to the advanced search for the case; answered by `parse_advanced_search`. */
    | AdvancedSearch(caseNumber: string)

  const SearchUrl: string := "https://www.nlrb.gov/advanced-search"

  const DocketUrlPrefix: string := "https://www.nlrb.gov/sort-case-decisions-cp/"

  const DocketUrlSuffix: string :=
    "/ds_activity+desc/case-docket-activity/ds-activity-date/1?_wrapper_format=drupal_ajax&_wrapper_format=drupal_ajax"

  /** The fixed part of the advanced-search form: the report type and the columns asked for. */
  const SearchColumns: seq<(string, string)> := [
    ("foia_report_type", "cases_and_decisions"),
    ("cases_and_decisions_cboxes[close_method]", "close_method"),
    ("cases_and_decisions_cboxes[employees]", "employees"),
    ("cases_and_decisions_cboxes[union]", "union"),
    ("cases_and_decisions_cboxes[unit_description]", "unit_description"),
    ("cases_and_decisions_cboxes[voters]", "voters"),
    ("cases_and_decisions_cboxes[date_closed]", "date_closed"),
    ("cases_and_decisions_cboxes[city]", "city"),
    ("cases_and_decisions_cboxes[state]", "state"),
    ("cases_and_decisions_cboxes[case]", "case")
  ]

  /** The search term for a case: its number between double quotes, an exact-phrase query. */
  function SearchTerm(caseNumber: string): (t: string)
    ensures |t| == |caseNumber| + 2 && t[0] == '"' && t[|t| - 1] == '"'
    ensures t[1..|t| - 1] == caseNumber
  {
    "\"" + caseNumber + "\""
  }

  /** The search term names the case: unquoting it gives the case number back. */
  lemma SearchTermNamesCase(a: string, b: string)
    ensures SearchTerm(a) == SearchTerm(b) ==> a == b
  {
    if SearchTerm(a) == SearchTerm(b) {
      assert a == SearchTerm(a)[1..|SearchTerm(a)| - 1];
    }
  }

  /**
   * Where a request goes: the fixed advanced-search page, or the case's
   * docket sorted by activity date, first page, with the case number as a
   * path segment.
   */
  function Url(r: Request): (u: string)
    ensures r.AdvancedSearch? ==> u == SearchUrl
    ensures r.DocketPage? ==>
      var n := |DocketUrlPrefix|;
      && |u| == n + |r.caseNumber| + |DocketUrlSuffix|
      && u[..n] == DocketUrlPrefix
      && u[n..n + |r.caseNumber|] == r.caseNumber
      && u[n + |r.caseNumber|..] == DocketUrlSuffix
  {
    match r
    case AdvancedSearch(_) => SearchUrl
    case DocketPage(caseNumber) => DocketUrlPrefix + caseNumber + DocketUrlSuffix
  }

  /**
   * The form data a request carries: none for the docket page; for the
   * search, a dict of the fixed columns and `search_term`, the quoted case
   * number.
   */
  function Form(r: Request): (form: seq<(string, string)>)
    ensures r.DocketPage? ==> form == []
    ensures r.AdvancedSearch? ==>
      && Assoc.IsDict(form)
      && Assoc.Lookup(form, "search_term") == Some(SearchTerm(r.caseNumber))
      && |form| == |SearchColumns| + 1
      && form[..|SearchColumns|] == SearchColumns
  {
    match r
    case DocketPage(_) => []
    case AdvancedSearch(caseNumber) =>
      var form := SearchColumns + [("search_term", SearchTerm(caseNumber))];
      assert Assoc.Keys(form) == Assoc.Keys(SearchColumns) + ["search_term"];
      assert Assoc.IsDict(SearchColumns) by {
        var ks := Assoc.Keys(SearchColumns);
        forall i, j | 0 <= i < j < |ks| ensures ks[i] != ks[j] {
          ColumnKeysDiffer(i, j);
        }
      }
      assert "search_term" !in Assoc.Keys(SearchColumns);
      Assoc.LookupAt(form, |form| - 1);
      form
  }

  lemma ColumnKeysDiffer(i: nat, j: nat)
    requires i < j < |SearchColumns|
    ensures SearchColumns[i].0 != SearchColumns[j].0
  {
  }

  /** Requests for different cases, or of different kinds, differ on the wire. */
  lemma RequestsDiffer(r: Request, r': Request)
    requires r != r'
    ensures Url(r) != Url(r') || Form(r) != Form(r')
  {
    if r.AdvancedSearch? && r'.AdvancedSearch? {
      if Form(r) == Form(r') {
        assert Assoc.Lookup(Form(r), "search_term") == Some(SearchTerm(r.caseNumber));
        SearchTermNamesCase(r.caseNumber, r'.caseNumber);
      }
    } else if r.DocketPage? && r'.DocketPage? {
      var n := |DocketUrlPrefix|;
      if |Url(r)| == |Url(r')| {
        assert |r.caseNumber| == |r'.caseNumber|;
        assert r.caseNumber == Url(r)[n..n + |r.caseNumber|];
      }
    } else {
      assert Form(r) != Form(r') by {
        if r.DocketPage? {
          assert |Form(r')| > 0;
        } else {
          assert |Form(r)| > 0;
        }
      }
    }
  }
}
