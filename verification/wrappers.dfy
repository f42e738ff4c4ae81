/** Optional values and failure-carrying results, usable with `:-`. */
module Wrappers {

  datatype Option<+T> = None | Some(value: T) {
    predicate IsFailure() { None? }

    function PropagateFailure<U>(): Option<U>
      requires None?
    {
      None
    }

    function Extract(): T
      requires Some?
    {
      value
    }
  }

  datatype Result<+T, +E> = Ok(value: T) | Err(error: E) {
    predicate IsFailure() { Err? }

    function PropagateFailure<U>(): Result<U, E>
      requires Err?
    {
      Err(error)
    }

    function Extract(): T
      requires Ok?
    {
      value
    }
  }

}

/**
 * The exceptions the scraper can raise while it extracts one case, one
 * constructor per distinct cause. A raised exception abandons the case.
 */
module Errors {

  datatype Error =
    | MissingTitle             // the page-title selector matched nothing, so `.strip()` fails on None
    | MissingText              // some other `.get()` returned None before `.strip()`
    | NoFlexRows               // `basic_info, *tally_elements = ...` on an empty selection
    | UnknownCaseType          // no `-XX-` marker in the case number
    | DateParseError           // `strptime(..., "%m/%d/%Y")` rejected the text
    | MissingKey(key: string)  // a dict subscript or `pop` on an absent key
    | WrongCellCount           // a row's cells unpacked into three names
    | MalformedParticipantRow  // `subtype, *rest = ...` on a cell without line breaks
    | UnexpectedResponseShape  // `(docket_table,) = ...` did not select exactly one table body
    | AmbiguousSearchResult    // `assert len(rows) == 1` on the advanced-search results
    | ReconciliationMismatch   // `assert item["Case Number"] == ...` on the search row
}
