/**
 * The case record while the spider assembles it: the `details` dict of
 * `parse_case`, which travels with the follow-up requests as `item` and is
 * changed in place by `parse_docket` and `parse_advanced_search`.
 */
module Items {
  import opened Wrappers
  import opened Values
  import opened Assoc

  const CaseNumberKey: string := "Case Number"

  /** The case number, where the record has one, is text (the label's value, stripped). */
  predicate TextCaseNumber(ps: seq<(string, Value)>) {
    match Lookup(ps, CaseNumberKey)
    case Some(v) => v.Str?
    case None => true
  }

  /** An assignment to another key, or of a text to the case number, keeps the case number text. */
  lemma PutKeepsTextCaseNumber(ps: seq<(string, Value)>, k: string, v: Value)
    requires TextCaseNumber(ps)
    requires k == CaseNumberKey ==> v.Str?
    ensures TextCaseNumber(Put(ps, k, v))
  {
    if k != CaseNumberKey {
      PutOthers(ps, k, v, CaseNumberKey);
    }
  }

  class CaseItem {
    /** The record's pairs in insertion order. */
    var fields: seq<(string, Value)>

    /** A Python dict, whose case number, if any, is text. */
    predicate Valid()
      reads this
    {
      IsDict(fields) && TextCaseNumber(fields)
    }

    /** `details = {}`. */
    constructor ()
      ensures fields == [] && Valid()
    {
      fields := [];
    }

    /** `item[k] = v`. */
    method Set(k: string, v: Value)
      requires Valid()
      requires k == CaseNumberKey ==> v.Str?
      modifies this
      ensures fields == Put(old(fields), k, v)
      ensures Valid()
    {
      PutIsDict(fields, k, v);
      PutKeepsTextCaseNumber(fields, k, v);
      fields := Put(fields, k, v);
    }

    /** `item[k]`: None where the subscript raises `KeyError`. */
    function Get(k: string): (r: Option<Value>)
      reads this
      ensures r.None? <==> k !in Keys(fields)
    {
      Lookup(fields, k)
    }

    /** `item.update(qs)`, with pairs that do not touch the case number. */
    method Update(qs: seq<(string, Value)>)
      requires Valid()
      requires CaseNumberKey !in Keys(qs)
      modifies this
      ensures fields == UpdateWith(old(fields), qs)
      ensures Valid()
    {
      UpdateIsDict(fields, qs);
      UpdateKeepsOthers(fields, qs, CaseNumberKey);
      fields := UpdateWith(fields, qs);
    }
  }
}
