/**
 * The item pipeline: `normalize_keys` and `NlrbPipeline.process_item`
 * (nlrb/pipelines.py). Every dict key at every depth is lower-cased and
 * its spaces become underscores; lists are normalized element by element;
 * every other value passes through.
 */
module Pipelines {
  import opened Values
  import opened Assoc
  import opened Wrappers
  import Text

  /** A key as it leaves the pipeline: no space and no upper-case ASCII letter. */
  predicate NormalKey(k: string) {
    forall i :: 0 <= i < |k| ==> k[i] != ' ' && !('A' <= k[i] <= 'Z')
  }

  function NormalizeChar(c: char): char {
    if c == ' ' then '_' else Text.LowerChar(c)
  }

  /** `key.lower().replace(" ", "_")`: same length, each character mapped on its own. */
  function NormalizeKey(k: string): (r: string)
    ensures |r| == |k| && NormalKey(r)
  {
    seq(|k|, i requires 0 <= i < |k| => NormalizeChar(k[i]))
  }

  /**
   * `normalize_keys(obj)`: a dict stays a dict with no more keys than it
   * had, a list stays a list of the same length, anything else is kept.
   */
  function Normalize(v: Value): (r: Value)
    ensures r.Dict? <==> v.Dict?
    ensures v.Dict? ==> |r.entries| <= |v.entries|
    ensures v.List? ==> r.List? && |r.items| == |v.items|
    ensures !v.Dict? && !v.List? ==> r == v
    decreases v
  {
    match v
    case Dict(es) =>
      FromPairsKeys(NormalizePairs(v, es));
      Dict(FromPairs(NormalizePairs(v, es)))
    case List(xs) => List(seq(|xs|, i requires 0 <= i < |xs| => Normalize(xs[i])))
    case _ => v
  }

  /** The `(key.lower().replace(" ", "_"), normalize_keys(value))` pairs, in the dict's order. */
  function NormalizePairs(ghost parent: Value, es: seq<(string, Value)>): (r: seq<(string, Value)>)
    requires parent == Dict(es)
    ensures |r| == |es|
    ensures forall i :: 0 <= i < |r| ==> r[i].0 == NormalizeKey(es[i].0) && NormalKey(r[i].0)
    decreases parent, 0
  {
    seq(|es|, i requires 0 <= i < |es| => (NormalizeKey(es[i].0), Normalize(es[i].1)))
  }

  /** `NlrbPipeline.process_item(item, spider)`: the spider argument is not used. */
  function ProcessItem(item: Value): (r: Value)
    ensures Canonical(r)
    ensures Normalize(r) == r
  {
    NormalizeCanonical(item);
    CanonicalFixed(Normalize(item));
    Normalize(item)
  }

  /** A value the pipeline leaves alone: normal, distinct keys at every depth. */
  predicate Canonical(v: Value)
    decreases v
  {
    match v
    case Dict(es) => IsDict(es) && forall i :: 0 <= i < |es| ==> NormalKey(es[i].0) && Canonical(es[i].1)
    case List(xs) => forall i :: 0 <= i < |xs| ==> Canonical(xs[i])
    case _ => true
  }

  /** A list keeps its length and order; element `i` is the normalized element `i`. */
  lemma NormalizeList(xs: seq<Value>)
    ensures Normalize(List(xs)).List?
    ensures |Normalize(List(xs)).items| == |xs|
    ensures forall i :: 0 <= i < |xs| ==> Normalize(List(xs)).items[i] == Normalize(xs[i])
  {
  }

  /** Anything that is neither a dict nor a list comes back unchanged. */
  lemma NormalizeScalar(v: Value)
    requires !v.Dict? && !v.List?
    ensures Normalize(v) == v
  {
  }

  /**
   * A dict becomes a dict whose keys are the normalized input keys, each
   * once, in the order of their first occurrence, and never more of them
   * than the input had.
   */
  lemma NormalizeDictKeys(es: seq<(string, Value)>)
    ensures Normalize(Dict(es)).Dict?
    ensures Keys(Normalize(Dict(es)).entries) == Dedup(seq(|es|, i requires 0 <= i < |es| => NormalizeKey(es[i].0)))
    ensures |Normalize(Dict(es)).entries| <= |es|
  {
    FromPairsKeys(NormalizePairs(Dict(es), es));
    NormalizePairsKeys(es);
  }

  lemma NormalizePairsKeys(es: seq<(string, Value)>)
    ensures Keys(NormalizePairs(Dict(es), es)) == seq(|es|, i requires 0 <= i < |es| => NormalizeKey(es[i].0))
  {
  }

  /**
   * On a collision the later key wins: the entry under a normalized key
   * holds the normalized value of the last input key that normalizes to it.
   */
  lemma NormalizeLastWins(es: seq<(string, Value)>, i: nat)
    requires i < |es|
    requires forall j :: i < j < |es| ==> NormalizeKey(es[j].0) != NormalizeKey(es[i].0)
    ensures Lookup(Normalize(Dict(es)).entries, NormalizeKey(es[i].0)) == Some(Normalize(es[i].1))
  {
    var ps := NormalizePairs(Dict(es), es);
    UpdateLastWins([], ps, i);
  }

  /** Normalization yields a canonical value, at any depth. */
  lemma {:induction false} NormalizeCanonical(v: Value)
    ensures Canonical(Normalize(v))
    decreases v
  {
    match v
    case Dict(es) =>
      var ps := NormalizePairs(v, es);
      var out := FromPairs(ps);
      UpdateIsDict([], ps);
      forall i | 0 <= i < |out| ensures NormalKey(out[i].0) && Canonical(out[i].1) {
        UpdatePairsFrom([], ps, out[i]);
        var j :| 0 <= j < |ps| && ps[j] == out[i];
        NormalizeCanonical(es[j].1);
      }
    case List(xs) =>
      forall i | 0 <= i < |xs| ensures Canonical(Normalize(xs[i])) {
        NormalizeCanonical(xs[i]);
      }
    case _ =>
  }

  /** A canonical value is a fixed point of normalization. */
  lemma {:induction false} CanonicalFixed(v: Value)
    requires Canonical(v)
    ensures Normalize(v) == v
    decreases v
  {
    match v
    case Dict(es) =>
      var ps := NormalizePairs(v, es);
      forall i | 0 <= i < |es| ensures ps[i] == es[i] {
        NormalKeyFixed(es[i].0);
        CanonicalFixed(es[i].1);
      }
      assert ps == es;
      assert [] + es == es;
      UpdateFreshKeys([], es);
    case List(xs) =>
      forall i | 0 <= i < |xs| ensures Normalize(xs[i]) == xs[i] {
        CanonicalFixed(xs[i]);
      }
      assert Normalize(v).items == xs;
    case _ =>
  }

  /** A key that is already normal is left as it is. */
  lemma NormalKeyFixed(k: string)
    requires NormalKey(k)
    ensures NormalizeKey(k) == k
  {
  }

  /** `normalize_keys(normalize_keys(x)) == normalize_keys(x)`, at any nesting depth. */
  lemma NormalizeIdempotent(v: Value)
    ensures Normalize(Normalize(v)) == Normalize(v)
  {
    NormalizeCanonical(v);
    CanonicalFixed(Normalize(v));
  }

  /** Labels as the case page writes them, normalized. */
  lemma KeyExamples()
    ensures NormalizeKey("Case Number") == "case_number"
    ensures NormalizeKey("Tallies") == "tallies"
    ensures NormalizeKey("A B") == "a_b"
  {
  }

  /** A tally with a spaced, capitalised label, as it leaves the pipeline. */
  lemma NormalizeTallyExample(n: int)
    ensures Normalize(Dict([("A B", Num(n))])) == Dict([("a_b", Num(n))])
  {
    var tally := Dict([("A B", Num(n))]);
    KeyExamples();
    var inner := [("a_b", Num(n))];
    assert NormalizePairs(tally, tally.entries) == inner;
    FromPairsOfDict(inner);
  }

  /** The pairs of that record, each key normalized and the tally list normalized in turn. */
  lemma NormalizeRecordPairsExample(caseNumber: string, n: int)
    ensures var es := [("Case Number", Str(caseNumber)), ("Tallies", List([Dict([("A B", Num(n))])]))];
      NormalizePairs(Dict(es), es)
      == [("case_number", Str(caseNumber)), ("tallies", List([Dict([("a_b", Num(n))])]))]
  {
    var tally := Dict([("A B", Num(n))]);
    NormalizeTallyExample(n);
    KeyExamples();
    assert Normalize(List([tally])) == List([Dict([("a_b", Num(n))])]);
  }

  /** A record with a case number and one tally, as it leaves the pipeline. */
  lemma NormalizeExample(caseNumber: string, n: int)
    ensures Normalize(Dict([("Case Number", Str(caseNumber)), ("Tallies", List([Dict([("A B", Num(n))])]))]))
         == Dict([("case_number", Str(caseNumber)), ("tallies", List([Dict([("a_b", Num(n))])]))])
  {
    var outer := [("case_number", Str(caseNumber)), ("tallies", List([Dict([("a_b", Num(n))])]))];
    NormalizeRecordPairsExample(caseNumber, n);
    assert Keys(outer) == ["case_number", "tallies"];
    FromPairsOfDict(outer);
  }
}
