/**
 * `_case_type` (nlrb/spiders/nlrb.py): the case type is read off the case
 * number by testing fourteen `-XX-` markers in a fixed order and taking
 * the first one that occurs; a number with none of them is an error.
 */
module CaseTypes {
  import opened Wrappers
  import opened Errors
  import Text

  datatype Code = RC | RM | RD | UD | UC | CA | CD | CC | CB | CE | CP | CG | AC | WH

  /** The two letters of a code, as stored in the record's `case_type`. */
  function Name(c: Code): string {
    match c
    case RC => "RC" case RM => "RM" case RD => "RD" case UD => "UD"
    case UC => "UC" case CA => "CA" case CD => "CD" case CC => "CC"
    case CB => "CB" case CE => "CE" case CP => "CP" case CG => "CG"
    case AC => "AC" case WH => "WH"
  }

  /** The order in which the markers are tested. */
  const Order: seq<Code> := [RC, RM, RD, UD, UC, CA, CD, CC, CB, CE, CP, CG, AC, WH]

  /** The infix a case number of type `c` carries. */
  function Marker(c: Code): string {
    "-" + Name(c) + "-"
  }

  /** The marker `c` occurs in the case number. */
  predicate Marked(caseNumber: string, c: Code) {
    Text.Contains(caseNumber, Marker(c))
  }

  /** The first code of `codes` whose marker occurs in the case number. */
  function FirstMarked(caseNumber: string, codes: seq<Code>): (r: Option<nat>)
    ensures r.Some? ==> r.value < |codes| && Marked(caseNumber, codes[r.value])
    ensures r.Some? ==> forall j :: 0 <= j < r.value ==> !Marked(caseNumber, codes[j])
    ensures r.None? ==> forall j :: 0 <= j < |codes| ==> !Marked(caseNumber, codes[j])
  {
    if codes == [] then None
    else if Marked(caseNumber, codes[0]) then Some(0)
    else
      match FirstMarked(caseNumber, codes[1..])
      case Some(i) => Some(i + 1)
      case None => None
  }

  /**
   * `_case_type(case_number)`: the code of the earliest marker in `Order`
   * that occurs in the number, or `UnknownCaseType` when none does.
   */
  function Classify(caseNumber: string): (r: Result<Code, Error>)
    ensures r.Ok? <==> exists i :: 0 <= i < |Order| && Marked(caseNumber, Order[i])
    ensures r.Err? ==> r.error == UnknownCaseType
    ensures r.Ok? ==> Marked(caseNumber, r.value)
    ensures r.Ok? ==> forall c :: c != r.value && Marked(caseNumber, c) ==> Rank(r.value) < Rank(c)
  {
    match FirstMarked(caseNumber, Order)
    case Some(i) =>
      RankOrder(i);
      assert forall c :: c != Order[i] && Marked(caseNumber, c) ==> i < Rank(c) by {
        forall c | c != Order[i] && Marked(caseNumber, c) ensures i < Rank(c) {
          assert Order[Rank(c)] == c;
        }
      }
      Ok(Order[i])
    case None =>
      assert forall c :: !Marked(caseNumber, c) by {
        forall c ensures !Marked(caseNumber, c) {
          assert Order[Rank(c)] == c;
        }
      }
      Err(UnknownCaseType)
  }

  /** The position of a code in `Order`. */
  function Rank(c: Code): (i: nat)
    ensures i < |Order| && Order[i] == c
  {
    match c
    case RC => 0 case RM => 1 case RD => 2 case UD => 3
    case UC => 4 case CA => 5 case CD => 6 case CC => 7
    case CB => 8 case CE => 9 case CP => 10 case CG => 11
    case AC => 12 case WH => 13
  }

  /** `Order` holds no code twice: the rank of the code at position `i` is `i`. */
  lemma RankOrder(i: nat)
    requires i < |Order|
    ensures Rank(Order[i]) == i
  {
    var c := Order[i];
    if i < 7 {
      assert c in {RC, RM, RD, UD, UC, CA, CD};
    } else {
      assert c in {CC, CB, CE, CP, CG, AC, WH};
    }
  }

  /** A case number carrying exactly one marker is classified by that marker. */
  lemma ClassifyUnique(caseNumber: string, c: Code)
    requires Marked(caseNumber, c)
    requires forall d :: d != c ==> !Marked(caseNumber, d)
    ensures Classify(caseNumber) == Ok(c)
  {
    assert Order[Rank(c)] == c;
  }

  /** An illustrative case number: a charge against an employer. */
  lemma ClassifyExample()
    ensures Classify("05-CA-123456") == Ok(CA)
  {
    var n := "05-CA-123456";
    assert Text.OccursAt(n, Marker(CA), 2);
    Text.ContainsIff(n, Marker(CA));
    forall j | 0 <= j < Rank(CA) ensures !Marked(n, Order[j]) {
      NotMarkedExample(j);
    }
  }

  lemma NotMarkedExample(j: nat)
    requires j < 5
    ensures !Marked("05-CA-123456", Order[j])
  {
    var n, m := "05-CA-123456", Marker(Order[j]);
    assert m[1] == 'R' || m[1] == 'U';
    Text.MissingCharNotContained(n, m, 1);
  }
}
