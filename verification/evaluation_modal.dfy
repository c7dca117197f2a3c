/**
 * The evaluation pop-up: which of its four faces it shows for the open flag,
 * the loading flag and the evaluation data it is given, and the two decisions
 * it makes about the data (the verdict's styling and the hallucination label).
 */
module EvaluationModal {
  import opened Wrappers
  import opened Api

  /** The only verdict styled as reliable (`isReliable` compares with it exactly). */
  const ReliableVerdict: string := "RELIABLE"

  datatype EvaluationView =
    | Hidden
    | Loading
    | Details(evaluation: EvaluationResponse, reliable: bool, hallucination: string)
    | Failed

  /** The label of the "Possible Hallucination" row. */
  function HallucinationLabel(evaluation: EvaluationResponse): (text: string)
    ensures text == "Yes" <==> evaluation.possibleHallucination
    ensures text == "Yes" || text == "No"
  {
    if evaluation.possibleHallucination then "Yes" else "No"
  }

  /**
   * The face of the modal: nothing when closed; otherwise the loading view
   * whenever loading, then the details when there is data, else the failure note.
   */
  function SelectView(isOpen: bool, isLoading: bool, evaluation: Option<EvaluationResponse>): (v: EvaluationView)
    ensures v == Hidden <==> !isOpen
    ensures v == Loading <==> isOpen && isLoading
    ensures v.Details? <==> isOpen && !isLoading && evaluation.Some?
    ensures v == Failed <==> isOpen && !isLoading && evaluation.None?
    ensures v.Details? ==>
      v.evaluation == evaluation.value &&
      (v.reliable <==> v.evaluation.verdict == ReliableVerdict) &&
      (v.hallucination == "Yes" <==> v.evaluation.possibleHallucination) &&
      (v.hallucination == "Yes" || v.hallucination == "No")
  {
    if !isOpen then Hidden
    else if isLoading then Loading
    else if evaluation.Some? then
      Details(evaluation.value, evaluation.value.verdict == ReliableVerdict, HallucinationLabel(evaluation.value))
    else Failed
  }
}
