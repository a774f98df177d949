/**
 * The drug-interaction check's local guard. The request to the generative
 * model, the parsing of its answer and the absorbed failures form the
 * oracle `analyse`; only the guard in front of it is modelled.
 */
module AiGateway {
  import opened Types

  /** `checkDrugInteractions(meds)`: with fewer than two medications nothing is sent and nothing is reported. */
  function CheckInteractions(meds: seq<Medication>, analyse: seq<Medication> -> seq<DrugInteraction>): (r: seq<DrugInteraction>)
    ensures |meds| < 2 ==> r == []
    ensures |meds| >= 2 ==> r == analyse(meds)
  {
    if |meds| < 2 then [] else analyse(meds)
  }
}
