/** What the model gateway's cache stores and its completions carry. */
module GatewayTypes {
  import opened Common

  datatype BudgetState = WithinBudget | SoftBreach | HardBreach

  /** A completion body.  id stands for the fresh uuid in the body. */
  datatype Response = Response(id: nat, tier: string, budget: BudgetState, costId: Option<nat>)
}
