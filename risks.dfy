/** `get_risks`: the fixed table from a risk level to a portfolio allocation. */
module Risks {
  import opened Wrappers

  const RiskLevels: map<string, string> := map[
    "none" := "100% bonds (AGG), 0% equities (SPY)",
    "low" := "60% bonds (AGG), 40% equities (SPY)",
    "medium" := "40% bonds (AGG), 60% equities (SPY)",
    "high" := "20% bonds (AGG), 80% equities (SPY)"
  ]

  /**
   * `get_risks`: defined on exactly the four keys, each with its fixed
   * allocation between the bond fund AGG and the equity fund SPY; any other
   * key is the `KeyError` of the dictionary lookup (there is no default).
   */
  function GetRisks(riskLevel: string): (r: Result<string>)
    ensures r.Success? <==> riskLevel in {"none", "low", "medium", "high"}
    ensures r.Failure? ==> r.error == UnknownRiskLevel(riskLevel)
    ensures riskLevel == "none" ==> r.value == "100% bonds (AGG), 0% equities (SPY)"
    ensures riskLevel == "low" ==> r.value == "60% bonds (AGG), 40% equities (SPY)"
    ensures riskLevel == "medium" ==> r.value == "40% bonds (AGG), 60% equities (SPY)"
    ensures riskLevel == "high" ==> r.value == "20% bonds (AGG), 80% equities (SPY)"
  {
    if riskLevel in RiskLevels then Success(RiskLevels[riskLevel]) else Failure(UnknownRiskLevel(riskLevel))
  }
}
