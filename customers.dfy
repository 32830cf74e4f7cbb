/**
 * The customer table as `load_data` returns it: the cleaned file's rows with
 * the gas flag recoded to a label and a churn label column added.
 */
module Customers {
  import opened Collections

  /** Values of the recoded `has_gas` column. */
  datatype GasLabel = Yes | No

  /** Values of the added `churn_label` column. */
  datatype ChurnLabel = Active | Churned

  /**
   * One row of the cleaned file, restricted to the columns the pipeline reads.
   * The activation year stands for the year of the parsed `date_activ`
   * (None when that date is missing); date parsing itself is not modelled.
   */
  datatype RawRow = RawRow(
    hasGas: Option<string>,
    churn: int,
    nbProdAct: int,
    originUp: Option<string>,
    activationYear: Option<int>,
    marginNetPowEle: real)

  /** One row of the loaded table. */
  datatype Customer = Customer(
    hasGas: Option<GasLabel>,
    churn: int,
    churnLabel: Option<ChurnLabel>,
    nbProdAct: int,
    originUp: Option<string>,
    activationYear: Option<int>,
    marginNetPowEle: real)

  /** The two finite maps handed to `Series.map`; a key outside them maps to a missing cell. */
  const GasCodes: map<string, GasLabel> := map["t" := Yes, "f" := No]
  const ChurnCodes: map<int, ChurnLabel> := map[1 := Churned, 0 := Active]

  /** Recode of one `has_gas` cell. */
  function RecodeGas(raw: Option<string>): (g: Option<GasLabel>)
    ensures g == Some(Yes) <==> raw == Some("t")
    ensures g == Some(No) <==> raw == Some("f")
    ensures g == None <==> raw != Some("t") && raw != Some("f")
  {
    if raw.Some? && raw.value in GasCodes then Some(GasCodes[raw.value]) else None
  }

  /** The `churn_label` cell derived from one `churn` cell. */
  function LabelChurn(churn: int): (l: Option<ChurnLabel>)
    ensures l == Some(Churned) <==> churn == 1
    ensures l == Some(Active) <==> churn == 0
    ensures l == None <==> churn != 0 && churn != 1
  {
    if churn in ChurnCodes then Some(ChurnCodes[churn]) else None
  }

  /** The invariant of a loaded row: its churn label says exactly what its churn flag says. */
  predicate LabelAgrees(c: Customer) {
    && (c.churnLabel == Some(Churned) <==> c.churn == 1)
    && (c.churnLabel == Some(Active) <==> c.churn == 0)
    && (c.churnLabel.None? <==> c.churn != 0 && c.churn != 1)
  }

  /** One row after both column assignments of `load_data`. */
  function Recode(r: RawRow): (c: Customer)
    ensures c.hasGas == RecodeGas(r.hasGas)
    ensures LabelAgrees(c)
    ensures c.churn == r.churn && c.nbProdAct == r.nbProdAct && c.originUp == r.originUp
    ensures c.activationYear == r.activationYear && c.marginNetPowEle == r.marginNetPowEle
  {
    Customer(RecodeGas(r.hasGas), r.churn, LabelChurn(r.churn), r.nbProdAct,
             r.originUp, r.activationYear, r.marginNetPowEle)
  }

  /** `load_data`: the same rows in the same order, each recoded. */
  function LoadData(raw: seq<RawRow>): (df: seq<Customer>)
    ensures |df| == |raw|
    ensures forall i :: 0 <= i < |raw| ==> df[i] == Recode(raw[i])
    ensures forall c :: c in df ==> LabelAgrees(c)
  {
    seq(|raw|, i requires 0 <= i < |raw| => Recode(raw[i]))
  }
}
