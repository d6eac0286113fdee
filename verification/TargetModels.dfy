module TargetModels {
  /** A model as the exporters see it; further fields play no part here. */
  datatype TargetModel = TargetModel(alias: string, contextLength: int)
}
