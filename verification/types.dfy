/** Optional values, results and the errors the risk pipeline raises. */
module Types {

  datatype Option<+T> = None | Some(value: T)

  datatype Result<+T, +E> = Success(value: T) | Failure(error: E)

  /** The two exceptions the pipeline can raise on well-formed data. */
  datatype Error =
    | NoClients                    // the aggregation found no client at all
    | ZeroContracts(band: string)  // a band whose rows add up to zero contracts (division by zero)
}
