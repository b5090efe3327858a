/** The normalised view of an entity that blocking and cluster validation read
    (src/kgcs/er/normalize.py). */
module EntityView {
  import opened Wrappers

  /** A datetime: its instant, and whether it carries a time zone.  A naive and an aware one
      cannot be compared. */
  datatype Moment = Moment(at: int, aware: bool)

  datatype NormalizedEntity = NormalizedEntity(
    sourceKey: string,
    graphId: string,
    entityType: string,
    normalizedNames: seq<string>,
    identifiers: map<string, seq<string>>,
    validFrom: Option<Moment>,
    validTo: Option<Moment>,
    sourceReliability: Option<real>)
}
