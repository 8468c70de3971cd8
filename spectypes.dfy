/** The spec record (cli/internal/specs/types.go) shared by the cache, the manager and the merger. */
module SpecTypes {

  /** The two values of `specs.SpecType`. */
  const Artifacts := "artifacts"
  const Extractors := "extractors"

  /**
   * `specs.Spec`. The schema is the raw JSON text; the time of the last
   * update is an abstract clock reading.
   */
  datatype Spec = Spec(
    slug: string,
    title: string,
    specType: string,
    ref: string,
    path: string,
    url: string,
    schema: string,
    lastUpdated: nat)
}
