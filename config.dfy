/** The configuration the program reads: the base URL of the REST service and the tree of
    endpoints to walk. Reading it from a file is not part of this model. */
module Schema {
  import opened Basics

  /** A JSONPath expression, kept as its source text: parsing and applying it belong to the
      jsonpath library. */
  datatype JsonPath = JsonPath(expr: string)

  /** `API`: an endpoint path (relative to the enclosing record), whether its records are
      entities (whose sub-endpoints are only walked on the way to the filter path), an
      optional JSONPath selecting the records from the reply, and its sub-endpoints. The
      program only reads the optional list of sub-endpoints through `unwrap_or_default()`, so
      an absent list is the empty one here. */
  datatype Api = Api(path: string, isEntity: Option<bool>, jsonpath: Option<JsonPath>,
                     apis: seq<Api>)

  /** `Config`: the base URL and the top-level endpoints. */
  datatype Config = Config(url: string, apis: seq<Api>)
}
