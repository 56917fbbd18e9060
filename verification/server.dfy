/** The `formatError` hook of the server (server.ts): in production an
    error is projected onto the four fields GraphQL defines for errors;
    elsewhere it is passed through. Errors are plain JavaScript objects. */
module Server {
  import opened Wrappers

  /** JSON-like JavaScript values; numbers are integers here. */
  datatype JsValue =
    | Undefined
    | Null
    | Bool(b: bool)
    | Number(n: int)
    | Str(s: string)
    | Array(items: seq<JsValue>)
    | Object(fields: map<string, JsValue>)

  type JsObject = map<string, JsValue>

  /** The fields kept in production. */
  const ProductionFields: set<string> := {"message", "locations", "path", "extensions"}

  /** Property access: a missing property reads as `undefined`. */
  function Get(o: JsObject, key: string): JsValue {
    if key in o then o[key] else Undefined
  }

  /** `process.env.NODE_ENV === 'production'`. */
  predicate IsProduction(nodeEnv: Option<string>) {
    nodeEnv == Some("production")
  }

  /** `formatError`: in production the result has exactly the fields
      `message`, `locations`, `path` and `extensions`, each equal to the
      input's (a missing one becomes an `undefined` property); otherwise
      the input is returned unchanged. */
  function FormatError(err: JsObject, nodeEnv: Option<string>): (r: JsObject)
    ensures IsProduction(nodeEnv) ==> r.Keys == ProductionFields
    ensures IsProduction(nodeEnv) ==> forall k :: k in ProductionFields ==> r[k] == Get(err, k)
    ensures !IsProduction(nodeEnv) ==> r == err
  {
    if IsProduction(nodeEnv) then
      map[
        "message" := Get(err, "message"),
        "locations" := Get(err, "locations"),
        "path" := Get(err, "path"),
        "extensions" := Get(err, "extensions")]
    else err
  }

  /** Formatting a formatted error changes nothing. */
  lemma FormatErrorIdempotent(err: JsObject, nodeEnv: Option<string>)
    ensures FormatError(FormatError(err, nodeEnv), nodeEnv) == FormatError(err, nodeEnv)
  {
  }

  /** The `extensions` object, and with it the machine-readable `code`
      such as `UNAUTHENTICATED`, survives formatting in every environment. */
  lemma ErrorCodeSurvives(err: JsObject, nodeEnv: Option<string>, code: string)
    requires "extensions" in err && err["extensions"].Object?
    requires "code" in err["extensions"].fields && err["extensions"].fields["code"] == Str(code)
    ensures var r := FormatError(err, nodeEnv);
            "extensions" in r && r["extensions"] == err["extensions"]
            && r["extensions"].fields["code"] == Str(code)
  {
  }

  /** In production every other top-level field, such as an
      `originalError` or a `stack`, is dropped; fields nested inside
      `extensions` are kept as they are. */
  lemma ProductionDropsOtherFields(err: JsObject, key: string)
    requires key !in ProductionFields
    ensures key !in FormatError(err, Some("production"))
    ensures FormatError(err, Some("production"))["extensions"] == Get(err, "extensions")
  {
  }
}
