/**
 * What an invocation gets from outside the handler: the library functions it
 * calls (as deterministic functions with no modelled behaviour), the
 * deployment settings, and the response it returns.
 */
module Env {
  import opened Wrappers
  import opened Xml

  /** The namespace of every `uuid5` identifier the handler derives. */
  const NamespaceUuid := "b2c3d6ea-4f79-4b9b-9c9b-4d6a0f2d0d6a"

  /**
   * `sha256Hex`: `hashlib.sha256(s.encode()).hexdigest()`;
   * `uuid5(ns, name)`: `str(uuid.uuid5(ns, name))`;
   * `toUtc`: `datetime.fromisoformat` followed by conversion to UTC and `isoformat`, `None` where it raises;
   * `unquote`: `urllib.parse.unquote_plus`;
   * `parse`: `ET.fromstring` on the decoded object text, `None` on a parse error.
   */
  datatype Hooks = Hooks(
    sha256Hex: string -> string,
    uuid5: (string, string) -> string,
    toUtc: string -> Option<string>,
    unquote: string -> string,
    parse: string -> Option<Parsed>)

  /** The parser only produces trees whose element ids are distinct and index the tag table. */
  ghost predicate ValidHooks(h: Hooks) {
    forall t :: h.parse(t).Some? ==> WellFormed(h.parse(t).value)
  }

  /**
   * `curatedBucket`: the `CURATED_BUCKET` setting; `functionArn`: the
   * context's `invoked_function_arn`; `envRegion`: the `AWS_REGION` setting.
   */
  datatype Context = Context(curatedBucket: string, functionArn: Option<string>, envRegion: Option<string>)

  /** The JSON body of a response: a message, with the pack or run id where there is one. */
  datatype Body = Message(message: string) | WithPackId(message: string, packId: string) | WithRunId(message: string, runId: string)

  datatype Response = Response(statusCode: int, body: Body)
}
