/**
 * The fetch function each resource page defines (`fetchRdsDatabases`,
 * `fetchEksClusters`, `fetchInstances`, `fetchS3Buckets`): one GET, a status
 * check, then a two-layer decode. The response text is parsed as JSON, and the
 * `body` member of the result is parsed a second time. The network is left out;
 * a response is given as its status and its text.
 */
module Envelope {
  import opened Types
  import opened Json

  /** An HTTP response as `fetch` resolves it: status code and body text. */
  datatype Response = Response(status: int, text: string)

  /** Why a fetch rejects. `HttpError` is the `Error` thrown for a non-ok status;
      `SyntaxError` is a `JSON.parse` failure at either layer (including
      `JSON.parse(undefined)` when there is no `body`); `TypeError` is reading
      `.body` of a null outer value. */
  datatype FetchError = HttpError(status: int) | SyntaxError | TypeError {
    /** Server reached but the envelope or its payload is malformed. */
    predicate IsDecodeError() { !HttpError? }
  }

  /** `response.ok`: the status is in the range 200-299. */
  predicate IsOk(status: int) {
    200 <= status <= 299
  }

  /** `data.body` on a non-null outer value; `None` is `undefined`. */
  function BodyOf(outer: Json): Option<Json>
    requires outer != Null
  {
    Field(outer, "body")
  }

  /** The whole fetch: status check, outer parse, `body` lookup, inner parse of
      the body coerced to a string. */
  function FetchPayload(c: Codec, r: Response): (res: Result<Json, FetchError>)
    ensures (res.Err? && res.error.HttpError?) <==> !IsOk(r.status)
    ensures res.Err? && res.error.HttpError? ==> res.error.status == r.status
    ensures c.parse(r.text).None? ==> res.Err?
    ensures res.Ok? ==>
              IsOk(r.status) && c.parse(r.text).Some? && c.parse(r.text).value.Obj? &&
              "body" in c.parse(r.text).value.fields &&
              c.parse(ToJsString(c.parse(r.text).value.fields["body"])) == Some(res.value)
    ensures IsOk(r.status) && c.parse(r.text).Some? ==>
              var outer := c.parse(r.text).value;
              (outer == Null ==> res == Err(TypeError)) &&
              (outer != Null && Field(outer, "body").None? ==> res == Err(SyntaxError)) &&
              (Field(outer, "body").Some? ==>
                 var inner := c.parse(ToJsString(Field(outer, "body").value));
                 (inner.None? ==> res == Err(SyntaxError)) && (inner.Some? ==> res == Ok(inner.value)))
  {
    if !IsOk(r.status) then Err(HttpError(r.status))
    else
      match c.parse(r.text)
      case None => Err(SyntaxError)
      case Some(outer) =>
        if outer == Null then Err(TypeError)
        else
          match BodyOf(outer)
          case None => Err(SyntaxError)
          case Some(b) =>
            match c.parse(ToJsString(b))
            case None => Err(SyntaxError)
            case Some(v) => Ok(v)
  }

  /** The envelope a listing endpoint returns for a payload: an object whose
      `body` member is the payload serialised to a string, beside any other
      members (`statusCode`, `headers`). */
  function EnvelopeText(c: Codec, others: map<string, Json>, payload: Json): string {
    c.stringify(Obj(others["body" := Str(c.stringify(payload))]))
  }

  /** Double decoding inverts double encoding: an ok response carrying an
      envelope yields exactly the payload, whatever else the envelope holds. */
  lemma EnvelopeRoundTrip(c: Codec, status: int, others: map<string, Json>, payload: Json)
    requires Lawful(c)
    requires IsOk(status)
    ensures FetchPayload(c, Response(status, EnvelopeText(c, others, payload))) == Ok(payload)
  {
    var outer := Obj(others["body" := Str(c.stringify(payload))]);
    assert c.parse(c.stringify(outer)) == Some(outer);
    assert BodyOf(outer) == Some(Str(c.stringify(payload)));
    assert c.parse(c.stringify(payload)) == Some(payload);
  }

  /** A `body` whose text is not JSON fails the fetch with a decode error,
      even though the outer envelope parsed. */
  lemma InnerParseFailure(c: Codec, status: int, others: map<string, Json>, inner: string)
    requires Lawful(c)
    requires IsOk(status)
    requires c.parse(inner).None?
    ensures FetchPayload(c, Response(status, c.stringify(Obj(others["body" := Str(inner)])))) == Err(SyntaxError)
  {
    var outer := Obj(others["body" := Str(inner)]);
    assert c.parse(c.stringify(outer)) == Some(outer);
  }

  /** An envelope without a `body` member fails: `JSON.parse(undefined)` throws. */
  lemma MissingBodyFailure(c: Codec, status: int, fields: map<string, Json>)
    requires Lawful(c)
    requires IsOk(status)
    requires "body" !in fields
    ensures FetchPayload(c, Response(status, c.stringify(Obj(fields)))) == Err(SyntaxError)
  {
    assert c.parse(c.stringify(Obj(fields))) == Some(Obj(fields));
  }

  /** An outer `null` fails with a TypeError when `.body` is read. */
  lemma NullEnvelopeFailure(c: Codec, status: int)
    requires Lawful(c)
    requires IsOk(status)
    ensures FetchPayload(c, Response(status, c.stringify(Null))) == Err(TypeError)
  {
    assert c.parse(c.stringify(Null)) == Some(Null);
  }
}
