/**
 * How `Client::makeRequest` turns the HTTP status code and the decoded
 * response body into its result: either the body (a PHP array, returned
 * to the caller) or exactly one of the exceptions it throws.
 *
 * The decoded body is what `json_decode($output, true)` produced: None
 * for an empty, undecodable or `null` body, otherwise the members of the
 * top-level object.
 */
module RaynetClassifier {
  import opened Wrappers
  import opened PhpJson

  /** The outcome of one request: a returned array or one thrown exception. */
  datatype Outcome =
    | Success(body: seq<Member>)       // the array makeRequest returns
    | NotFound                         // EcomailRaynetNotFound
    | InvalidAuthorization             // EcomailRaynetInvalidAuthorization
    | RequestError(message: Json)      // EcomailRaynetRequestError($error['message'])
    | AnotherError(body: seq<Member>)  // EcomailRaynetAnotherError($result)

  /** `$result` as a PHP value: null when nothing was decoded. */
  function BodyValue(body: Option<seq<Member>>): Json {
    match body
    case None => JNull
    case Some(ms) => JObject(ms)
  }

  /** The `errors` entries `foreach ($response['errors'] ...)` visits for one result. */
  function ErrorsOf(response: Json): seq<Json> {
    Elements(Get(response, "errors"))
  }

  /**
   * The message of the first error met by the nested walk over the
   * `results` and then each result's `errors`; the walk throws at the first
   * one, so None means no result had any error.
   */
  function FirstError(responses: seq<Json>): Option<Json> {
    if |responses| == 0 then None
    else if |ErrorsOf(responses[0])| != 0 then Some(Get(ErrorsOf(responses[0])[0], "message"))
    else FirstError(responses[1..])
  }

  /** Response `i` is the first one that has an error. */
  ghost predicate IsFirstWithErrors(responses: seq<Json>, i: int) {
    0 <= i < |responses| && |ErrorsOf(responses[i])| != 0 &&
    forall k :: 0 <= k < i ==> |ErrorsOf(responses[k])| == 0
  }

  /** The walk reports the message of the first error of the first result that has errors. */
  lemma {:induction false} FirstErrorIsFirst(responses: seq<Json>, i: int)
    requires IsFirstWithErrors(responses, i)
    ensures FirstError(responses) == Some(Get(ErrorsOf(responses[i])[0], "message"))
  {
    if i != 0 {
      assert |ErrorsOf(responses[0])| == 0;
      assert forall k :: 0 <= k < i - 1 ==> responses[1..][k] == responses[k + 1];
      FirstErrorIsFirst(responses[1..], i - 1);
    }
  }

  /** The walk reports nothing exactly when every result's errors are empty. */
  lemma {:induction false} FirstErrorNone(responses: seq<Json>)
    ensures FirstError(responses).None? <==> forall k :: 0 <= k < |responses| ==> |ErrorsOf(responses[k])| == 0
  {
    if |responses| != 0 {
      FirstErrorNone(responses[1..]);
      assert forall k :: 0 < k < |responses| ==> responses[k] == responses[1..][k - 1];
    }
  }

  /** Once an error is found, the results after it are never looked at. */
  lemma {:induction false} FirstErrorOfConcat(front: seq<Json>, back: seq<Json>)
    ensures FirstError(front + back) == if FirstError(front).Some? then FirstError(front) else FirstError(back)
  {
    if |front| == 0 {
      assert front + back == back;
    } else {
      assert (front + back)[0] == front[0];
      assert (front + back)[1..] == front[1..] + back;
      FirstErrorOfConcat(front[1..], back);
    }
  }

  /**
   * The nested `foreach` loops of the 400 branch: leave at the first error
   * and report its `message`.
   */
  method FindFirstError(responses: seq<Json>) returns (found: Option<Json>)
    ensures found == FirstError(responses)
  {
    var i := 0;
    while i < |responses|
      invariant 0 <= i <= |responses|
      invariant FirstError(responses) == FirstError(responses[i..])
    {
      assert responses[i..][1..] == responses[i + 1..];
      var errors := ErrorsOf(responses[i]);
      if |errors| != 0 {
        return Some(Get(errors[0], "message"));
      }
      i := i + 1;
    }
    return None;
  }

  /**
   * The exception the status branch throws, if any.  Only 404, 401 and a
   * 400 whose `success` is exactly the string "false" and that carries an
   * error throw here; 200, 201 and every other status fall through.
   */
  function StatusError(status: int, body: Option<seq<Member>>): Option<Outcome> {
    if status == 200 || status == 201 then None
    else if status == 404 then Some(NotFound)
    else if status == 401 then Some(InvalidAuthorization)
    else if status == 400 && Get(BodyValue(body), "success") == JString("false") then
      match FirstError(Elements(Get(BodyValue(body), "results")))
      case Some(message) => Some(RequestError(message))
      case None => None
    else None
  }

  /** The checks on the body that run when the status branch threw nothing. */
  function BodyOutcome(body: Option<seq<Member>>): Outcome {
    if !Truthy(BodyValue(body)) then Success([])
    else if HasKey(body.value, "success") && !Truthy(Get(BodyValue(body), "success")) then AnotherError(body.value)
    else Success(body.value)
  }

  /** The whole decision of `makeRequest` once curl has answered. */
  function Classify(status: int, body: Option<seq<Member>>): (r: Outcome)
    ensures r.Success? ==> r.body == [] || body == Some(r.body)
    ensures r.AnotherError? ==> body == Some(r.body) && r.body != []
    ensures r.NotFound? || r.InvalidAuthorization? || r.RequestError? ==> status != 200 && status != 201
  {
    match StatusError(status, body)
    case Some(e) => e
    case None => BodyOutcome(body)
  }

  /** 404 throws NotFound whatever the body holds. */
  lemma NotFoundWhateverBody(body: Option<seq<Member>>)
    ensures Classify(404, body) == NotFound
  {
  }

  /** 401 throws InvalidAuthorization whatever the body holds. */
  lemma InvalidAuthorizationWhateverBody(body: Option<seq<Member>>)
    ensures Classify(401, body) == InvalidAuthorization
  {
  }

  /**
   * A 400 whose `success` is the string "false" throws RequestError with
   * the message of the first error of the first result that has errors;
   * no later error is reported.
   */
  lemma BadRequestReportsFirstError(ms: seq<Member>, i: int)
    requires Get(JObject(ms), "success") == JString("false")
    requires IsFirstWithErrors(Elements(Get(JObject(ms), "results")), i)
    ensures Classify(400, Some(ms)) ==
      RequestError(Get(ErrorsOf(Elements(Get(JObject(ms), "results"))[i])[0], "message"))
  {
    FirstErrorIsFirst(Elements(Get(JObject(ms), "results")), i);
  }

  /**
   * The status branch throws nothing for a 400 whose `success` is missing
   * or anything but the string "false", for a 400 none of whose results has
   * an error, and for every status other than 400, 401 and 404; the body
   * checks then decide alone.
   */
  lemma FallThrough(status: int, body: Option<seq<Member>>)
    requires status != 404 && status != 401
    requires status == 400 ==>
      Get(BodyValue(body), "success") != JString("false") ||
      forall k :: 0 <= k < |Elements(Get(BodyValue(body), "results"))| ==>
        |ErrorsOf(Elements(Get(BodyValue(body), "results"))[k])| == 0
    ensures Classify(status, body) == BodyOutcome(body)
  {
    FirstErrorNone(Elements(Get(BodyValue(body), "results")));
  }

  /** A 400 with `success` "false" but no error at all is returned as a success, body included. */
  lemma BadRequestWithoutErrorsSucceeds(ms: seq<Member>)
    requires Get(JObject(ms), "success") == JString("false")
    requires forall k :: 0 <= k < |Elements(Get(JObject(ms), "results"))| ==>
      |ErrorsOf(Elements(Get(JObject(ms), "results"))[k])| == 0
    ensures Classify(400, Some(ms)) == Success(ms)
  {
    FallThrough(400, Some(ms));
    assert HasKey(ms, "success");
  }

  /**
   * An absent body or an empty array is an empty success for every status
   * the status branch lets through; an absent body has no `success`, so
   * only 401 and 404 ever fail with it.
   */
  lemma EmptyBodySucceeds(status: int, body: Option<seq<Member>>)
    requires body == None || body == Some([])
    ensures Classify(status, body) ==
      if status == 404 then NotFound
      else if status == 401 then InvalidAuthorization
      else Success([])
  {
  }

  /**
   * When the status branch lets a non-empty body through, a `success` key
   * whose value PHP reads as false throws AnotherError carrying the body
   * unchanged, and any other body is returned unchanged.
   */
  lemma BodyChecks(status: int, ms: seq<Member>)
    requires StatusError(status, Some(ms)).None?
    requires |ms| != 0
    ensures HasKey(ms, "success") && !Truthy(Get(JObject(ms), "success")) ==> Classify(status, Some(ms)) == AnotherError(ms)
    ensures !(HasKey(ms, "success") && !Truthy(Get(JObject(ms), "success"))) ==> Classify(status, Some(ms)) == Success(ms)
  {
  }

  /**
   * The 400 branch compares `success` strictly with the string "false",
   * which PHP reads as true: such a body never reaches AnotherError, while
   * a boolean false `success` on a 400 does.
   */
  lemma StrictAndLooseFalse(ms: seq<Member>)
    ensures Get(JObject(ms), "success") == JString("false") ==> !Classify(400, Some(ms)).AnotherError?
    ensures Get(JObject(ms), "success") == JBool(false) ==> Classify(400, Some(ms)) == AnotherError(ms)
  {
  }
}
