/**
 * The `Client` of the Raynet CRM API: credentials fixed at construction
 * and one operation, `MakeRequest`.  The network round trip is not part of
 * the model: the request the method assembles is returned, and the status
 * code and decoded body curl would report are parameters.
 */
module RaynetClient {
  import opened Wrappers
  import opened PhpJson
  import opened RaynetRequest
  import opened RaynetClassifier

  class Client {
    /** Written once by the constructor; `const` makes "never modified" a fact of the type. */
    const username: string
    const apiKey: string
    const instanceName: string

    constructor (username: string, apiKey: string, instanceName: string)
      ensures this.username == username && this.apiKey == apiKey && this.instanceName == instanceName
    {
      this.username := username;
      this.apiKey := apiKey;
      this.instanceName := instanceName;
    }

    /**
     * One call of `makeRequest`: `sent` is what curl is asked to send and
     * `outcome` is the returned array or the thrown exception, given the
     * `status` and the decoded body the transport produced.  The
     * credentials and the instance header depend on the client alone, so
     * every call from one client attaches them identically.
     */
    method MakeRequest(
      httpMethod: string, url: string,
      postFields: seq<Member>, queryParameters: seq<(string, string)>,
      status: int, decoded: Option<seq<Member>>)
      returns (sent: CurlRequest, outcome: Outcome)
      ensures sent.httpMethod == httpMethod && sent.userAgent == UserAgent
      ensures RelativePath(sent.url) == Some(url)
      ensures SplitAtColon(sent.userPwd) == Some((username, apiKey)) || ':' in username
      ensures sent.userPwd == UserPwd(username, apiKey)
      ensures sent.headers == [InstanceHeader(instanceName)]
      ensures |queryParameters| != 0 ==> sent.payload == FormPayload(queryParameters)
      ensures |queryParameters| == 0 && |postFields| != 0 ==> sent.payload == JsonPayload(postFields)
      ensures |queryParameters| == 0 && |postFields| == 0 ==> sent.payload == NoPayload
      ensures outcome == Classify(status, decoded)
    {
      var payload := SelectPayload(postFields, queryParameters);
      sent := CurlRequest(httpMethod, RequestUrl(url), UserPwd(username, apiKey),
                          [InstanceHeader(instanceName)], UserAgent, payload);
      RelativePathOfRequestUrl(url, sent.url);
      if ':' !in username {
        UserPwdRoundTrip(username, apiKey);
      }

      var result := BodyValue(decoded);
      if status != 200 && status != 201 {
        if status == 404 {
          return sent, NotFound;
        } else if status == 401 {
          return sent, InvalidAuthorization;
        } else if status == 400 {
          if Get(result, "success") == JString("false") {
            var found := FindFirstError(Elements(Get(result, "results")));
            if found.Some? {
              return sent, RequestError(found.value);
            }
          }
        }
      }

      if !Truthy(result) {
        return sent, Success([]);
      }
      if HasKey(decoded.value, "success") && !Truthy(Get(result, "success")) {
        return sent, AnotherError(decoded.value);
      }
      return sent, Success(decoded.value);
    }
  }
}
