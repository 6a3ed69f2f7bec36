/**
 * The request that `Client::makeRequest` assembles before handing it to
 * curl: the absolute URL, the Basic-auth `user:key` string, the instance
 * header, a fixed user agent and the one payload slot (CURLOPT_POSTFIELDS)
 * that the JSON body and the form-encoded parameters both write to.
 */
module RaynetRequest {
  import opened Wrappers
  import opened PhpJson

  /** The fixed API origin every relative path is appended to. */
  const Origin := "https://app.raynet.cz/"

  const InstanceHeaderName := "X-Instance-Name"

  const UserAgent := "Ecomail.cz Raynet client (https://github.com/Ecomailcz/raynet-client)"

  /**
   * The value in the payload slot.  `json_encode` and `http_build_query`
   * are library encoders, so the slot records which encoder was applied to
   * which argument rather than the bytes it produced.
   */
  datatype Payload =
    | NoPayload
    | JsonPayload(postFields: seq<Member>)
    | FormPayload(queryParameters: seq<(string, string)>)

  /** The curl options the method sets, as one value. */
  datatype CurlRequest = CurlRequest(
    httpMethod: string,
    url: string,
    userPwd: string,
    headers: seq<string>,
    userAgent: string,
    payload: Payload)

  /** The absolute URL for a relative path: the origin followed by the path, unchanged. */
  function RequestUrl(path: string): (r: string)
    ensures RelativePath(r) == Some(path)
  {
    Origin + path
  }

  /** The relative path of an absolute URL, when the URL lies under the origin. */
  function RelativePath(url: string): Option<string> {
    if |Origin| <= |url| && url[..|Origin|] == Origin then Some(url[|Origin|..]) else None
  }

  /** Every path is recovered from its URL, and every URL under the origin is the URL of its path. */
  lemma RelativePathOfRequestUrl(path: string, url: string)
    ensures RelativePath(RequestUrl(path)) == Some(path)
    ensures RelativePath(url) == Some(path) ==> RequestUrl(path) == url
  {
    if RelativePath(url) == Some(path) {
      assert url == url[..|Origin|] + url[|Origin|..];
    }
  }

  /**
   * The text before and after the first colon of `s`, or None when `s` has
   * no colon.  This is how a Basic-auth `user:password` pair and an HTTP
   * header line are read back.
   */
  function SplitAtColon(s: string): (r: Option<(string, string)>)
    ensures r.None? <==> ':' !in s
    ensures r.Some? ==> ':' !in r.value.0 && s == r.value.0 + ":" + r.value.1
  {
    if |s| == 0 then None
    else if s[0] == ':' then Some(("", s[1..]))
    else
      match SplitAtColon(s[1..])
      case None => None
      case Some((before, after)) => Some(([s[0]] + before, after))
  }

  /** Splitting `a + ":" + b` at its first colon gives back `a` and `b` when `a` has no colon. */
  lemma {:induction false} SplitAtColonJoin(a: string, b: string)
    requires ':' !in a
    ensures SplitAtColon(a + ":" + b) == Some((a, b))
  {
    var s := a + ":" + b;
    if |a| == 0 {
      assert s[0] == ':' && s[1..] == b;
    } else {
      assert s[0] == a[0] && a[0] != ':';
      assert s[1..] == a[1..] + ":" + b;
      SplitAtColonJoin(a[1..], b);
      assert [a[0]] + a[1..] == a;
    }
  }

  /** The CURLOPT_USERPWD value: `sprintf('%s:%s', $username, $apiKey)`. */
  function UserPwd(username: string, apiKey: string): string {
    username + ":" + apiKey
  }

  /**
   * The credential pair is recovered by splitting at the first colon
   * whenever the user name has no colon; a colon inside the user name
   * moves the split (the API key then starts inside the user name).
   */
  lemma UserPwdRoundTrip(username: string, apiKey: string)
    requires ':' !in username
    ensures SplitAtColon(UserPwd(username, apiKey)) == Some((username, apiKey))
  {
    SplitAtColonJoin(username, apiKey);
  }

  /** The only extra header: `'X-Instance-Name: ' . $instanceName`. */
  function InstanceHeader(instanceName: string): string {
    InstanceHeaderName + ": " + instanceName
  }

  /** The value of the header line `line` when its field name is `name`, after the one space the client writes. */
  function HeaderValue(line: string, name: string): Option<string> {
    match SplitAtColon(line)
    case None => None
    case Some((field, rest)) =>
      if field == name && |rest| != 0 && rest[0] == ' ' then Some(rest[1..]) else None
  }

  /** `HeaderValue` reads the instance name back from the header verbatim. */
  lemma InstanceHeaderRoundTrip(instanceName: string)
    ensures HeaderValue(InstanceHeader(instanceName), InstanceHeaderName) == Some(instanceName)
  {
    assert InstanceHeader(instanceName) == InstanceHeaderName + ":" + (" " + instanceName);
    SplitAtColonJoin(InstanceHeaderName, " " + instanceName);
  }

  /**
   * The payload slot after the two guarded `curl_setopt(CURLOPT_POSTFIELDS, ...)`
   * calls: the JSON body is written first, the form parameters second, so
   * the form parameters win whenever there are any.
   */
  method SelectPayload(postFields: seq<Member>, queryParameters: seq<(string, string)>) returns (payload: Payload)
    ensures |queryParameters| != 0 ==> payload == FormPayload(queryParameters)
    ensures |queryParameters| == 0 && |postFields| != 0 ==> payload == JsonPayload(postFields)
    ensures |queryParameters| == 0 && |postFields| == 0 ==> payload == NoPayload
  {
    payload := NoPayload;
    if |postFields| != 0 {
      payload := JsonPayload(postFields);
    }
    if |queryParameters| != 0 {
      payload := FormPayload(queryParameters);
    }
  }
}
