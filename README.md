# Raynet client: request assembly and response classification

This project models the client of the Raynet CRM REST API (`EcomailRaynet\Client`).
A client holds a user name, an API key and an instance name, all fixed when it is
constructed. `makeRequest` does the rest:

- it builds one curl request: the URL is the fixed origin `https://app.raynet.cz/`
  followed by the relative path, Basic authentication uses `user:key`, the
  `X-Instance-Name` header carries the instance, and the user agent is fixed;
- it fills the single payload slot: a JSON-encoded body is written first and
  form-encoded parameters second, so the last write wins;
- it turns the HTTP status and the JSON-decoded body into a returned array or
  one of four exceptions: `NotFound`, `InvalidAuthorization`, `RequestError(message)`
  and `AnotherError(body)`.

The project also models the issue collector `Report` of php-code-fixer, a dependency
of the repository. A report has a title and records issues per PHP version. Before it
records an issue, it strips an optional leading path from the issue's file name,
ignoring ASCII case.

Modules:

- `Wrappers`: the `Option` type.
- `PhpJson`: PHP arrays decoded from JSON (objects keep member order), PHP's
  boolean conversion, reading a key, and the values `foreach` visits.
- `RaynetRequest`: the URL, the credentials string and the header, each paired with
  the function that reads it back, and the payload slot's last-writer-wins rule.
- `RaynetClassifier`: the status and body decision as functions, the nested
  first-error walk as a loop, and the lemmas.
- `RaynetClient`: the `Client` class. Its credentials are `const`. `MakeRequest`
  is proved to build the request above and to return `Classify(status, body)`.
- `CodeFixerReport`: the `Report` class, with its mutable `records` map.

Other revisions of this client add `InstanceNotFound` on 404, `RequestLimitReached` from a `type` field, and a
`RequestError` for a 400 without `success`. The revision modelled here has none of
these, so the model follows the code:

- 404 is always `NotFound`.
- There is no rate-limit check.
- A 400 without `success`, or whose `success` is anything but the string `"false"`,
  falls through to the body checks.

## Model

| member | source | states |
|---|---|---|
| `PhpJson.Find` | src/Client.php:107 | a value is found exactly when some member has the key (`array_key_exists`), and it is that member's value |
| `PhpJson.Get` | src/Client.php:91 | `$v['key']` is the stored member's value for an array holding the key, and null otherwise |
| `RaynetRequest.RelativePathOfRequestUrl` | src/Client.php:67 | the path is recovered from the URL, and every URL under the origin is the URL of the path it yields |
| `RaynetRequest.SplitAtColon` | src/Client.php:62 | splitting at the first colon gives a colon-free head and the rest, and None exactly when there is no colon |
| `RaynetRequest.SplitAtColonJoin` | src/Client.php:62 | joining a colon-free head and any tail with a colon, then splitting, gives both parts back |
| `RaynetRequest.UserPwdRoundTrip` | src/Client.php:62 | a user name without a colon and the API key are read back from the Basic-auth string |
| `RaynetRequest.InstanceHeaderRoundTrip` | src/Client.php:63-65 | the value of the `X-Instance-Name` header is exactly the instance name |
| `RaynetRequest.SelectPayload` | src/Client.php:71-77 | the payload is the form parameters when there are any, else the JSON fields when there are any, else nothing |
| `RaynetClassifier.FirstErrorIsFirst` | src/Client.php:92-96 | the reported message is the first error of the first result that has any errors; no later error is reported |
| `RaynetClassifier.FirstErrorNone` | src/Client.php:92-96 | the walk finds nothing exactly when every result's `errors` is empty or is not an array |
| `RaynetClassifier.FirstErrorOfConcat` | src/Client.php:92-96 | once an error is found in a prefix of the results, the results after it have no influence |
| `RaynetClassifier.FindFirstError` | src/Client.php:92-96 | the nested loops return the first-error message the walk specifies |
| `RaynetClassifier.Classify` | src/Client.php:82-111 | a success returns the decoded body or an empty array; AnotherError carries the non-empty body unchanged; no status error is raised for 200 or 201 |
| `RaynetClassifier.NotFoundWhateverBody` | src/Client.php:84-86 | 404 gives NotFound for every body |
| `RaynetClassifier.InvalidAuthorizationWhateverBody` | src/Client.php:88-90 | 401 gives InvalidAuthorization for every body |
| `RaynetClassifier.BadRequestReportsFirstError` | src/Client.php:90-96 | a 400 with `success` equal to the string "false" gives RequestError with the first error's message |
| `RaynetClassifier.FallThrough` | src/Client.php:82-101 | the status branch lets control through in three cases, and the body checks then decide alone: 400 with `success` absent or not the string "false", 400 with no error anywhere, and every status other than 400, 401 and 404 |
| `RaynetClassifier.BadRequestWithoutErrorsSucceeds` | src/Client.php:90-111 | a 400 with `success` "false" and no errors is returned as a success, body unchanged |
| `RaynetClassifier.EmptyBodySucceeds` | src/Client.php:84-105 | an absent body or empty array gives an empty success for every status except 401 and 404 |
| `RaynetClassifier.BodyChecks` | src/Client.php:103-111 | for a non-empty body the status branch let through: a `success` key with a falsy value gives AnotherError carrying the body; any other body is returned unchanged |
| `RaynetClassifier.StrictAndLooseFalse` | src/Client.php:91-109 | a 400 with `success` equal to the string "false" never gives AnotherError, but a 400 with boolean false `success` does |
| `RaynetClient.Client.constructor` | src/Client.php:36-41 | the three credentials are stored as given; they are `const` and never change |
| `RaynetClient.Client.MakeRequest` | src/Client.php:54-112 | the request carries the method, the origin-prefixed URL, `user:key`, the instance header, the user agent and the selected payload; the outcome is `Classify(status, body)` |
| `CodeFixerReport.StoredFile` | vendor/wapmorgan/php-code-fixer/src/Report.php:37-38 | the stored file is a suffix of the file: verbatim with no removable path or no case-insensitive prefix match, and shorter by the prefix's length on a match |
| `CodeFixerReport.StoredFileRelative` | vendor/wapmorgan/php-code-fixer/src/Report.php:37-38 | a file that starts with the removable path in any ASCII case is stored as the rest after it |
| `CodeFixerReport.ShortFileVerbatim` | vendor/wapmorgan/php-code-fixer/src/Report.php:37 | a file shorter than the removable path is stored verbatim |
| `CodeFixerReport.Report.constructor` | vendor/wapmorgan/php-code-fixer/src/Report.php:6-24 | a new report has no records and keeps the title and the optional removable path as given |
| `CodeFixerReport.Report.Add` | vendor/wapmorgan/php-code-fixer/src/Report.php:36-40 | one issue `[type, text, replacement, stored file, line]` is appended to its version's list; other versions and earlier issues are unchanged |
| `CodeFixerReport.Report.GetIssues` | vendor/wapmorgan/php-code-fixer/src/Report.php:46-48 | returns the records; no state changes |
| `CodeFixerReport.Report.GetTitle` | vendor/wapmorgan/php-code-fixer/src/Report.php:54-57 | returns the constructor's title; no state changes |

## Left out

- The curl transport is not modelled. That covers options, execution, TLS, redirects, timeouts, a failed `curl_exec` and `curl_getinfo`. The status code and the decoded body are parameters of `MakeRequest`.
- `CURLOPT_HTTPAUTH`, `CURLOPT_FOLLOWLOCATION` and `CURLOPT_RETURNTRANSFER` are transport flags and are not recorded in the request.
- `json_encode`, `http_build_query` and `json_decode` are library encoders. The payload records which encoder was applied to which argument. The decoded body is an abstract value: absent, or the members of a top-level object.
- A top-level JSON scalar or non-empty list is not modelled; the only decoded bodies are absent and objects.
- JSON numbers beyond PHP's integer range (decoded as floats) are not modelled. Neither is PHP's conversion of numeric-string object keys to integer keys.
- Duplicate keys in a decoded object are not modelled. `json_decode` keeps the last value; the model's lookup takes the first.
- PHP string-offset semantics are not modelled. Reading `$x['errors']` or `$x['message']` on a string, and PHP's diagnostics, are left out. Such a read, like a read on null, a number or a list, yields null here.
- `RaynetClassifier.Outcome`: `RequestError` carries `$error['message']` as a decoded value. The exception constructor's string type check under strict types is not modelled.
- `EcomailRaynetNoEvidenceResult` and `EcomailRaynetSaveFailed` are imported but never thrown, so they have no outcome.
- `CodeFixerReport.Report`: the map of records does not keep the order in which versions were first added; a PHP array does. The order of issues within one version is kept.
- `CodeFixerReport.StartsWithIgnoringCase` folds ASCII letters only, as `strncasecmp` does. File names are character sequences, not bytes.
- The slevomat coding-standard sniffs and `ConstantHelper` are not part of this model. They are lint tooling over PHP_CodeSniffer token streams; their behaviour lives in PHP_CodeSniffer's `File` token arrays and in helpers (`TokenHelper`, `NamespaceHelper`, `UseStatementHelper`, `ReferencedNameHelper`) that are outside this model.
