/**
 * The HTTP/1.1 Communauto route handler (`GET /api/communauto/http1`): the same
 * provider URL fetched with HTTP/1.1-style headers; failures answer 500 with
 * `error`, `details`, `timestamp` and `url`.
 */
module CommunautoHttp1Route {

  import opened Wrappers
  import Json
  import Http
  import Text
  import ProviderUrl

  const ErrorText := "Erreur lors de la récupération des véhicules Communauto (HTTP/1.1)"

  /** The 500 body: the fixed error text, the details, the time of the failure and the request URL. */
  function ErrorBody(details: string, timestamp: string, requestUrl: string): Json.Value
  {
    Json.Object(map["error" := Json.Str(ErrorText), "details" := Json.Str(details),
                    "timestamp" := Json.Str(timestamp), "url" := Json.Str(requestUrl)])
  }

  /** The message thrown for a non-OK reply; the body text is read before throwing. */
  function HttpErrorMessage(status: int, statusText: string, body: string): string
  {
    "Erreur HTTP: " + Text.IntToString(status) + " " + statusText + " - " + body
  }

  /**
   * `upstream` is what fetching `apiUrl` produced, `parseJson` stands for
   * `response.json()`, `timestamp` for `new Date().toISOString()` and
   * `requestUrl` for the handler's own `url.toString()`. Logging
   * `data.totalNbVehicles` throws on a `null` body.
   */
  method Get(query: ProviderUrl.Query, requestUrl: string, timestamp: string,
             upstream: Http.Upstream, parseJson: string -> Result<Json.Value>)
    returns (apiUrl: string, response: Http.Response)
    ensures apiUrl == ProviderUrl.Url(ProviderUrl.CityId(query), ProviderUrl.Bounds(query))
    ensures response.status == 200 <==>
              upstream.Reply? && Http.IsOk(upstream.status) && parseJson(upstream.body).Success? &&
              !parseJson(upstream.body).value.Null?
    ensures response.status == 200 ==> response.body == parseJson(upstream.body).value
    ensures response.status != 200 ==> response.status == 500
    ensures upstream.Rejected? ==> response.body == ErrorBody(Http.Details(upstream.thrown), timestamp, requestUrl)
    ensures upstream.Reply? && !Http.IsOk(upstream.status) ==>
              response.body == ErrorBody(HttpErrorMessage(upstream.status, upstream.statusText, upstream.body), timestamp, requestUrl)
    ensures upstream.Reply? && Http.IsOk(upstream.status) && parseJson(upstream.body).Failure? ==>
              response.body == ErrorBody(parseJson(upstream.body).message, timestamp, requestUrl)
    ensures upstream.Reply? && Http.IsOk(upstream.status) && parseJson(upstream.body) == Success(Json.Null) ==>
              response.body == ErrorBody(Json.NullReadMessage("totalNbVehicles"), timestamp, requestUrl)
  {
    var cityId := ProviderUrl.CityId(query);
    apiUrl := ProviderUrl.BuildApiUrl(cityId, ProviderUrl.Bounds(query));
    match upstream {
      case Rejected(thrown) =>
        response := Http.Response(500, ErrorBody(Http.Details(thrown), timestamp, requestUrl));
      case Reply(status, statusText, body) =>
        if !Http.IsOk(status) {
          response := Http.Response(500, ErrorBody(HttpErrorMessage(status, statusText, body), timestamp, requestUrl));
        } else {
          match parseJson(body) {
            case Failure(message) => response := Http.Response(500, ErrorBody(message, timestamp, requestUrl));
            case Success(data) =>
              if data.Null? {
                response := Http.Response(500, ErrorBody(Json.NullReadMessage("totalNbVehicles"), timestamp, requestUrl));
              } else {
                response := Http.Response(200, data);
              }
          }
        }
    }
  }
}
