/**
 * The main Communauto route handler (`GET /api/communauto`): builds the
 * provider URL, fetches it once, and passes the provider's JSON through, or
 * answers 500 with `error` and `details`.
 */
module CommunautoRoute {

  import opened Wrappers
  import Json
  import Http
  import Text
  import ProviderUrl

  const ErrorText := "Erreur lors de la récupération des véhicules Communauto"

  function ErrorBody(details: string): Json.Value
  {
    Json.Object(map["error" := Json.Str(ErrorText), "details" := Json.Str(details)])
  }

  /**
   * `upstream` is what fetching `apiUrl` produced and `parseJson` stands for
   * `response.json()` on the body text (a SyntaxError becomes `Failure`).
   * Logging `data.totalNbVehicles` throws on a `null` body.
   */
  method Get(query: ProviderUrl.Query, upstream: Http.Upstream, parseJson: string -> Result<Json.Value>)
    returns (apiUrl: string, response: Http.Response)
    ensures apiUrl == ProviderUrl.Url(ProviderUrl.CityId(query), ProviderUrl.Bounds(query))
    ensures response.status == 200 <==>
              upstream.Reply? && Http.IsOk(upstream.status) && parseJson(upstream.body).Success? &&
              !parseJson(upstream.body).value.Null?
    ensures response.status == 200 ==> response.body == parseJson(upstream.body).value
    ensures response.status != 200 ==> response.status == 500
    ensures upstream.Rejected? ==> response.body == ErrorBody(Http.Details(upstream.thrown))
    ensures upstream.Reply? && !Http.IsOk(upstream.status) ==>
              response.body == ErrorBody("Erreur HTTP: " + Text.IntToString(upstream.status) + " " + upstream.statusText)
    ensures upstream.Reply? && Http.IsOk(upstream.status) && parseJson(upstream.body).Failure? ==>
              response.body == ErrorBody(parseJson(upstream.body).message)
    ensures upstream.Reply? && Http.IsOk(upstream.status) && parseJson(upstream.body) == Success(Json.Null) ==>
              response.body == ErrorBody(Json.NullReadMessage("totalNbVehicles"))
  {
    var cityId := ProviderUrl.CityId(query);
    apiUrl := ProviderUrl.BuildApiUrl(cityId, ProviderUrl.Bounds(query));
    match upstream {
      case Rejected(thrown) =>
        response := Http.Response(500, ErrorBody(Http.Details(thrown)));
      case Reply(status, statusText, body) =>
        if !Http.IsOk(status) {
          response := Http.Response(500, ErrorBody("Erreur HTTP: " + Text.IntToString(status) + " " + statusText));
        } else {
          match parseJson(body) {
            case Failure(message) => response := Http.Response(500, ErrorBody(message));
            case Success(data) =>
              if data.Null? {
                response := Http.Response(500, ErrorBody(Json.NullReadMessage("totalNbVehicles")));
              } else {
                response := Http.Response(200, data);
              }
          }
        }
    }
  }
}
