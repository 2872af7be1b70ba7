/**
 * The relay Communauto route handler (`GET /api/communauto/proxy`): the
 * provider URL is percent-encoded into the URL of an external relay, whose
 * JSON reply carries the provider's body as a string in `contents`.
 */
module CommunautoProxyRoute {

  import opened Wrappers
  import Json
  import Http
  import Text
  import ProviderUrl
  import UriComponent

  const RelayPrefix := "https://api.allorigins.win/get?url="
  const ErrorText := "Erreur lors de la récupération des véhicules Communauto (proxy externe)"
  const InvalidRelayReply := "Réponse invalide du proxy externe"

  function ErrorBody(details: string, timestamp: string, requestUrl: string): Json.Value
  {
    Json.Object(map["error" := Json.Str(ErrorText), "details" := Json.Str(details),
                    "timestamp" := Json.Str(timestamp), "url" := Json.Str(requestUrl)])
  }

  /** `https://api.allorigins.win/get?url=${encodeURIComponent(apiUrl)}`. */
  function RelayUrl(apiUrl: string): string
  {
    RelayPrefix + UriComponent.Encode(apiUrl)
  }

  function RelayErrorMessage(status: int, statusText: string, body: string): string
  {
    "Erreur proxy externe: " + Text.IntToString(status) + " " + statusText + " - " + body
  }

  /** The text `JSON.parse` reads from `contents`: a string as is, anything else through `String(...)`. */
  function ContentsText(contents: Json.Value, toJsString: Json.Value -> string): string
  {
    if contents.Str? then contents.s else toJsString(contents)
  }

  /**
   * `relay` is what fetching `proxyUrl` produced; `parseJson` stands for both
   * `response.json()` and `JSON.parse`, `toJsString` for JavaScript's `String(v)`.
   */
  method Get(query: ProviderUrl.Query, requestUrl: string, timestamp: string, relay: Http.Upstream,
             parseJson: string -> Result<Json.Value>, toJsString: Json.Value -> string)
    returns (apiUrl: string, proxyUrl: string, response: Http.Response)
    ensures apiUrl == ProviderUrl.Url(ProviderUrl.CityId(query), ProviderUrl.Bounds(query))
    ensures proxyUrl == RelayUrl(apiUrl)
    ensures response.status == 200 <==>
              && relay.Reply? && Http.IsOk(relay.status) && parseJson(relay.body).Success?
              && Json.TruthyAccess(Json.Get(parseJson(relay.body).value, "contents"))
              && parseJson(ContentsText(Json.Get(parseJson(relay.body).value, "contents").value, toJsString)).Success?
              && !parseJson(ContentsText(Json.Get(parseJson(relay.body).value, "contents").value, toJsString)).value.Null?
    ensures response.status == 200 ==>
              response.body == parseJson(ContentsText(Json.Get(parseJson(relay.body).value, "contents").value, toJsString)).value
    ensures response.status != 200 ==> response.status == 500
    ensures relay.Rejected? ==> response.body == ErrorBody(Http.Details(relay.thrown), timestamp, requestUrl)
    ensures relay.Reply? && !Http.IsOk(relay.status) ==>
              response.body == ErrorBody(RelayErrorMessage(relay.status, relay.statusText, relay.body), timestamp, requestUrl)
    ensures relay.Reply? && Http.IsOk(relay.status) && parseJson(relay.body).Success? &&
            parseJson(relay.body).value.Null? ==>
              response.body == ErrorBody(Json.NullReadMessage("contents"), timestamp, requestUrl)
    ensures relay.Reply? && Http.IsOk(relay.status) && parseJson(relay.body).Success? &&
            !parseJson(relay.body).value.Null? && !Json.TruthyAccess(Json.Get(parseJson(relay.body).value, "contents")) ==>
              response.body == ErrorBody(InvalidRelayReply, timestamp, requestUrl)
    ensures relay.Reply? && Http.IsOk(relay.status) && parseJson(relay.body).Success? &&
            Json.TruthyAccess(Json.Get(parseJson(relay.body).value, "contents")) &&
            parseJson(ContentsText(Json.Get(parseJson(relay.body).value, "contents").value, toJsString)) == Success(Json.Null) ==>
              response.body == ErrorBody(Json.NullReadMessage("totalNbVehicles"), timestamp, requestUrl)
  {
    var cityId := ProviderUrl.CityId(query);
    apiUrl := ProviderUrl.BuildApiUrl(cityId, ProviderUrl.Bounds(query));
    proxyUrl := RelayPrefix + UriComponent.Encode(apiUrl);
    match relay {
      case Rejected(thrown) =>
        response := Http.Response(500, ErrorBody(Http.Details(thrown), timestamp, requestUrl));
      case Reply(status, statusText, body) =>
        if !Http.IsOk(status) {
          response := Http.Response(500, ErrorBody(RelayErrorMessage(status, statusText, body), timestamp, requestUrl));
          return;
        }
        match parseJson(body) {
          case Failure(message) =>
            response := Http.Response(500, ErrorBody(message, timestamp, requestUrl));
          case Success(proxyData) =>
            var contents := Json.Get(proxyData, "contents");
            if contents.Throws? {
              response := Http.Response(500, ErrorBody(Json.NullReadMessage("contents"), timestamp, requestUrl));
            } else if !Json.TruthyAccess(contents) {
              response := Http.Response(500, ErrorBody(InvalidRelayReply, timestamp, requestUrl));
            } else {
              match parseJson(ContentsText(contents.value, toJsString)) {
                case Failure(message) => response := Http.Response(500, ErrorBody(message, timestamp, requestUrl));
                case Success(data) =>
                  if data.Null? {
                    response := Http.Response(500, ErrorBody(Json.NullReadMessage("totalNbVehicles"), timestamp, requestUrl));
                  } else {
                    response := Http.Response(200, data);
                  }
              }
            }
        }
    }
  }

  /** The relay URL is the fixed prefix followed by the encoded provider URL, which decodes back exactly. */
  lemma RelayUrlDecodes(apiUrl: string)
    ensures |RelayPrefix| <= |RelayUrl(apiUrl)| && RelayUrl(apiUrl)[..|RelayPrefix|] == RelayPrefix
    ensures UriComponent.Decode(RelayUrl(apiUrl)[|RelayPrefix|..]) == Some(apiUrl)
  {
    assert RelayUrl(apiUrl)[|RelayPrefix|..] == UriComponent.Encode(apiUrl);
    UriComponent.DecodeEncode(apiUrl);
  }

  /** After the prefix, the relay URL holds no raw `&`, `=`, `?`, `/` or `:`, so the relay sees one `url` parameter. */
  lemma RelayUrlHasOneParameter(apiUrl: string)
    ensures forall i :: |RelayPrefix| <= i < |RelayUrl(apiUrl)| ==> RelayUrl(apiUrl)[i] !in "&=?/:"
  {
    var e := UriComponent.Encode(apiUrl);
    UriComponent.EncodedHasNoDelimiters(apiUrl);
    forall i | |RelayPrefix| <= i < |RelayUrl(apiUrl)| ensures RelayUrl(apiUrl)[i] !in "&=?/:" {
      assert RelayUrl(apiUrl)[i] == e[i - |RelayPrefix|];
    }
  }
}
