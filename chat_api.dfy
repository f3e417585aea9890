/** The chat_api view: the request-method gate and the response record built from the
    backend's answer. The call to the backend is an input here. */
module ChatApi {
  import opened Common
  import opened ReferenceTag

  /** How the work inside the view's `try` block ended: the API key was missing, a step
      raised an exception (bad request JSON, a failed call, a missing key in the backend's
      reply; `message` is `str(e)`), or the backend answered with its output text. */
  datatype Upstream = NoApiKey | Raised(message: string) | Answered(output: string)

  /** A JsonResponse: HTTP status and the serialised dictionary. */
  datatype JsonResponse = JsonResponse(status: nat, body: JsonObject)

  const PostRequired: string := "POSTリクエストが必要です"
  const KeyMissing: string := "DIFY_API_KEYが設定されていません"
  const ErrorPrefix: string := "エラーが発生しました: "

  /** `chat_api(request)` for a request with the given method, the backend's side of the
      exchange being `upstream`. */
  method HandleChat(requestMethod: string, upstream: Upstream) returns (resp: JsonResponse)
    ensures requestMethod != "POST" ==> resp == JsonResponse(405, map["error" := JStr(PostRequired)])
    ensures requestMethod == "POST" && upstream.NoApiKey? ==>
      resp == JsonResponse(500, map["error" := JStr(KeyMissing)])
    ensures requestMethod == "POST" && upstream.Raised? ==>
      resp == JsonResponse(500, map["error" := JStr(ErrorPrefix + upstream.message)])
    ensures requestMethod == "POST" && upstream.Answered? ==>
      var text := upstream.output;
      resp.status == 200
      && resp.body.Keys == (if Reference(text).Some? then {"response_text", "start_time", "end_time"} else {"response_text"})
      && resp.body["response_text"] == JStr(text)
      && (Reference(text).Some? ==>
            resp.body["start_time"] == JNum(Reference(text).value.0)
            && resp.body["end_time"] == JNum(Reference(text).value.1))
  {
    if requestMethod != "POST" {
      return JsonResponse(405, map["error" := JStr(PostRequired)]);
    }
    match upstream
    case NoApiKey =>
      resp := JsonResponse(500, map["error" := JStr(KeyMissing)]);
    case Raised(message) =>
      resp := JsonResponse(500, map["error" := JStr(ErrorPrefix + message)]);
    case Answered(text) =>
      var responseData: JsonObject := map["response_text" := JStr(text)];
      var timeMatch := Search(text, 0);
      if timeMatch.Some? {
        var startTime := TimeToSeconds(timeMatch.value.first);
        var endTime := TimeToSeconds(timeMatch.value.second);
        responseData := responseData["start_time" := JNum(startTime)];
        responseData := responseData["end_time" := JNum(endTime)];
        assert Reference(text) == Some((startTime, endTime));
        assert responseData.Keys == {"response_text", "start_time", "end_time"};
      } else {
        assert Reference(text).None?;
      }
      resp := JsonResponse(200, responseData);
  }
}
