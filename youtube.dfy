/**
 * The YouTube Data API category lookup: how `getVideoCategory` turns the
 * stored key and the HTTP exchange into a category id or an error record, and
 * the music-category test. The request itself is an input (`Fetched`).
 */
module YouTubeApi {
  import opened Wrappers
  import opened Values
  import Text

  /** A `YOUTUBE_API_ERROR` record. */
  datatype ApiError = ApiError(code: int, message: string, retryable: bool)

  /** A category id (None is the `NaN` that `parseInt` gives for a non-numeric id) or an error. */
  datatype CategoryResult = Category(id: Option<int>) | Error(error: ApiError)

  /** The JSON body: unreadable (`response.json()` rejects), or `items[0].snippet.categoryId` if present. */
  datatype Body = Unreadable(message: string) | Data(categoryId: Option<string>)

  /** `fetch` either rejects (with an error message) or yields a status and a body. */
  datatype Fetched = FetchRejected(message: string) | Response(status: int, body: Body)

  const MissingKeyMessage: string := "YouTube API key is not set. Please configure it in the extension settings."
  const MusicCategory: int := 10

  /** `getYouTubeApiKey`: the value stored in sync storage, or a thrown error when it is missing or falsy. */
  function GetYouTubeApiKey(stored: Option<Value>): (r: Result<Value, string>)
    ensures r.Success? <==> TruthyOpt(stored)
    ensures r.Success? ==> r.value == stored.value && Truthy(r.value)
    ensures r.Failure? ==> r.error == MissingKeyMessage
  {
    if !TruthyOpt(stored) then Failure(MissingKeyMessage) else Success(stored.value)
  }

  /** `response.ok`. */
  predicate IsOk(status: int) {
    200 <= status <= 299
  }

  /** An ok response that names a (non-empty) category id. */
  predicate HasCategory(f: Fetched) {
    f.Response? && f.status != 403 && IsOk(f.status) && f.body.Data?
    && f.body.categoryId.Some? && f.body.categoryId.value != ""
  }

  function GetVideoCategory(stored: Option<Value>, fetched: Fetched): (r: CategoryResult)
    ensures r.Category? <==> TruthyOpt(stored) && HasCategory(fetched)
    ensures r.Category? ==> r.id == Text.ParseInt10(fetched.body.categoryId.value)
    ensures r.Error? && !r.error.retryable <==>
      TruthyOpt(stored) && fetched.Response? && IsOk(fetched.status) && fetched.body.Data? && !HasCategory(fetched)
    ensures r.Error? && !r.error.retryable ==> r.error == ApiError(404, "Video category not found", false)
    ensures r.Error? && r.error.code == 401 ==> r.error.retryable
    ensures !TruthyOpt(stored) ==> r == Error(ApiError(0, MissingKeyMessage, true))
    ensures TruthyOpt(stored) && fetched.Response? && fetched.status == 403 ==>
      r == Error(ApiError(403, "YouTube API quota exceeded", true))
    ensures TruthyOpt(stored) && fetched.Response? && fetched.status != 403 && !IsOk(fetched.status) ==>
      r == Error(ApiError(fetched.status, "YouTube API request failed", true))
  {
    match GetYouTubeApiKey(stored)
    case Failure(message) => Error(ApiError(0, message, true))
    case Success(apiKey) =>
      if !Truthy(apiKey) then Error(ApiError(401, "YouTube API key not configured", false))
      else
        match fetched
        case FetchRejected(message) => Error(ApiError(0, message, true))
        case Response(status, body) =>
          if status == 403 then Error(ApiError(403, "YouTube API quota exceeded", true))
          else if !IsOk(status) then Error(ApiError(status, "YouTube API request failed", true))
          else
            match body
            case Unreadable(message) => Error(ApiError(0, message, true))
            case Data(id) =>
              if id.None? || id.value == "" then Error(ApiError(404, "Video category not found", false))
              else Category(Text.ParseInt10(id.value))
  }

  /** `isMusicCategory`: category 10 is "Music"; `NaN` is no category. */
  function IsMusicCategory(id: Option<int>): (r: bool)
    ensures r <==> id == Some(MusicCategory)
  {
    match id
    case Some(c) => c == MusicCategory
    case None => false
  }

  /** A response naming category `n` in decimal is read as category `n`; it is music exactly when `n` is 10. */
  lemma CategoryIdRoundTrip(stored: Option<Value>, status: int, n: nat)
    requires TruthyOpt(stored) && IsOk(status)
    ensures var r := GetVideoCategory(stored, Response(status, Data(Some(Text.NatToString(n)))));
      r == Category(Some(n)) && (IsMusicCategory(r.id) <==> n == 10)
  {
    Text.ParseIntOfNatToString(n);
  }
}
