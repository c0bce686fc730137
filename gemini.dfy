/**
 * The generative-AI classifier: reading the stored Gemini key, interpreting
 * the model's answer, and `fetchMusicOrNot`'s bounded retry loop. The HTTP
 * exchange of each attempt is an input (`Http`); waits are recorded in
 * milliseconds instead of being slept.
 */
module Gemini {
  import opened Wrappers
  import opened Values
  import Text

  /** Retries after the first attempt. */
  const RetryCount: nat := 2

  const MissingKeyMessage: string := "Gemini API key is not set. Please configure it in the extension settings."

  /** `getGeminiApiKey`: the value stored in sync storage, or a thrown error when it is missing or falsy. */
  function GetGeminiApiKey(stored: Option<Value>): (r: Result<Value, string>)
    ensures r.Success? <==> TruthyOpt(stored)
    ensures r.Success? ==> r.value == stored.value
    ensures r.Failure? ==> r.error == MissingKeyMessage
  {
    if !TruthyOpt(stored) then Failure(MissingKeyMessage) else Success(stored.value)
  }

  /**
   * One HTTP exchange with the endpoint: the request rejects, the status is
   * not ok, the body is not JSON, or the JSON carries
   * `candidates[0].content.parts[0].text` (None where part of that path is missing).
   */
  datatype Http = NetworkError | NotOk(status: int) | Unreadable | Answer(text: Option<string>)

  /** `askGemini`: the response text (Some(None) for a missing path) or None where it throws. */
  function AskGemini(stored: Option<Value>, http: Http): (r: Option<Option<string>>)
    ensures r.Some? <==> TruthyOpt(stored) && http.Answer?
  {
    match GetGeminiApiKey(stored)
    case Failure(_) => None
    case Success(_) =>
      match http
      case Answer(text) => Some(text)
      case _ => None
  }

  /** The answer of one attempt: Some(b) for a valid `true`/`false`, None for a failed attempt. */
  function Interpret(reply: Option<Option<string>>): (r: Option<bool>)
    ensures r.Some? <==> (reply.Some? && reply.value.Some?
                          && Text.Trim(Text.ToLower(reply.value.value)) in {"true", "false"})
    ensures r == Some(true) <==> (reply.Some? && reply.value.Some?
                                  && Text.Trim(Text.ToLower(reply.value.value)) == "true")
  {
    if reply.None? || reply.value.None? || reply.value.value == "" then None
    else
      var responseText := Text.Trim(Text.ToLower(reply.value.value));
      if responseText == "true" || responseText == "false" then Some(responseText == "true")
      else None
  }

  /** What attempt `k` decides. */
  function Verdict(stored: Option<Value>, http: nat -> Http, k: nat): Option<bool> {
    Interpret(AskGemini(stored, http(k)))
  }

  /**
   * What `fetchMusicOrNot` settles on from attempt `k` onwards, given what
   * each attempt decides: the first valid answer and the number of attempts
   * made, or false after the last attempt.
   */
  function Decide(verdict: nat -> Option<bool>, k: nat): (r: (bool, nat))
    requires k <= RetryCount
    ensures k < r.1
    decreases RetryCount - k
  {
    if verdict(k).Some? then (verdict(k).value, k + 1)
    else if k == RetryCount then (false, k + 1)
    else Decide(verdict, k + 1)
  }

  /**
   * The `try` block of one attempt of `fetchMusicOrNot`: the valid answer, or
   * None where it throws (no key, a failed request, a missing or empty text,
   * or a text other than `true`/`false`).
   */
  method Attempt(stored: Option<Value>, http: Http) returns (answer: Option<bool>)
    ensures answer == Interpret(AskGemini(stored, http))
  {
    var response := AskGemini(stored, http);
    if response.Some? && response.value.Some? && response.value.value != "" {
      var responseText := Text.Trim(Text.ToLower(response.value.value));
      if responseText == "true" || responseText == "false" {
        return Some(responseText == "true");
      }
    }
    return None;
  }

  /** The attempts of one run of `fetchMusicOrNot`. */
  function Verdicts(stored: Option<Value>, http: nat -> Http): nat -> Option<bool> {
    (k: nat) => Verdict(stored, http, k)
  }

  /**
   * `fetchMusicOrNot`: up to `RetryCount + 1` attempts, stopping at the first
   * valid answer, waiting `1000 * (i + 1)` ms after failed attempt `i` unless
   * it was the last; false when every attempt fails.
   */
  method FetchMusicOrNot(stored: Option<Value>, http: nat -> Http) returns (isMusic: bool, attempts: nat, waits: seq<int>)
    ensures (isMusic, attempts) == Decide(Verdicts(stored, http), 0)
    ensures |waits| == attempts - 1
    ensures forall k :: 0 <= k < |waits| ==> waits[k] == 1000 * (k + 1)
  {
    ghost var verdict := Verdicts(stored, http);
    attempts, waits := 0, [];
    var i := 0;
    while i <= RetryCount
      invariant 0 <= i <= RetryCount + 1 && attempts == i
      invariant i <= RetryCount ==> Decide(verdict, 0) == Decide(verdict, i)
      invariant i > RetryCount ==> Decide(verdict, 0) == (false, RetryCount + 1)
      invariant |waits| == (if i > RetryCount then RetryCount else i)
      invariant forall k :: 0 <= k < |waits| ==> waits[k] == 1000 * (k + 1)
    {
      attempts := i + 1;
      var answer := Attempt(stored, http(i));
      assert answer == verdict(i);
      if answer.Some? {
        isMusic := answer.value;
        return;
      }
      if i < RetryCount {
        waits := waits + [1000 * (i + 1)];
      }
      i := i + 1;
    }
    isMusic := false;
  }

  /**
   * The decision is the first valid answer: attempts stop at it, every earlier
   * attempt failed, and the result is true exactly when that answer is `true`.
   */
  lemma {:induction false} DecideIsFirstValidAnswer(verdict: nat -> Option<bool>, k: nat)
    requires k <= RetryCount
    ensures var (isMusic, attempts) := Decide(verdict, k);
      k < attempts <= RetryCount + 1
      && (forall j :: k <= j < attempts - 1 ==> verdict(j).None?)
      && (attempts <= RetryCount ==> verdict(attempts - 1).Some?)
      && (isMusic <==> verdict(attempts - 1) == Some(true))
    decreases RetryCount - k
  {
    if verdict(k).None? && k < RetryCount {
      DecideIsFirstValidAnswer(verdict, k + 1);
    }
  }

  /** Music exactly when some attempt answers `true` and every attempt before it failed. */
  lemma MusicIffFirstValidAnswerIsTrue(verdict: nat -> Option<bool>)
    ensures Decide(verdict, 0).0 <==>
      (exists k :: 0 <= k <= RetryCount && verdict(k) == Some(true)
                   && forall j :: 0 <= j < k ==> verdict(j).None?)
  {
    DecideIsFirstValidAnswer(verdict, 0);
    var (isMusic, attempts) := Decide(verdict, 0);
    if isMusic {
      assert verdict(attempts - 1) == Some(true);
    } else {
      forall k | 0 <= k <= RetryCount && verdict(k) == Some(true)
        ensures !(forall j :: 0 <= j < k ==> verdict(j).None?)
      {
        assert k >= attempts - 1;
        if k > attempts - 1 {
          assert verdict(attempts - 1).Some?;
        }
      }
    }
  }

  /** Without a stored key every attempt fails, so the video is classified as not music after three attempts. */
  lemma MissingKeyMeansNotMusic(stored: Option<Value>, http: nat -> Http, k: nat)
    requires !TruthyOpt(stored)
    ensures GetGeminiApiKey(stored).Failure?
    ensures Verdict(stored, http, k).None?
  {
  }

  /** An answer of `true` in any letter case, with any surrounding whitespace, is a valid "music" verdict. */
  lemma PaddedAnswerIsAccepted(p: string, word: string, q: string)
    requires Text.AllWhitespace(p) && Text.AllWhitespace(q)
    requires Text.ToLower(word) == "true"
    ensures Interpret(Some(Some(p + word + q))) == Some(true)
  {
    TrimmedLowerIsTrue(p, word, q);
  }

  lemma TrimmedLowerIsTrue(p: string, word: string, q: string)
    requires Text.AllWhitespace(p) && Text.AllWhitespace(q)
    requires Text.ToLower(word) == "true"
    ensures Text.Trim(Text.ToLower(p + word + q)) == "true"
  {
    Text.ToLowerConcat(p + word, q);
    Text.ToLowerConcat(p, word);
    LowerKeepsWhitespace(p);
    LowerKeepsWhitespace(q);
    Text.TrimOfPadded(p, "true", q);
  }

  lemma LowerKeepsWhitespace(s: string)
    requires Text.AllWhitespace(s)
    ensures Text.ToLower(s) == s
  {
  }
}
