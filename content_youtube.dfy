/**
 * The content script on YouTube watch pages: whether it has found the main
 * video element (`isInitialized`), the runtime messages it sends, how it
 * answers the background's `CHECK_READY` and `SET_PLAYBACK_RATE` messages,
 * and the retrying rate setter. The page is an input: whether the main video
 * element is present, and per attempt how setting its rate turns out.
 */
module YouTubeContent {
  import opened Wrappers
  import opened Values
  import Text
  import Storage

  /** The runtime messages the background sends to the tab. */
  datatype Message =
    | CheckReady
    | SetPlaybackRate(rate: real, save: Option<bool>, fromDisabledToggle: bool)
    | OtherMessage(kind: string)

  /** What `sendResponse` is given. */
  datatype Reply = Reply(success: bool, error: Option<string>, retrying: bool)

  /** The runtime messages the content script sends. */
  datatype Outgoing = ContentScriptReady | PageNavigation(url: string)

  const NotInitializedError: string := "Content script not initialized"
  const DisabledError: string := "Extension is disabled"
  const RateRetries: nat := 3
  const WatchPath: string := "youtube.com/watch"

  /** The reply as the object literal it is sent as; absent properties are left out. */
  function ReplyValue(r: Reply): (v: Value)
    ensures v.VObject? && "success" in v.fields && v.fields["success"] == VBool(r.success)
  {
    VObject(map["success" := VBool(r.success)]
            + (if r.error.Some? then map["error" := VStr(r.error.value)] else map[])
            + (if r.retrying then map["retrying" := VBool(true)] else map[]))
  }

  /** Reading a reply object back: `success`, `error` and `retrying`, the latter two optional. */
  function ReplyOf(v: Value): (r: Option<Reply>)
    ensures r.Some? ==> v.VObject? && "success" in v.fields && v.fields["success"] == VBool(r.value.success)
  {
    if !v.VObject? || "success" !in v.fields || !v.fields["success"].VBool? then None
    else
      var f := v.fields;
      var error := if "error" in f && f["error"].VStr? then Some(f["error"].s) else None;
      Some(Reply(f["success"].b, error, "retrying" in f && f["retrying"] == VBool(true)))
  }

  /** Every reply reads back as itself. */
  lemma ReplyRoundTrip(r: Reply)
    ensures ReplyOf(ReplyValue(r)) == Some(r)
  {
    var f := ReplyValue(r).fields;
    assert "error" in f <==> r.error.Some?;
    assert "retrying" in f <==> r.retrying;
  }

  /** Every reply is an object, so it is truthy whether or not it reports success. */
  lemma EveryReplyIsTruthy(r: Reply)
    ensures Truthy(ReplyValue(r))
  {
  }

  /** `isDisabledReset`: the 1x reset sent when the extension is being switched off. */
  function IsDisabledReset(rate: real, save: Option<bool>, fromDisabledToggle: bool): (r: bool)
    ensures r ==> rate == 1.0 && save == Some(false)
    ensures !fromDisabledToggle || save != Some(false) ==> !r
  {
    save == Some(false) && rate == 1.0 && fromDisabledToggle
  }

  /** What the page gives on one attempt to set the rate of `video.html5-main-video`. */
  datatype Video = NoVideo | RateRejected | RateAccepted

  /**
   * The course of `setVideoPlaybackRate`: whether the first attempt succeeded
   * (its return value), the delays of the rescheduled attempts, and whether
   * some attempt eventually set the rate.
   */
  datatype RateTrace = RateTrace(immediate: bool, delays: seq<int>, applied: bool)

  function Remaining(retry: nat, maxRetries: nat): nat {
    if retry < maxRetries then maxRetries - retry else 0
  }

  /**
   * `setVideoPlaybackRate(rate, retry, maxRetries)`, where `video(k)` is what
   * the page gives on attempt `k`: a missing element is retried after 500 ms,
   * a failing assignment after 300 ms, while `retry < maxRetries`.
   */
  function SetVideoPlaybackRate(video: nat -> Video, retry: nat, maxRetries: nat): (t: RateTrace)
    ensures t.immediate <==> video(retry) == RateAccepted
    ensures |t.delays| <= Remaining(retry, maxRetries)
    ensures forall r :: retry <= r < retry + |t.delays| ==>
      video(r) != RateAccepted && t.delays[r - retry] == (if video(r) == NoVideo then 500 else 300)
    ensures t.applied <==> video(retry + |t.delays|) == RateAccepted
    ensures !t.applied ==> |t.delays| == Remaining(retry, maxRetries)
    decreases Remaining(retry, maxRetries)
  {
    match video(retry)
    case RateAccepted => RateTrace(true, [], true)
    case _ =>
      if retry < maxRetries then
        var rest := SetVideoPlaybackRate(video, retry + 1, maxRetries);
        var delays := [if video(retry) == NoVideo then 500 else 300] + rest.delays;
        assert delays[1..] == rest.delays;
        RateTrace(false, delays, rest.applied)
      else RateTrace(false, [], false)
  }

  /** Whether answering `m` reads the `extensionEnabled` setting first. */
  predicate ReadsSetting(initialized: bool, m: Message) {
    initialized && m.SetPlaybackRate?
  }

  /**
   * The message listener's answer, given `isInitialized`, the stored
   * `extensionEnabled` value and the page; None where it never responds.
   */
  function Respond(initialized: bool, m: Message, enabledSetting: Option<Value>, video: nat -> Video): (r: Option<Reply>)
    ensures m.CheckReady? ==> r == Some(Reply(initialized, None, false))
    ensures !initialized && !m.CheckReady? ==> r == Some(Reply(false, Some(NotInitializedError), false))
    ensures m.OtherMessage? && initialized ==> r.None?
    ensures ReadsSetting(initialized, m) ==>
              && r.Some?
              && (r.value.success <==> enabledSetting != Some(VBool(false)) || IsDisabledReset(m.rate, m.save, m.fromDisabledToggle))
              && (r.value.success ==> r.value.error.None? && (r.value.retrying <==> video(0) != RateAccepted))
              && (!r.value.success ==> r.value == Reply(false, Some(DisabledError), false))
  {
    if m.CheckReady? then Some(Reply(initialized, None, false))
    else if !initialized then Some(Reply(false, Some(NotInitializedError), false))
    else
      match m
      case SetPlaybackRate(rate, save, fromDisabledToggle) =>
        var isEnabled := enabledSetting != Some(VBool(false));
        if isEnabled || IsDisabledReset(rate, save, fromDisabledToggle) then
          var success := SetVideoPlaybackRate(video, 0, RateRetries).immediate;
          Some(if success then Reply(true, None, false) else Reply(true, None, true))
        else Some(Reply(false, Some(DisabledError), false))
      case OtherMessage(_) => None
  }

  /** The disabling reset is applied even though the stored setting says the extension is off. */
  lemma DisabledResetIsApplied(video: nat -> Video)
    ensures var r := Respond(true, SetPlaybackRate(1.0, Some(false), true), Some(VBool(false)), video);
      r.Some? && r.value.success
  {
  }

  /** Any other rate change is refused while the extension is off. */
  lemma RateChangeRefusedWhenDisabled(rate: real, save: Option<bool>, fromDisabledToggle: bool, video: nat -> Video)
    requires !IsDisabledReset(rate, save, fromDisabledToggle)
    ensures Respond(true, SetPlaybackRate(rate, save, fromDisabledToggle), Some(VBool(false)), video)
      == Some(Reply(false, Some(DisabledError), false))
  {
  }

  /** How the background answers a `PAGE_NAVIGATION` notification. */
  datatype NavigationAck = Acknowledged | NotAcknowledged | SendRejected

  class ContentScript {
    var isInitialized: bool
    /** The runtime messages sent so far, oldest first. */
    var outbox: seq<Outgoing>

    /** Initialized implies that the readiness message has been sent. */
    predicate Valid()
      reads this
    {
      isInitialized ==> ContentScriptReady in outbox
    }

    constructor()
      ensures !isInitialized && outbox == []
      ensures Valid()
    {
      isInitialized := false;
      outbox := [];
    }

    /** `findAndInitializeVideo`: the readiness message goes out only on the transition to initialized. */
    method FindAndInitializeVideo(videoPresent: bool) returns (found: bool)
      requires Valid()
      modifies this
      ensures Valid()
      ensures found == videoPresent
      ensures isInitialized == (old(isInitialized) || videoPresent)
      ensures outbox == old(outbox) + (if videoPresent && !old(isInitialized) then [ContentScriptReady] else [])
    {
      if videoPresent {
        if !isInitialized {
          isInitialized := true;
          outbox := outbox + [ContentScriptReady];
        }
        return true;
      }
      return false;
    }

    /**
     * `tryInitialize(maxAttempts)`, where `probe(i)` says whether the element
     * is present at attempt `i`: a 500 ms wait follows every failed attempt.
     */
    method TryInitialize(probe: nat -> bool, maxAttempts: int) returns (attempts: nat, waits: seq<int>)
      requires Valid()
      modifies this
      ensures Valid()
      ensures attempts <= (if maxAttempts < 0 then 0 else maxAttempts)
      ensures forall k :: 0 <= k < attempts - 1 ==> !probe(k)
      ensures attempts > 0 && probe(attempts - 1) ==> |waits| == attempts - 1
      ensures !(attempts > 0 && probe(attempts - 1)) ==> |waits| == attempts && attempts == (if maxAttempts < 0 then 0 else maxAttempts)
      ensures forall k :: 0 <= k < |waits| ==> waits[k] == 500
      ensures var found := attempts > 0 && probe(attempts - 1);
        isInitialized == (old(isInitialized) || found)
        && outbox == old(outbox) + (if found && !old(isInitialized) then [ContentScriptReady] else [])
    {
      attempts, waits := 0, [];
      var i := 0;
      while i < maxAttempts
        invariant 0 <= i && attempts == i && |waits| == i
        invariant i <= (if maxAttempts < 0 then 0 else maxAttempts)
        invariant forall k :: 0 <= k < i ==> !probe(k)
        invariant forall k :: 0 <= k < |waits| ==> waits[k] == 500
        invariant isInitialized == old(isInitialized) && outbox == old(outbox)
        invariant Valid()
      {
        attempts := i + 1;
        var found := FindAndInitializeVideo(probe(i));
        if found {
          return;
        }
        waits := waits + [500];
        i := i + 1;
      }
    }

    /** The video-element observer and the window `load` listener: look again while not initialized. */
    method OnPageChange(videoPresent: bool)
      requires Valid()
      modifies this
      ensures Valid()
      ensures isInitialized == (old(isInitialized) || videoPresent)
      ensures outbox == old(outbox) + (if videoPresent && !old(isInitialized) then [ContentScriptReady] else [])
    {
      if !isInitialized {
        var _ := FindAndInitializeVideo(videoPresent);
      }
    }

    /**
     * `handleNavigation`: forget the old page, look for the element at once,
     * then notify the background, a second time only when it did not
     * acknowledge (a rejected notification is not repeated).
     */
    method HandleNavigation(videoPresent: bool, url: string, ack: NavigationAck)
      requires Valid()
      modifies this
      ensures Valid()
      ensures isInitialized == videoPresent
      ensures outbox == old(outbox) + (if videoPresent then [ContentScriptReady] else [])
        + [PageNavigation(url)] + (if ack == NotAcknowledged then [PageNavigation(url)] else [])
    {
      isInitialized := false;
      var _ := FindAndInitializeVideo(videoPresent);
      outbox := outbox + [PageNavigation(url)];
      if ack == NotAcknowledged {
        outbox := outbox + [PageNavigation(url)];
      }
    }

    /** The navigation observer: only watch pages start a navigation. */
    method OnLocationChange(url: string, videoPresent: bool, ack: NavigationAck)
      requires Valid()
      modifies this
      ensures Valid()
      ensures !Text.Contains(url, WatchPath) ==> isInitialized == old(isInitialized) && outbox == old(outbox)
      ensures Text.Contains(url, WatchPath) ==> isInitialized == videoPresent
      ensures Text.Contains(url, WatchPath) ==>
        outbox == old(outbox) + (if videoPresent then [ContentScriptReady] else [])
          + [PageNavigation(url)] + (if ack == NotAcknowledged then [PageNavigation(url)] else [])
    {
      if Text.Contains(url, WatchPath) {
        HandleNavigation(videoPresent, url, ack);
      }
    }

    /** The message listener; the `extensionEnabled` lookup goes through `store`. */
    method OnMessage(m: Message, store: Storage.StorageManager, video: nat -> Video) returns (reply: Option<Reply>)
      modifies store`web
      ensures ReadsSetting(isInitialized, m) ==>
        reply == Respond(isInitialized, m, old(Storage.GetSpec(store.ctx, store.State(), "extensionEnabled")).result, video)
        && store.State() == old(Storage.GetSpec(store.ctx, store.State(), "extensionEnabled")).after
      ensures !ReadsSetting(isInitialized, m) ==>
        reply == Respond(isInitialized, m, None, video) && store.State() == old(store.State())
    {
      if m.CheckReady? {
        return Some(Reply(isInitialized, None, false));
      }
      if !isInitialized {
        return Some(Reply(false, Some(NotInitializedError), false));
      }
      match m
      case SetPlaybackRate(rate, save, fromDisabledToggle) =>
        var isDisabledReset := IsDisabledReset(rate, save, fromDisabledToggle);
        var extensionEnabled := store.Get("extensionEnabled");
        var isEnabled := extensionEnabled != Some(VBool(false));
        if isEnabled || isDisabledReset {
          var success := SetVideoPlaybackRate(video, 0, RateRetries).immediate;
          if success {
            reply := Some(Reply(true, None, false));
          } else {
            reply := Some(Reply(true, None, true));
          }
        } else {
          reply := Some(Reply(false, Some(DisabledError), false));
        }
      case OtherMessage(_) =>
        reply := None;
    }
  }
}
