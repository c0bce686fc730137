/**
 * The background service worker: which tabs are watch pages, the toolbar
 * badge, the 28-day classification cache in `chrome.storage.local`, the
 * choice of playback rate, the retrying `tabs.sendMessage` loop with capped
 * backoff, and the title cleanup before classification. Tab events, the
 * classifier and each messaging attempt are inputs.
 */
module Background {
  import opened Wrappers
  import opened Values
  import Text

  /** 28 days in milliseconds. */
  const CacheExpiry: int := 28 * 24 * 60 * 60 * 1000
  const MusicColor: string := "#4CAF50"
  const OtherColor: string := "#808080"
  const MusicText: string := "\U{266A}"
  const OtherText: string := "\U{1F39E}\U{FE0F}"
  const WatchPath: string := "youtube.com/watch"
  const MaxDelay: real := 5000.0

  // ---------------------------------------------------------------- tabs and badge

  /** `isYouTubeTab`. */
  function IsYouTubeTab(url: Option<string>): (r: bool)
    ensures r <==> url.Some? && exists i :: 0 <= i <= |url.value| && Text.OccursAt(url.value, WatchPath, i)
  {
    url.Some? && Text.Contains(url.value, WatchPath)
  }

  datatype Badge = Badge(text: string, color: string)

  /** What `updateBadge(isMusic, visible)` shows. */
  function BadgeFor(isMusic: bool, visible: bool): (b: Badge)
    ensures b.color == if isMusic then MusicColor else OtherColor
    ensures b.text == "" <==> !visible
    ensures visible ==> b.text == if isMusic then MusicText else OtherText
  {
    Badge(if visible then (if isMusic then MusicText else OtherText) else "", if isMusic then MusicColor else OtherColor)
  }

  /** The colour shows the classification even when the text is hidden, and a visible badge shows it twice. */
  lemma BadgeShowsClassification(isMusic: bool, isMusic': bool, visible: bool, visible': bool)
    ensures BadgeFor(isMusic, visible).color == BadgeFor(isMusic, visible').color
    ensures BadgeFor(isMusic, visible).color == BadgeFor(isMusic', visible').color ==> isMusic == isMusic'
    ensures visible && visible' && BadgeFor(isMusic, visible).text == BadgeFor(isMusic', visible').text ==> isMusic == isMusic'
  {
    assert MusicText[0] != OtherText[0];
  }

  /** What a tab activation leads to. */
  datatype Activation = HandlePage(videoId: string) | HideBadge

  /** `onActivated`: `videoId` is the `v` query parameter (None where absent or the URL does not parse). */
  function OnActivated(url: Option<string>, videoId: Option<string>): (a: Activation)
    ensures a.HandlePage? <==> IsYouTubeTab(url) && videoId.Some? && videoId.value != ""
    ensures a.HandlePage? ==> a.videoId == videoId.value
  {
    if IsYouTubeTab(url) && videoId.Some? && videoId.value != "" then HandlePage(videoId.value) else HideBadge
  }

  /** `onUpdated`: the video to process, if any; unlike activation it never hides the badge. */
  function OnUpdated(status: Option<string>, url: Option<string>, videoId: Option<string>): (r: Option<string>)
    ensures r.Some? <==> status == Some("complete") && IsYouTubeTab(url) && videoId.Some? && videoId.value != ""
    ensures r.Some? ==> r == videoId
  {
    if status == Some("complete") && IsYouTubeTab(url) && videoId.Some? && videoId.value != "" then videoId else None
  }

  // ---------------------------------------------------------------- retrying send

  /** How `trySendMessage` ends: a response, a rethrown error, or `undefined` when no attempt is made. */
  datatype SendOutcome<R> = Got(response: R) | Threw | Undefined

  /** `Math.min(delay * 1.5, 5000)`. */
  function NextDelay(d: real): (r: real)
    ensures r <= MaxDelay
    ensures d * 1.5 <= MaxDelay ==> r == d * 1.5
    ensures 0.0 <= d <= MaxDelay ==> d <= r
  {
    if d * 1.5 < MaxDelay then d * 1.5 else MaxDelay
  }

  /** The first `n` waits, starting from `d`. */
  function Delays(d: real, n: nat): seq<real>
    decreases n
  {
    if n == 0 then [] else [d] + Delays(NextDelay(d), n - 1)
  }

  /** The wait before attempt `n`. */
  function DelayAt(d: real, n: nat): real
    decreases n
  {
    if n == 0 then d else DelayAt(NextDelay(d), n - 1)
  }

  lemma {:induction false} DelayAtNext(d: real, n: nat)
    ensures DelayAt(d, n + 1) == NextDelay(DelayAt(d, n))
    decreases n
  {
    if n > 0 {
      DelayAtNext(NextDelay(d), n - 1);
    }
  }

  lemma {:induction false} DelaysSnoc(d: real, n: nat)
    ensures Delays(d, n + 1) == Delays(d, n) + [DelayAt(d, n)]
    decreases n
  {
    if n > 0 {
      DelaysSnoc(NextDelay(d), n - 1);
    }
  }

  /** With the defaults the waits are 2000, 3000, 4500, 5000 and 5000 ms. */
  lemma DefaultDelays()
    ensures Delays(2000.0, 5) == [2000.0, 3000.0, 4500.0, 5000.0, 5000.0]
  {
    assert NextDelay(2000.0) == 3000.0;
    assert NextDelay(3000.0) == 4500.0;
    assert NextDelay(4500.0) == 5000.0;
    assert NextDelay(5000.0) == 5000.0;
  }

  /** From a delay within the cap, the waits never decrease and never exceed 5000 ms. */
  lemma {:induction false} DelaysCapped(d: real, n: nat)
    requires 0.0 <= d <= MaxDelay
    ensures forall k :: 0 <= k < |Delays(d, n)| ==> d <= Delays(d, n)[k] <= MaxDelay
    ensures forall k :: 0 <= k < |Delays(d, n)| - 1 ==> Delays(d, n)[k] <= Delays(d, n)[k + 1]
    decreases n
  {
    if n > 0 {
      DelaysCapped(NextDelay(d), n - 1);
    }
  }

  /** The outcome of `trySendMessage` from attempt `i`, where `attempt(i)` is None when the send rejects. */
  function SendFrom<R>(attempt: nat -> Option<R>, maxRetries: int, i: nat): (r: SendOutcome<R>)
    requires i < maxRetries
    decreases maxRetries - i
  {
    if attempt(i).Some? then Got(attempt(i).value)
    else if i == maxRetries - 1 then Threw
    else SendFrom(attempt, maxRetries, i + 1)
  }

  /** `trySendMessage(tabId, message, maxRetries, initialDelay)`. */
  function SendOutcomeOf<R>(attempt: nat -> Option<R>, maxRetries: int): SendOutcome<R> {
    if maxRetries <= 0 then Undefined else SendFrom(attempt, maxRetries, 0)
  }

  /** The first successful attempt from `i` is the response; with none, the last error is rethrown. */
  lemma {:induction false} SendFromIsFirstSuccess<R>(attempt: nat -> Option<R>, maxRetries: int, i: nat)
    requires i < maxRetries
    ensures SendFrom(attempt, maxRetries, i).Got? <==> exists k :: i <= k < maxRetries && attempt(k).Some?
    ensures SendFrom(attempt, maxRetries, i).Got? ==>
      exists k :: i <= k < maxRetries && attempt(k) == Some(SendFrom(attempt, maxRetries, i).response)
                  && forall j :: i <= j < k ==> attempt(j).None?
    decreases maxRetries - i
  {
    if attempt(i).None? && i < maxRetries - 1 {
      SendFromIsFirstSuccess(attempt, maxRetries, i + 1);
      var r := SendFrom(attempt, maxRetries, i + 1);
      if r.Got? {
        var k :| i + 1 <= k < maxRetries && attempt(k) == Some(r.response) && forall j :: i + 1 <= j < k ==> attempt(j).None?;
        assert forall j :: i <= j < k ==> attempt(j).None?;
      }
    }
  }

  /**
   * The loop of `trySendMessage`: wait, send, return the first response;
   * after a failure grow the delay, except after the last attempt, where the
   * error is rethrown.
   */
  method TrySendMessage<R>(attempt: nat -> Option<R>, maxRetries: int, initialDelay: real)
    returns (outcome: SendOutcome<R>, waits: seq<real>)
    ensures outcome == SendOutcomeOf(attempt, maxRetries)
    ensures waits == Delays(initialDelay, |waits|)
    ensures maxRetries <= 0 ==> waits == []
    ensures maxRetries > 0 ==> 1 <= |waits| <= maxRetries
    ensures forall k :: 0 <= k < |waits| - 1 ==> attempt(k).None?
    ensures outcome.Got? ==> attempt(|waits| - 1) == Some(outcome.response)
    ensures outcome.Threw? ==> |waits| == maxRetries && attempt(maxRetries - 1).None?
  {
    var delay := initialDelay;
    waits := [];
    var i := 0;
    while i < maxRetries
      invariant 0 <= i && (maxRetries > 0 ==> i < maxRetries) && (maxRetries <= 0 ==> i == 0)
      invariant |waits| == i && waits == Delays(initialDelay, i) && delay == DelayAt(initialDelay, i)
      invariant forall k :: 0 <= k < i ==> attempt(k).None?
      invariant maxRetries > 0 ==> SendOutcomeOf(attempt, maxRetries) == SendFrom(attempt, maxRetries, i)
    {
      DelaysSnoc(initialDelay, i);
      waits := waits + [delay];
      match attempt(i)
      case Some(response) =>
        return Got(response), waits;
      case None =>
        if i < maxRetries - 1 {
          DelayAtNext(initialDelay, i);
          delay := NextDelay(delay);
        } else {
          return Threw, waits;
        }
      i := i + 1;
    }
    outcome := Undefined;
  }

  // ---------------------------------------------------------------- title cleanup

  /** `t` is matched in full by `\s*-\s*YouTube`. */
  predicate IsYouTubeTail(t: string) {
    |t| >= 8 && t[|t| - 7..] == "YouTube"
    && var u := t[..|t| - 7];
    var n := Text.TrailingWhitespace(u);
    n > 0 && u[n - 1] == '-' && Text.AllWhitespace(u[..n - 1])
  }

  /** The least `j` in `[i, hi]` with `ok(j)`: the leftmost match of a pattern anchored at the end. */
  function FirstMatch(ok: nat -> bool, i: nat, hi: nat): (r: Option<nat>)
    requires i <= hi
    ensures r.Some? ==> i <= r.value <= hi && ok(r.value) && forall j :: i <= j < r.value ==> !ok(j)
    ensures r.None? ==> forall j :: i <= j <= hi ==> !ok(j)
    decreases hi - i
  {
    if ok(i) then Some(i)
    else if i == hi then None
    else FirstMatch(ok, i + 1, hi)
  }

  /** Where `\s*-\s*YouTube$` matches `s` first, if anywhere. */
  function FindTail(s: string): (r: Option<nat>)
    ensures r.Some? ==> r.value <= |s| && IsYouTubeTail(s[r.value..])
                        && forall j :: 0 <= j < r.value ==> !IsYouTubeTail(s[j..])
    ensures r.None? ==> forall j :: 0 <= j <= |s| ==> !IsYouTubeTail(s[j..])
  {
    var ok := (j: nat) => j <= |s| && IsYouTubeTail(s[j..]);
    var r := FirstMatch(ok, 0, |s|);
    assert forall j: nat :: ok(j) == (j <= |s| && IsYouTubeTail(s[j..]));
    r
  }

  /** `.replace(/\s*-\s*YouTube$/, '')`. */
  function StripYouTubeSuffix(s: string): (r: string)
    ensures |r| <= |s| && r == s[..|r|]
    ensures r == s <==> forall j :: 0 <= j <= |s| ==> !IsYouTubeTail(s[j..])
    ensures r != s ==> IsYouTubeTail(s[|r|..]) && forall j :: 0 <= j < |r| ==> !IsYouTubeTail(s[j..])
  {
    match FindTail(s)
    case Some(i) => s[..i]
    case None => s
  }

  /** `s` starts with `\([0-9]+\)`: a parenthesis, at least one digit, and a closing parenthesis. */
  predicate HasCountMarker(s: string) {
    |s| > 1 && s[0] == '(' && Text.LeadingDigits(s[1..]) > 0
    && 1 + Text.LeadingDigits(s[1..]) < |s| && s[1 + Text.LeadingDigits(s[1..])] == ')'
  }

  /** `.replace(/^\([0-9]+\)\s*\/, '')`: a leading view-count marker such as `(3) `. */
  function StripCountPrefix(s: string): (r: string)
    ensures |r| <= |s| && r == s[|s| - |r|..]
    ensures r != s <==> HasCountMarker(s)
    ensures HasCountMarker(s) ==> r == Text.TrimStart(s[2 + Text.LeadingDigits(s[1..])..])
    ensures r != s ==> |s| > 2 && s[0] == '(' && Text.IsDigit(s[1])
  {
    if s != [] && s[0] == '(' then
      var n := Text.LeadingDigits(s[1..]);
      if n > 0 && 1 + n < |s| && s[1 + n] == ')' then
        var rest := s[2 + n..];
        assert Text.TrimStart(rest) == s[2 + n + Text.LeadingWhitespace(rest)..];
        Text.TrimStart(rest)
      else s
    else s
  }

  /** The title cleanup of `handleYouTubePage`: what is left is a contiguous part of the title. */
  function CleanTitle(title: string): (r: string)
    ensures |r| <= |title|
    ensures Text.OccursAt(title, r, |title| - |StripCountPrefix(title)|)
  {
    var c := StripCountPrefix(title);
    assert |c| <= |title| && c == title[|title| - |c|..];
    var r := StripYouTubeSuffix(c);
    assert |r| <= |c| && r == c[..|r|];
    PrefixOfSuffixOccurs(title, c, r);
    r
  }

  lemma PrefixOfSuffixOccurs(t: string, c: string, r: string)
    requires |c| <= |t| && c == t[|t| - |c|..]
    requires |r| <= |c| && r == c[..|r|]
    ensures Text.OccursAt(t, r, |t| - |c|)
  {
    assert t[|t| - |c|..][..|r|] == t[|t| - |c|..|t| - |c| + |r|];
  }

  /** A count marker `(digits)` and the whitespace after it are dropped, and nothing else. */
  lemma StripsCountMarker(d: string, w: string, x: string)
    requires d != [] && Text.AllDigits(d) && Text.AllWhitespace(w)
    requires x == [] || !Text.IsWhitespace(x[0])
    ensures StripCountPrefix("(" + d + ")" + w + x) == x
  {
    assert "(" + d + ")" + w + x == "(" + d + ")" + (w + x);
    CountMarkerThen(d, w + x);
    Text.LeadingWhitespaceOfPadded(w, x);
  }

  /** `(digits)` followed by anything is a count marker, and what follows it is that rest. */
  lemma CountMarkerThen(d: string, u: string)
    requires d != [] && Text.AllDigits(d)
    ensures HasCountMarker("(" + d + ")" + u)
    ensures Text.LeadingDigits(("(" + d + ")" + u)[1..]) == |d|
    ensures ("(" + d + ")" + u)[2 + |d|..] == u
  {
    var s := "(" + d + ")" + u;
    assert s[1..] == d + (")" + u);
    Text.LeadingDigitsOfDigits(d, ")" + u);
    assert s[1 + |d|] == ')';
    assert s[2 + |d|..] == u;
  }

  lemma DashYouTubeIsTail(w2: string, w3: string)
    requires Text.AllWhitespace(w2) && Text.AllWhitespace(w3)
    ensures IsYouTubeTail(w2 + "-" + w3 + "YouTube")
  {
    var tail := w2 + "-" + w3 + "YouTube";
    var u := w2 + "-" + w3;
    assert tail[..|tail| - 7] == u && tail[|tail| - 7..] == "YouTube";
    Text.TrailingWhitespaceOfPadded(w2 + "-", w3);
    assert u[..|w2|] == w2;
  }

  /** The suffix strip removes the leftmost tail and keeps everything before it. */
  lemma StripsLeftmostTail(t: string, tail: string)
    requires IsYouTubeTail(tail)
    requires forall j :: 0 <= j < |t| ==> !IsYouTubeTail((t + tail)[j..])
    ensures StripYouTubeSuffix(t + tail) == t
  {
    assert (t + tail)[|t|..] == tail;
    var r := StripYouTubeSuffix(t + tail);
    assert |r| == |t|;
    assert r == (t + tail)[..|t|] == t;
  }

  /** Cleanup removes exactly a count marker and a `- YouTube` suffix and keeps the title between them. */
  lemma CleanTitleOfDecorated(d: string, w1: string, t: string, w2: string, w3: string)
    requires d != [] && Text.AllDigits(d)
    requires Text.AllWhitespace(w1) && Text.AllWhitespace(w2) && Text.AllWhitespace(w3)
    requires t != [] && !Text.IsWhitespace(t[0])
    requires forall j :: 0 <= j < |t| ==> !IsYouTubeTail((t + w2 + "-" + w3 + "YouTube")[j..])
    ensures CleanTitle("(" + d + ")" + w1 + t + w2 + "-" + w3 + "YouTube") == t
  {
    var tail := w2 + "-" + w3 + "YouTube";
    assert "(" + d + ")" + w1 + t + w2 + "-" + w3 + "YouTube" == "(" + d + ")" + w1 + (t + tail);
    assert t + w2 + "-" + w3 + "YouTube" == t + tail;
    StripsCountMarker(d, w1, t + tail);
    DashYouTubeIsTail(w2, w3);
    StripsLeftmostTail(t, tail);
  }

  // ---------------------------------------------------------------- cache and rate

  datatype CacheData = CacheData(isMusic: bool, timestamp: int)

  /** What the background keeps: `chrome.storage.local` entries it uses, and the badge shown. */
  datatype BgState = BgState(cache: map<string, CacheData>, lastBadgeState: Option<bool>,
                             defaultPlaybackRate: Option<real>, badge: Option<Badge>)

  /** Whether `chrome.storage.local` reads or writes reject. */
  datatype BgHealth = BgHealth(readFails: bool, writeFails: bool)

  /** `storedData && (now - storedData.timestamp) < CACHE_EXPIRY`. */
  function IsCacheHit(s: BgState, videoId: string, now: int): (r: bool)
    ensures r ==> videoId in s.cache && now < s.cache[videoId].timestamp + CacheExpiry
    ensures videoId !in s.cache ==> !r
  {
    videoId in s.cache && now - s.cache[videoId].timestamp < CacheExpiry
  }

  /** The rate `getVideoRate` returns, whether it consulted the classifier, and the state after it. */
  datatype RateOutcome = RateOutcome(rate: real, asked: bool, after: BgState)

  /** `getVideoRate(videoId, title)` at time `now`, where `classify` stands for `fetchMusicOrNot`. */
  function VideoRateSpec(h: BgHealth, s: BgState, videoId: string, title: string, now: int,
                         classify: string -> bool): (r: RateOutcome)
    ensures r.asked <==> !h.readFails && !IsCacheHit(s, videoId, now)
    ensures h.readFails || h.writeFails ==> r.rate == 1.0 && r.after == s
    ensures !h.readFails && !h.writeFails ==>
      var isMusic := if IsCacheHit(s, videoId, now) then s.cache[videoId].isMusic else classify(title);
      && r.rate == (if isMusic then 1.0 else s.defaultPlaybackRate.GetOr(2.0))
      && r.after.badge == Some(BadgeFor(isMusic, true))
      && r.after.lastBadgeState == Some(isMusic)
      && r.after.defaultPlaybackRate == s.defaultPlaybackRate
    ensures IsCacheHit(s, videoId, now) ==> r.after.cache == s.cache
    ensures !h.readFails && !h.writeFails && !IsCacheHit(s, videoId, now) ==>
      r.after.cache == s.cache[videoId := CacheData(classify(title), now)]
    ensures forall v :: v in s.cache && v != videoId ==> v in r.after.cache && r.after.cache[v] == s.cache[v]
  {
    if h.readFails then RateOutcome(1.0, false, s)
    else
      var hit := IsCacheHit(s, videoId, now);
      var isMusic := if hit then s.cache[videoId].isMusic else classify(title);
      if h.writeFails then RateOutcome(1.0, !hit, s)
      else
        var cache := if hit then s.cache else s.cache[videoId := CacheData(isMusic, now)];
        var after := s.(cache := cache, lastBadgeState := Some(isMusic), badge := Some(BadgeFor(isMusic, true)));
        RateOutcome(if isMusic then 1.0 else s.defaultPlaybackRate.GetOr(2.0), !hit, after)
  }

  /** A classification fetched at `now` is reused until it expires: the next lookup gives the same rate without asking. */
  lemma SecondLookupHitsCache(h: BgHealth, s: BgState, videoId: string, title: string, title': string,
                              now: int, later: int, classify: string -> bool, classify': string -> bool)
    requires !h.readFails && !h.writeFails
    requires !IsCacheHit(s, videoId, now)
    requires now <= later < now + CacheExpiry
    ensures var first := VideoRateSpec(h, s, videoId, title, now, classify);
      var second := VideoRateSpec(h, first.after, videoId, title', later, classify');
      !second.asked && second.rate == first.rate && second.after.cache == first.after.cache
  {
  }

  /** The `CHECK_VIDEO` reply carries a usable title: `success` truthy and a non-empty string `title`. */
  function TitleOf(reply: SendOutcome<Option<Value>>): (r: Option<string>)
    ensures r.Some? <==> (reply.Got? && reply.response.Some? && reply.response.value.VObject?
      && "success" in reply.response.value.fields && Truthy(reply.response.value.fields["success"])
      && "title" in reply.response.value.fields && reply.response.value.fields["title"].VStr?
      && reply.response.value.fields["title"].s != "")
    ensures r.Some? ==> r.value == reply.response.value.fields["title"].s && r.value != ""
  {
    if reply.Got? && reply.response.Some? && reply.response.value.VObject? then
      var f := reply.response.value.fields;
      if "success" in f && Truthy(f["success"]) && "title" in f && f["title"].VStr? && f["title"].s != ""
      then Some(f["title"].s) else None
    else None
  }

  /** `UPDATE_DEFAULT_RATE`: the reply's `success`, or None when there is no active tab id to send to. */
  function UpdateDefaultRateReply(tabId: Option<int>, outcome: SendOutcome<Option<Value>>): (r: Option<bool>)
    ensures r.Some? <==> tabId.Some? && tabId.value != 0
    ensures r == Some(false) <==> tabId.Some? && tabId.value != 0 && outcome.Threw?
  {
    if tabId.Some? && tabId.value != 0 then Some(!outcome.Threw?) else None
  }

  class BackgroundWorker {
    const health: BgHealth
    var cache: map<string, CacheData>
    var lastBadgeState: Option<bool>
    var defaultPlaybackRate: Option<real>
    var badge: Option<Badge>

    function State(): BgState
      reads this
    {
      BgState(cache, lastBadgeState, defaultPlaybackRate, badge)
    }

    constructor (health: BgHealth, initial: BgState)
      ensures this.health == health && State() == initial
    {
      this.health := health;
      cache, lastBadgeState, defaultPlaybackRate, badge :=
        initial.cache, initial.lastBadgeState, initial.defaultPlaybackRate, initial.badge;
    }

    /** `updateBadge`. */
    method UpdateBadge(isMusic: bool, visible: bool)
      modifies this`badge
      ensures badge == Some(BadgeFor(isMusic, visible))
    {
      var text := if visible then (if isMusic then MusicText else OtherText) else "";
      var color := if isMusic then MusicColor else OtherColor;
      badge := Some(Badge(text, color));
    }

    /** `getVideoRate`. */
    method GetVideoRate(videoId: string, title: string, now: int, classify: string -> bool)
      returns (rate: real, asked: bool)
      modifies this
      ensures RateOutcome(rate, asked, State()) == old(VideoRateSpec(health, State(), videoId, title, now, classify))
    {
      if health.readFails {
        return 1.0, false;
      }
      var storedData := if videoId in cache then Some(cache[videoId]) else None;
      var isMusic: bool;
      if storedData.Some? && now - storedData.value.timestamp < CacheExpiry {
        isMusic := storedData.value.isMusic;
        asked := false;
      } else {
        isMusic := classify(title);
        asked := true;
        if health.writeFails {
          return 1.0, asked;
        }
        cache := cache[videoId := CacheData(isMusic, now)];
      }
      if health.writeFails {
        return 1.0, asked;
      }
      lastBadgeState := Some(isMusic);
      UpdateBadge(isMusic, true);
      rate := if isMusic then 1.0 else defaultPlaybackRate.GetOr(2.0);
    }

    /**
     * `handleYouTubePage`: ask the tab for its title, classify the cleaned
     * title, and send the rate; without a usable title nothing further happens.
     */
    method HandleYouTubePage(videoId: string, check: nat -> Option<Option<Value>>, now: int, classify: string -> bool)
      returns (sentRate: Option<real>)
      modifies this
      ensures TitleOf(SendOutcomeOf(check, 5)).None? ==> sentRate.None? && State() == old(State())
      ensures TitleOf(SendOutcomeOf(check, 5)).Some? ==>
        var title := CleanTitle(TitleOf(SendOutcomeOf(check, 5)).value);
        var r := old(VideoRateSpec(health, State(), videoId, title, now, classify));
        sentRate == Some(r.rate) && State() == r.after
    {
      var response, _ := TrySendMessage(check, 5, 2000.0);
      var title := TitleOf(response);
      if title.None? {
        return None;
      }
      var pureTitle := CleanTitle(title.value);
      var rate, _ := GetVideoRate(videoId, pureTitle, now, classify);
      sentRate := Some(rate);
    }
  }
}
