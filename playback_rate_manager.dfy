/**
 * `PlaybackRateManager`: the stored default rate, the enabled/disabled gate,
 * and the bounded, recursive delivery of a rate change to the active tab's
 * content script. Storage goes through `Storage.StorageManager`; the tab
 * lookup and each round of messaging are inputs.
 */
module PlaybackRate {
  import opened Wrappers
  import opened Values
  import Storage
  import YouTubeContent

  const DefaultRate: real := 1.5
  const MaxRetries: nat := 3
  const RateKey: string := "defaultPlaybackRate"
  const EnabledKey: string := "extensionEnabled"

  /** How a `tabs.sendMessage` promise settles. */
  datatype Delivery = Rejected | Resolved(reply: Option<Value>)

  /**
   * One round of `trySendMessage`: the `CHECK_READY` answer (None where the
   * call rejects, which `.catch(() => false)` turns into a falsy value, or
   * where nobody answers) and how sending the message itself settles.
   */
  datatype Round = Round(ready: Option<Value>, delivery: Delivery)

  /** The readiness test as written: the truthiness of the answer. */
  function IsReady(round: Round): (r: bool)
    ensures round.ready.None? ==> !r
    ensures round.ready.Some? && round.ready.value.VObject? ==> r
  {
    TruthyOpt(round.ready)
  }

  /** A round that ends the recursion with a response. */
  predicate Delivered(round: Round) {
    IsReady(round) && round.delivery.Resolved?
  }

  /** How `trySendMessage` settles (Rejected: it throws) and the waits it made on the way. */
  datatype Sent = Sent(outcome: Delivery, waits: seq<int>)

  function RetriesLeft(retries: nat): nat {
    if retries < MaxRetries then MaxRetries - retries else 0
  }

  /**
   * `trySendMessage(tabId, message, retries)`, where `rounds(r)` is what the
   * tab does in round `r`. Not ready: wait `500 * (r + 1)` and recurse; ready
   * but the send rejects: wait `1000 * (r + 1)` and recurse; out of retries:
   * throw. A rejection from a nested call is returned, not caught again.
   */
  function TrySendMessage(rounds: nat -> Round, retries: nat): (s: Sent)
    ensures |s.waits| <= RetriesLeft(retries)
    ensures forall r :: retries <= r < retries + |s.waits| ==>
      !Delivered(rounds(r)) && s.waits[r - retries] == if IsReady(rounds(r)) then 1000 * (r + 1) else 500 * (r + 1)
    ensures s.outcome.Resolved? ==>
      Delivered(rounds(retries + |s.waits|)) && s.outcome == rounds(retries + |s.waits|).delivery
    ensures s.outcome.Rejected? ==>
      !Delivered(rounds(retries + |s.waits|)) && |s.waits| == RetriesLeft(retries)
    decreases RetriesLeft(retries)
  {
    var round := rounds(retries);
    if !IsReady(round) && retries < MaxRetries then
      var rest := TrySendMessage(rounds, retries + 1);
      var waits := [500 * (retries + 1)] + rest.waits;
      Sent(rest.outcome, waits)
    else if !IsReady(round) then Sent(Rejected, [])
    else
      match round.delivery
      case Resolved(reply) => Sent(Resolved(reply), [])
      case Rejected =>
        if retries < MaxRetries then
          var rest := TrySendMessage(rounds, retries + 1);
          var waits := [1000 * (retries + 1)] + rest.waits;
              Sent(rest.outcome, waits)
        else Sent(Rejected, [])
  }

  /** From the first call there are at most `MaxRetries + 1` rounds. */
  lemma AtMostFourRounds(rounds: nat -> Round)
    ensures |TrySendMessage(rounds, 0).waits| + 1 <= MaxRetries + 1
  {
  }

  /** `response?.success || false`. */
  function ResponseSuccess(d: Delivery): (r: bool)
    ensures r ==> d.Resolved? && d.reply.Some? && d.reply.value.VObject?
    ensures r ==> "success" in d.reply.value.fields && Truthy(d.reply.value.fields["success"])
  {
    d.Resolved? && d.reply.Some? && d.reply.value.VObject?
    && "success" in d.reply.value.fields && Truthy(d.reply.value.fields["success"])
  }

  /** For a content-script reply, the result is the reply's own `success`. */
  lemma ResponseSuccessOfReply(r: YouTubeContent.Reply)
    ensures ResponseSuccess(Resolved(Some(YouTubeContent.ReplyValue(r)))) == r.success
  {
  }

  /**
   * The readiness test accepts a content script that reports it is not
   * initialized: its `CHECK_READY` reply is an object, hence truthy.
   */
  lemma UninitializedScriptCountsAsReady(video: nat -> YouTubeContent.Video, d: Delivery)
    ensures var reply := YouTubeContent.Respond(false, YouTubeContent.CheckReady, None, video);
      reply.Some? && !reply.value.success
      && IsReady(Round(Some(YouTubeContent.ReplyValue(reply.value)), d))
  {
    YouTubeContent.EveryReplyIsTruthy(YouTubeContent.Reply(false, None, false));
  }

  /** `rate || DEFAULT_RATE` for a stored number: a non-zero number is kept, anything falsy gives 1.5. */
  function DefaultRateFrom(stored: Option<Value>): (r: real)
    ensures r != 0.0
    ensures stored.Some? && stored.value.VNum? && stored.value.n != 0.0 ==> r == stored.value.n
    ensures !TruthyOpt(stored) ==> r == DefaultRate
  {
    if stored.Some? && stored.value.VNum? && stored.value.n != 0.0 then stored.value.n else DefaultRate
  }

  /** The outcome of `setCurrentTabPlaybackRate`: its result, the message sent, the waits, and the storage after it. */
  datatype RateStep = RateStep(ok: bool, sent: Option<YouTubeContent.Message>, waits: seq<int>, after: Storage.Tiers)

  /** The `extensionEnabled` gate: what is read, and whether it blocks. */
  function Gate(c: Storage.Context, t: Storage.Tiers, fromDisabledToggle: bool): (r: Storage.Outcome<bool>)
    ensures r.result ==> !fromDisabledToggle && Storage.GetSpec(c, t, EnabledKey).result == Some(VBool(false))
    ensures Storage.GetSpec(c, t, EnabledKey).result.None? ==> !r.result
    ensures fromDisabledToggle ==> r.after == t
    ensures r.after.sync == t.sync && r.after.local == t.local
  {
    if fromDisabledToggle then Storage.Outcome(false, t)
    else
      var g := Storage.GetSpec(c, t, EnabledKey);
      Storage.Outcome(g.result == Some(VBool(false)), g.after)
  }

  /** `setCurrentTabPlaybackRate(rate, save, fromDisabledToggle)` with the active tab `tabId`. */
  function SetCurrentTabSpec(c: Storage.Context, t: Storage.Tiers, rate: real, save: bool,
                             fromDisabledToggle: bool, tabId: Option<int>, rounds: nat -> Round): (r: RateStep)
    ensures !fromDisabledToggle && Storage.GetSpec(c, t, EnabledKey).result == Some(VBool(false)) ==>
      !r.ok && r.sent.None? && r.waits == [] && r.after == Storage.GetSpec(c, t, EnabledKey).after
    ensures tabId.None? ==> !r.ok && r.sent.None? && r.waits == [] && r.after.sync == t.sync && r.after.local == t.local
    ensures (fromDisabledToggle || Storage.GetSpec(c, t, EnabledKey).result != Some(VBool(false))) && tabId.Some? ==>
      r.sent == Some(YouTubeContent.SetPlaybackRate(rate, Some(save), fromDisabledToggle))
      && r.ok == ResponseSuccess(TrySendMessage(rounds, 0).outcome)
      && r.waits == TrySendMessage(rounds, 0).waits
    ensures !save || r.sent.None? ==> r.after.sync == t.sync && r.after.local == t.local
    ensures save && r.sent.Some? ==>
      r.after == Storage.SetSpec(c, Gate(c, t, fromDisabledToggle).after, RateKey, VNum(rate)).after
    ensures r.ok ==> r.sent.Some?
  {
    var gate := Gate(c, t, fromDisabledToggle);
    if gate.result then RateStep(false, None, [], gate.after)
    else if tabId.None? then RateStep(false, None, [], gate.after)
    else
      var saved := if save then Storage.SetSpec(c, gate.after, RateKey, VNum(rate)).after else gate.after;
      var s := TrySendMessage(rounds, 0);
      RateStep(ResponseSuccess(s.outcome), Some(YouTubeContent.SetPlaybackRate(rate, Some(save), fromDisabledToggle)),
               s.waits, saved)
  }

  /** `applyAppropriatePlaybackRate(isMusic)`. */
  function ApplySpec(c: Storage.Context, t: Storage.Tiers, isMusic: bool, tabId: Option<int>, rounds: nat -> Round): (r: RateStep)
    ensures r.after.sync == t.sync && r.after.local == t.local
    ensures r.sent.Some? ==> r.sent.value == YouTubeContent.SetPlaybackRate(
      if isMusic then 1.0 else DefaultRateFrom(Storage.GetSpec(c, t, RateKey).result), Some(false), false)
  {
    if isMusic then SetCurrentTabSpec(c, t, 1.0, false, false, tabId, rounds)
    else
      var d := Storage.GetSpec(c, t, RateKey);
      SetCurrentTabSpec(c, d.after, DefaultRateFrom(d.result), false, false, tabId, rounds)
  }

  /** The reset sent on switching the extension off is honoured by an initialized content script although the stored flag is off. */
  lemma DisabledToggleResetIsHonoured(c: Storage.Context, t: Storage.Tiers, id: int, rounds: nat -> Round,
                                      video: nat -> YouTubeContent.Video)
    ensures var r := SetCurrentTabSpec(c, t, 1.0, false, true, Some(id), rounds);
      r.sent.Some?
      && var reply := YouTubeContent.Respond(true, r.sent.value, Some(VBool(false)), video);
      reply.Some? && reply.value.success
  {
  }

  /** A rate chosen from the classification is refused by the content script while the extension is off. */
  lemma AppliedRateRefusedWhenDisabled(c: Storage.Context, t: Storage.Tiers, isMusic: bool, tabId: Option<int>,
                                       rounds: nat -> Round, video: nat -> YouTubeContent.Video)
    ensures var r := ApplySpec(c, t, isMusic, tabId, rounds);
      r.sent.Some? ==> YouTubeContent.Respond(true, r.sent.value, Some(VBool(false)), video)
                       == Some(YouTubeContent.Reply(false, Some(YouTubeContent.DisabledError), false))
  {
  }

  /** `getDefaultPlaybackRate`. */
  method GetDefaultPlaybackRate(store: Storage.StorageManager) returns (rate: real)
    modifies store`web
    ensures rate == DefaultRateFrom(old(Storage.GetSpec(store.ctx, store.State(), RateKey)).result)
    ensures store.State() == old(Storage.GetSpec(store.ctx, store.State(), RateKey)).after
  {
    var stored := store.Get(RateKey);
    rate := DefaultRateFrom(stored);
  }

  /** `saveDefaultPlaybackRate` as written: `set`'s result is dropped and success is reported regardless. */
  method SaveDefaultPlaybackRate(store: Storage.StorageManager, rate: real) returns (ok: bool)
    modifies store
    ensures ok
    ensures store.State() == old(Storage.SetSpec(store.ctx, store.State(), RateKey, VNum(rate))).after
  {
    var _ := store.Set(RateKey, VNum(rate));
    ok := true;
  }

  /** When no tier can take the value nothing is stored, yet the as-written save reports success. */
  lemma SaveReportsSuccessWithoutStoring(c: Storage.Context, t: Storage.Tiers, rate: real)
    requires c.syncTier.writeFails && c.localTier.writeFails && !c.hasLocalStorage
    ensures !Storage.SetSpec(c, t, RateKey, VNum(rate)).result
    ensures Storage.SetSpec(c, t, RateKey, VNum(rate)).after == t
  {
  }

  /** The corrected save: it reports whether some tier stored the rate. */
  method SaveDefaultPlaybackRateChecked(store: Storage.StorageManager, rate: real) returns (ok: bool)
    modifies store
    ensures ok == old(Storage.SetSpec(store.ctx, store.State(), RateKey, VNum(rate))).result
    ensures ok <==> !(store.ctx.syncTier.writeFails && store.ctx.localTier.writeFails
                      && (!Storage.LocalStorageAvailable(store.ctx) || store.ctx.fallbackWriteFails))
    ensures store.State() == old(Storage.SetSpec(store.ctx, store.State(), RateKey, VNum(rate))).after
  {
    ok := store.Set(RateKey, VNum(rate));
  }

  /** `setCurrentTabPlaybackRate`: the saved default is written before the message is sent. */
  method SetCurrentTabPlaybackRate(store: Storage.StorageManager, rate: real, save: bool, fromDisabledToggle: bool,
                                   tabId: Option<int>, rounds: nat -> Round)
    returns (ok: bool, sent: Option<YouTubeContent.Message>, waits: seq<int>)
    modifies store
    ensures RateStep(ok, sent, waits, store.State())
      == old(SetCurrentTabSpec(store.ctx, store.State(), rate, save, fromDisabledToggle, tabId, rounds))
  {
    ghost var t := store.State();
    if !fromDisabledToggle {
      var enabled := store.Get(EnabledKey);
      if enabled == Some(VBool(false)) {
        return false, None, [];
      }
    }
    if tabId.None? {
      return false, None, [];
    }
    if save {
      var _ := SaveDefaultPlaybackRate(store, rate);
    }
    var message := YouTubeContent.SetPlaybackRate(rate, Some(save), fromDisabledToggle);
    var response := TrySendMessage(rounds, 0);
    ok, sent, waits := ResponseSuccess(response.outcome), Some(message), response.waits;
  }

  /** `applyAppropriatePlaybackRate`: 1.0 for music, the stored default otherwise, never saved. */
  method ApplyAppropriatePlaybackRate(store: Storage.StorageManager, isMusic: bool, tabId: Option<int>,
                                      rounds: nat -> Round)
    returns (ok: bool, sent: Option<YouTubeContent.Message>, waits: seq<int>)
    modifies store
    ensures RateStep(ok, sent, waits, store.State()) == old(ApplySpec(store.ctx, store.State(), isMusic, tabId, rounds))
  {
    if isMusic {
      ok, sent, waits := SetCurrentTabPlaybackRate(store, 1.0, false, false, tabId, rounds);
      return;
    }
    var defaultRate := GetDefaultPlaybackRate(store);
    ok, sent, waits := SetCurrentTabPlaybackRate(store, defaultRate, false, false, tabId, rounds);
  }
}
