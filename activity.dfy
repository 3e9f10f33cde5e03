/** The activity itself: two flag fields updated in place by the SDK
    callbacks, and the log of requests handed to the ad view's loadAd. */
module Activity {

  import opened Passback

  class MyActivity {
    var isAppEventPubmaticPbk: bool
    var isAdLoadSuccessful: bool
    /** Every request given to the ad view's loadAd, oldest first. */
    var sent: seq<AdRequest>
    /** The callbacks delivered since onCreate, oldest first. */
    ghost var events: seq<Event>

    function CurrentFlags(): Flags
      reads this
    {
      Flags(isAdLoadSuccessful, isAppEventPubmaticPbk)
    }

    /** The object is where the stream of callbacks so far leads: onCreate's
        plain request first, then what `Run` sends from the cleared state;
        between callbacks the two flags are never both set. */
    ghost predicate Valid()
      reads this
    {
      |sent| >= 1 && sent[0] == PlainRequest &&
      Run(Cleared, events) == Outcome(CurrentFlags(), sent[1..]) &&
      !CurrentFlags().Both()
    }

    /** onCreate: both flags start false and exactly one plain request is sent. */
    constructor ()
      ensures Valid() && events == []
      ensures !isAdLoadSuccessful && !isAppEventPubmaticPbk
      ensures sent == [PlainRequest]
    {
      isAppEventPubmaticPbk := false;
      isAdLoadSuccessful := false;
      sent := [PlainRequest];
      events := [];
    }

    /** loadNewAd: sends the targeted request only when both flags are set,
        clearing them first; otherwise changes nothing. */
    method LoadNewAd()
      modifies this
      ensures events == old(events)
      ensures old(isAdLoadSuccessful && isAppEventPubmaticPbk) ==>
                !isAdLoadSuccessful && !isAppEventPubmaticPbk && sent == old(sent) + [PassbackRequest]
      ensures !old(isAdLoadSuccessful && isAppEventPubmaticPbk) ==>
                isAdLoadSuccessful == old(isAdLoadSuccessful) &&
                isAppEventPubmaticPbk == old(isAppEventPubmaticPbk) && sent == old(sent)
    {
      if isAdLoadSuccessful && isAppEventPubmaticPbk {
        isAdLoadSuccessful := false;
        isAppEventPubmaticPbk := false;
        sent := sent + [PassbackRequest];
      }
    }

    /** Records delivery of `e` and re-establishes `Valid` after a handler
        whose effect on the fields is `Step(old flags, e)`. */
    ghost method Record(e: Event, before: Flags, sentBefore: seq<AdRequest>)
      requires |sentBefore| >= 1 && sentBefore[0] == PlainRequest
      requires Run(Cleared, events) == Outcome(before, sentBefore[1..])
      requires CurrentFlags() == Step(before, e).flags
      requires sent == sentBefore + Step(before, e).sent
      modifies this`events
      ensures events == old(events) + [e]
      ensures Valid()
      ensures !CurrentFlags().Both()
    {
      RunSnoc(Cleared, events, e);
      events := events + [e];
      assert sent[1..] == sentBefore[1..] + Step(before, e).sent;
      FlagsNeverBothSet(Cleared, events);
    }

    /** onAdLoaded: marks the load successful, then checks and fires. */
    method OnAdLoaded()
      requires Valid()
      modifies this
      ensures Valid() && events == old(events) + [AdLoaded]
      ensures !(isAdLoadSuccessful && isAppEventPubmaticPbk)
      ensures old(isAppEventPubmaticPbk) ==>
                !isAdLoadSuccessful && !isAppEventPubmaticPbk && sent == old(sent) + [PassbackRequest]
      ensures !old(isAppEventPubmaticPbk) ==>
                isAdLoadSuccessful && !isAppEventPubmaticPbk && sent == old(sent)
    {
      ghost var before, sentBefore := CurrentFlags(), sent;
      isAdLoadSuccessful := true;
      LoadNewAd();
      Record(AdLoaded, before, sentBefore);
    }

    /** onAdFailedToLoad: clears both flags whatever the error code; no retry. */
    method OnAdFailedToLoad(errorCode: int)
      requires Valid()
      modifies this
      ensures Valid() && events == old(events) + [AdFailedToLoad(errorCode)]
      ensures !isAdLoadSuccessful && !isAppEventPubmaticPbk
      ensures sent == old(sent)
    {
      ghost var before, sentBefore := CurrentFlags(), sent;
      isAdLoadSuccessful := false;
      isAppEventPubmaticPbk := false;
      Record(AdFailedToLoad(errorCode), before, sentBefore);
    }

    /** onAppEvent: only ("pmpbk", "1") sets the passback flag, then checks
        and fires; any other event changes nothing. */
    method OnAppEvent(key: string, value: string)
      requires Valid()
      modifies this
      ensures Valid() && events == old(events) + [AppEvent(key, value)]
      ensures !(isAdLoadSuccessful && isAppEventPubmaticPbk)
      ensures IsPassback(key, value) && old(isAdLoadSuccessful) ==>
                !isAdLoadSuccessful && !isAppEventPubmaticPbk && sent == old(sent) + [PassbackRequest]
      ensures IsPassback(key, value) && !old(isAdLoadSuccessful) ==>
                !isAdLoadSuccessful && isAppEventPubmaticPbk && sent == old(sent)
      ensures !IsPassback(key, value) ==>
                isAdLoadSuccessful == old(isAdLoadSuccessful) &&
                isAppEventPubmaticPbk == old(isAppEventPubmaticPbk) && sent == old(sent)
    {
      ghost var before, sentBefore := CurrentFlags(), sent;
      if key == PassbackKey && value == PassbackValue {
        isAppEventPubmaticPbk := true;
        LoadNewAd();
      }
      Record(AppEvent(key, value), before, sentBefore);
    }

    /** loadAdButtonClicked: always sends one plain request; flags untouched. */
    method LoadAdButtonClicked()
      requires Valid()
      modifies this
      ensures Valid() && events == old(events) + [Event.LoadAdButtonClicked]
      ensures !(isAdLoadSuccessful && isAppEventPubmaticPbk)
      ensures isAdLoadSuccessful == old(isAdLoadSuccessful)
      ensures isAppEventPubmaticPbk == old(isAppEventPubmaticPbk)
      ensures sent == old(sent) + [PlainRequest]
    {
      ghost var before, sentBefore := CurrentFlags(), sent;
      sent := sent + [PlainRequest];
      Record(Event.LoadAdButtonClicked, before, sentBefore);
    }
  }

  /** A freshly created activity gets a load success and then the passback
      signal: one targeted re-request after the initial plain one, both
      flags cleared. */
  method LoadedThenPassback() returns (sent: seq<AdRequest>, loaded: bool, passback: bool)
    ensures sent == [PlainRequest, PassbackRequest]
    ensures !loaded && !passback
  {
    var activity := new MyActivity();
    activity.OnAdLoaded();
    activity.OnAppEvent(PassbackKey, PassbackValue);
    sent, loaded, passback := activity.sent, activity.isAdLoadSuccessful, activity.isAppEventPubmaticPbk;
  }

  /** The same two callbacks in the other order have the same effect. */
  method PassbackThenLoaded() returns (sent: seq<AdRequest>, loaded: bool, passback: bool)
    ensures sent == [PlainRequest, PassbackRequest]
    ensures !loaded && !passback
  {
    var activity := new MyActivity();
    activity.OnAppEvent(PassbackKey, PassbackValue);
    activity.OnAdLoaded();
    sent, loaded, passback := activity.sent, activity.isAdLoadSuccessful, activity.isAppEventPubmaticPbk;
  }

  /** A load failure between the success and the passback signal: no
      re-request is sent, only the passback flag stays set. */
  method LoadedFailedThenPassback(errorCode: int) returns (sent: seq<AdRequest>, loaded: bool, passback: bool)
    ensures sent == [PlainRequest]
    ensures !loaded && passback
  {
    var activity := new MyActivity();
    activity.OnAdLoaded();
    activity.OnAdFailedToLoad(errorCode);
    activity.OnAppEvent(PassbackKey, PassbackValue);
    sent, loaded, passback := activity.sent, activity.isAdLoadSuccessful, activity.isAppEventPubmaticPbk;
  }
}
