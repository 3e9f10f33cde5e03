/** The passback re-request state machine of the banner example, as values.

    The activity keeps two flags: whether the last ad load succeeded and
    whether the creative signalled a PubMatic passback through the app event
    ("pmpbk", "1"). When both are set, it clears them and asks the ad view for
    a new ad carrying the custom targeting pmpbk=1. This module describes one
    callback as a transition `Step` and a whole stream of callbacks as `Run`;
    the class in module Activity is proved to follow them.
 */
module Passback {

  const PassbackKey: string := "pmpbk"
  const PassbackValue: string := "1"

  /** An ad request handed to the ad view: only its custom targeting pairs
      matter to the state machine. */
  datatype AdRequest = AdRequest(customTargeting: seq<(string, string)>)

  /** The request built with no targeting (onCreate and the button). */
  const PlainRequest: AdRequest := AdRequest([])

  /** The re-request built by loadNewAd, carrying pmpbk=1. */
  const PassbackRequest: AdRequest := AdRequest([(PassbackKey, PassbackValue)])

  /** The two fields of the activity. */
  datatype Flags = Flags(adLoadSuccessful: bool, appEventPubmaticPbk: bool) {
    /** Both flags set: the condition under which loadNewAd fires. */
    predicate Both() {
      adLoadSuccessful && appEventPubmaticPbk
    }
  }

  /** Both flags false: the initial state and the state after a reset. */
  const Cleared: Flags := Flags(false, false)

  /** The callbacks the activity receives. */
  datatype Event =
    | AdLoaded                              // AdListener.onAdLoaded
    | AdFailedToLoad(errorCode: int)        // AdListener.onAdFailedToLoad
    | AppEvent(key: string, value: string)  // AppEventListener.onAppEvent
    | LoadAdButtonClicked                   // the "load ad" button

  /** The only app event the activity reacts to. */
  const PassbackEvent: Event := AppEvent(PassbackKey, PassbackValue)

  predicate IsPassback(key: string, value: string) {
    key == PassbackKey && value == PassbackValue
  }

  /** The flags after a transition and the requests it sent, oldest first. */
  datatype Outcome = Outcome(flags: Flags, sent: seq<AdRequest>)

  function Bit(b: bool): nat {
    if b then 1 else 0
  }

  /** The check-and-fire operation loadNewAd: fires exactly when both flags
      are set, and then sends one targeted request with both flags cleared;
      otherwise it does nothing. Either way the flags are not both set after. */
  function LoadNewAd(f: Flags): (r: Outcome)
    ensures !r.flags.Both()
    ensures r.sent != [] <==> f.Both()
    ensures r.sent != [] ==> r == Outcome(Cleared, [PassbackRequest])
    ensures r.sent == [] ==> r.flags == f
  {
    if f.Both() then Outcome(Cleared, [PassbackRequest]) else Outcome(f, [])
  }

  /** One callback. */
  function Step(f: Flags, e: Event): (r: Outcome)
    // at most one request per callback
    ensures |r.sent| <= 1
    // the targeted request is sent exactly when the callback completes a pair
    ensures PassbackRequest in r.sent <==>
              (e == AdLoaded && f.appEventPubmaticPbk) || (e == PassbackEvent && f.adLoadSuccessful)
    // a plain request is sent exactly on a button click
    ensures PlainRequest in r.sent <==> e == LoadAdButtonClicked
    // nothing else is ever sent
    ensures forall q :: q in r.sent ==> q == PlainRequest || q == PassbackRequest
    // a load failure resets both flags and sends nothing, whatever the error code
    ensures e.AdFailedToLoad? ==> r == Outcome(Cleared, [])
    // a button click or any other app event leaves the flags as they were
    ensures e == LoadAdButtonClicked || (e.AppEvent? && !IsPassback(e.key, e.value)) ==> r.flags == f
    // firing clears both flags
    ensures PassbackRequest in r.sent ==> r.flags == Cleared
    // a callback that does not complete a pair leaves its own flag set
    ensures e == AdLoaded && !f.appEventPubmaticPbk ==> r.flags.adLoadSuccessful
    ensures e == PassbackEvent && !f.adLoadSuccessful ==> r.flags.appEventPubmaticPbk
    // a callback never leaves both flags set unless they already were
    ensures !f.Both() ==> !r.flags.Both()
    // a flag is only ever set by its own callback
    ensures r.flags.adLoadSuccessful ==> e == AdLoaded || f.adLoadSuccessful
    ensures r.flags.appEventPubmaticPbk ==> e == PassbackEvent || f.appEventPubmaticPbk
  {
    match e
    case AdLoaded =>
      LoadNewAd(f.(adLoadSuccessful := true))
    case AdFailedToLoad(_) =>
      Outcome(Cleared, [])
    case AppEvent(key, value) =>
      if IsPassback(key, value) then LoadNewAd(f.(appEventPubmaticPbk := true)) else Outcome(f, [])
    case LoadAdButtonClicked =>
      Outcome(f, [PlainRequest])
  }

  /** A stream of callbacks, delivered one after another from flags `f`:
      the final flags and every request sent, oldest first. */
  function Run(f: Flags, evs: seq<Event>): (r: Outcome)
    ensures |r.sent| <= |evs|
    decreases |evs|
  {
    if evs == [] then Outcome(f, [])
    else
      var prev := Run(f, evs[..|evs| - 1]);
      var last := Step(prev.flags, evs[|evs| - 1]);
      Outcome(last.flags, prev.sent + last.sent)
  }

  /** Delivering one more callback extends the run by one step. */
  lemma RunSnoc(f: Flags, evs: seq<Event>, e: Event)
    ensures Run(f, evs + [e]).flags == Step(Run(f, evs).flags, e).flags
    ensures Run(f, evs + [e]).sent == Run(f, evs).sent + Step(Run(f, evs).flags, e).sent
  {
    assert (evs + [e])[..|evs|] == evs;
  }

  /** Running two streams one after the other is running their concatenation. */
  lemma {:induction false} RunAppend(f: Flags, a: seq<Event>, b: seq<Event>)
    ensures Run(f, a + b) == Outcome(Run(Run(f, a).flags, b).flags, Run(f, a).sent + Run(Run(f, a).flags, b).sent)
    decreases |b|
  {
    if b == [] {
      assert a + b == a;
    } else {
      var b' := b[..|b| - 1];
      var e := b[|b| - 1];
      assert b == b' + [e];
      assert a + b == (a + b') + [e];
      var mid := Run(f, a);
      var rest := Run(mid.flags, b');
      RunAppend(f, a, b');
      assert Run(f, a + b') == Outcome(rest.flags, mid.sent + rest.sent);
      RunSnoc(f, a + b', e);
      RunSnoc(mid.flags, b', e);
      var last := Step(rest.flags, e);
      assert Run(mid.flags, b) == Outcome(last.flags, rest.sent + last.sent);
      assert Run(f, a + b) == Outcome(last.flags, (mid.sent + rest.sent) + last.sent);
      assert (mid.sent + rest.sent) + last.sent == mid.sent + (rest.sent + last.sent);
    }
  }

  /** The flags are never both set once a callback has returned, provided
      they were not both set to begin with (they start cleared). */
  lemma {:induction false} FlagsNeverBothSet(f: Flags, evs: seq<Event>)
    requires !f.Both()
    ensures !Run(f, evs).flags.Both()
    decreases |evs|
  {
    if evs != [] {
      FlagsNeverBothSet(f, evs[..|evs| - 1]);
    }
  }

  /** Firing consumes a load success and a passback signal: the targeted
      requests sent, plus a flag still pending, never exceed the matching
      callbacks delivered, plus a flag already pending at the start. */
  lemma {:induction false} FiringsBounded(f: Flags, evs: seq<Event>)
    ensures multiset(Run(f, evs).sent)[PassbackRequest] + Bit(Run(f, evs).flags.adLoadSuccessful)
            <= multiset(evs)[AdLoaded] + Bit(f.adLoadSuccessful)
    ensures multiset(Run(f, evs).sent)[PassbackRequest] + Bit(Run(f, evs).flags.appEventPubmaticPbk)
            <= multiset(evs)[PassbackEvent] + Bit(f.appEventPubmaticPbk)
    decreases |evs|
  {
    if evs != [] {
      var evs' := evs[..|evs| - 1];
      var e := evs[|evs| - 1];
      assert evs == evs' + [e];
      FiringsBounded(f, evs');
      var prev := Run(f, evs');
      var last := Step(prev.flags, e);
      assert multiset(Run(f, evs).sent) == multiset(prev.sent) + multiset(last.sent);
      assert multiset(evs) == multiset(evs') + multiset{e};
      assert |last.sent| <= 1;
      if last.sent != [] {
        assert last.sent == [last.sent[0]];
      }
    }
  }

  /** From the initial state, the targeted re-request fires at most once per
      successful load and at most once per passback signal. */
  lemma FiringsBoundedFromStart(evs: seq<Event>)
    ensures multiset(Run(Cleared, evs).sent)[PassbackRequest] <= multiset(evs)[AdLoaded]
    ensures multiset(Run(Cleared, evs).sent)[PassbackRequest] <= multiset(evs)[PassbackEvent]
  {
    FiringsBounded(Cleared, evs);
  }

  /** Every request sent is either plain or the passback re-request; the plain
      ones are exactly the button clicks, whatever the flags. */
  lemma {:induction false} RequestsAccounted(f: Flags, evs: seq<Event>)
    ensures multiset(Run(f, evs).sent)[PlainRequest] == multiset(evs)[LoadAdButtonClicked]
    ensures |Run(f, evs).sent| ==
            multiset(Run(f, evs).sent)[PlainRequest] + multiset(Run(f, evs).sent)[PassbackRequest]
    decreases |evs|
  {
    if evs != [] {
      var evs' := evs[..|evs| - 1];
      var e := evs[|evs| - 1];
      assert evs == evs' + [e];
      RequestsAccounted(f, evs');
      var prev := Run(f, evs');
      var last := Step(prev.flags, e);
      assert multiset(Run(f, evs).sent) == multiset(prev.sent) + multiset(last.sent);
      assert multiset(evs) == multiset(evs') + multiset{e};
      if last.sent != [] {
        assert last.sent == [last.sent[0]];
      }
    }
  }

  /** A load failure wipes the slate: whatever came before it cannot take part
      in a later firing. The run continues exactly as a run from the cleared
      state would. */
  lemma FailureForgetsHistory(f: Flags, before: seq<Event>, errorCode: int, after: seq<Event>)
    ensures Run(f, before + [AdFailedToLoad(errorCode)] + after) ==
            Outcome(Run(Cleared, after).flags, Run(f, before).sent + Run(Cleared, after).sent)
  {
    var fail := before + [AdFailedToLoad(errorCode)];
    assert before + [AdFailedToLoad(errorCode)] + after == fail + after;
    RunSnoc(f, before, AdFailedToLoad(errorCode));
    assert Run(f, fail) == Outcome(Cleared, Run(f, before).sent);
    RunAppend(f, fail, after);
  }

  /** Order independence: from any state where the flags are not both set,
      a load success and a passback signal send exactly one targeted request,
      whichever arrives first; from the cleared state both orders also end
      with both flags cleared. */
  lemma OrderIndependence(f: Flags)
    requires !f.Both()
    ensures Run(f, [AdLoaded, PassbackEvent]).sent == [PassbackRequest]
    ensures Run(f, [PassbackEvent, AdLoaded]).sent == [PassbackRequest]
    ensures f == Cleared ==>
              Run(f, [AdLoaded, PassbackEvent]).flags == Cleared &&
              Run(f, [PassbackEvent, AdLoaded]).flags == Cleared
  {
    RunSnoc(f, [AdLoaded], PassbackEvent);
    RunSnoc(f, [], AdLoaded);
    RunSnoc(f, [PassbackEvent], AdLoaded);
    RunSnoc(f, [], PassbackEvent);
    assert [AdLoaded] + [PassbackEvent] == [AdLoaded, PassbackEvent];
    assert [PassbackEvent] + [AdLoaded] == [PassbackEvent, AdLoaded];
    assert [] + [AdLoaded] == [AdLoaded];
    assert [] + [PassbackEvent] == [PassbackEvent];
  }

  /** A failure between the load and the passback signal prevents the
      re-request, and leaves only the passback flag set. */
  lemma FailureInBetweenPreventsFiring(f: Flags, errorCode: int)
    requires !f.appEventPubmaticPbk
    ensures Run(f, [AdLoaded, AdFailedToLoad(errorCode), PassbackEvent]) == Outcome(Flags(false, true), [])
  {
    FailureForgetsHistory(f, [AdLoaded], errorCode, [PassbackEvent]);
    assert [AdLoaded] + [AdFailedToLoad(errorCode)] + [PassbackEvent]
        == [AdLoaded, AdFailedToLoad(errorCode), PassbackEvent];
    RunSnoc(f, [], AdLoaded);
    RunSnoc(Cleared, [], PassbackEvent);
    assert [] + [AdLoaded] == [AdLoaded];
    assert [] + [PassbackEvent] == [PassbackEvent];
  }
}
