# Passback re-request state machine of the DoubleClick banner example

The banner example's `MyActivity` shows a `PublisherAdView` and reacts to two
kinds of SDK callbacks. Ad-lifecycle callbacks are `onAdLoaded` and
`onAdFailedToLoad`. App events are `onAppEvent(key, value)`. The activity keeps
two flags: `mIsAdLoadSuccessful` and `mIsAppEventPubmaticPbk`. The app event
`("pmpbk", "1")` means that PubMatic passed the impression back. Once a load
has succeeded and that passback has been signalled, `loadNewAd` clears both
flags and asks the ad view for a new ad with the custom targeting `pmpbk=1`.

The project models this state machine in two layers:

- `passback.dfy` (module `Passback`) works on values. `Flags` holds the two
  fields, `Event` is a callback and `AdRequest` is a request handed to
  `loadAd`, described by its custom targeting pairs. `LoadNewAd` and `Step`
  give the effect of one callback. `Run` gives the effect of a whole stream of
  callbacks: the final flags and the requests sent, oldest first. The lemmas
  are about `Run`, so they hold for every sequence of callbacks.
- `activity.dfy` (module `Activity`) holds the class `MyActivity`. Its two
  `bool` fields are updated in place. The field `sent` logs every request given
  to `mAdView.loadAd`. The constructor plays `onCreate`, and each handler is a
  method with `modifies this`. The object invariant `Valid()` says that the
  fields are always what `Run` computes from the callbacks delivered so far
  (the ghost field `events`), after `onCreate`'s initial plain request, and
  that between callbacks the two flags are never both set. So every
  lemma about `Run` also holds for the object. The three scenario methods
  create an activity and drive it through one fixed sequence of callbacks.

## Model

| member | source | states |
|---|---|---|
| `Passback.LoadNewAd` | doubleclick/BannerExample/app/src/main/java/com/google/android/gms/example/bannerexample/MyActivity.java:94-108 | sends something exactly when both flags are set; what it sends is then the one request with targeting pmpbk=1, and both flags are cleared; otherwise the flags are unchanged; afterwards the flags are never both set |
| `Passback.Step` | doubleclick/BannerExample/app/src/main/java/com/google/android/gms/example/bannerexample/MyActivity.java:57-115 | a callback sends at most one request; the targeted request is sent exactly when onAdLoaded arrives with the passback flag set or ("pmpbk","1") arrives with the load flag set; a plain request is sent exactly on a button click, and nothing but plain and pmpbk=1 requests is ever sent; a load failure clears both flags and sends nothing, whatever the error code; a button click or a non-matching app event leaves the flags as they were; firing clears both flags; a callback that does not complete a pair leaves its own flag set; a flag is set only by its own callback; a callback never makes both flags set |
| `Passback.Run` | doubleclick/BannerExample/app/src/main/java/com/google/android/gms/example/bannerexample/MyActivity.java:57-115 | a stream of callbacks sends no more requests than it has callbacks |
| `Passback.FlagsNeverBothSet` | doubleclick/BannerExample/app/src/main/java/com/google/android/gms/example/bannerexample/MyActivity.java:96-100 | starting with the flags not both set, after any sequence of callbacks they are still not both set |
| `Passback.FiringsBounded` | doubleclick/BannerExample/app/src/main/java/com/google/android/gms/example/bannerexample/MyActivity.java:96-100 | the targeted requests sent plus a still-pending load flag never exceed the onAdLoaded callbacks plus a load flag pending at the start; the same holds for the passback flag and the ("pmpbk","1") events |
| `Passback.FiringsBoundedFromStart` | doubleclick/BannerExample/app/src/main/java/com/google/android/gms/example/bannerexample/MyActivity.java:37-38 | from the initial flags, the targeted request fires at most as often as onAdLoaded arrives and at most as often as ("pmpbk","1") arrives |
| `Passback.RequestsAccounted` | doubleclick/BannerExample/app/src/main/java/com/google/android/gms/example/bannerexample/MyActivity.java:111-115 | the plain requests sent are exactly as many as the button clicks, whatever the flags; every request sent is either plain or the pmpbk=1 request |
| `Passback.FailureForgetsHistory` | doubleclick/BannerExample/app/src/main/java/com/google/android/gms/example/bannerexample/MyActivity.java:65-71 | after onAdFailedToLoad with any error code, the rest of the run behaves exactly as a run from cleared flags, so no callback before the failure can take part in a later firing |
| `Passback.OrderIndependence` | doubleclick/BannerExample/app/src/main/java/com/google/android/gms/example/bannerexample/MyActivity.java:57-84 | from flags that are not both set, onAdLoaded followed by ("pmpbk","1") and the reverse order each send exactly the one targeted request; from cleared flags both orders end cleared |
| `Passback.FailureInBetweenPreventsFiring` | doubleclick/BannerExample/app/src/main/java/com/google/android/gms/example/bannerexample/MyActivity.java:60-82 | onAdLoaded, then onAdFailedToLoad, then ("pmpbk","1") sends nothing and leaves only the passback flag set, when the passback flag was not already set |
| `Activity.MyActivity.constructor` | doubleclick/BannerExample/app/src/main/java/com/google/android/gms/example/bannerexample/MyActivity.java:37-88 | onCreate: both flags false and exactly one request sent, with no custom targeting |
| `Activity.MyActivity.LoadNewAd` | doubleclick/BannerExample/app/src/main/java/com/google/android/gms/example/bannerexample/MyActivity.java:94-108 | when both flags are set it clears them and appends exactly one pmpbk=1 request; otherwise it changes neither flag and sends nothing |
| `Activity.MyActivity.OnAdLoaded` | doubleclick/BannerExample/app/src/main/java/com/google/android/gms/example/bannerexample/MyActivity.java:57-62 | with the passback flag set, it fires (both flags cleared, one targeted request appended); otherwise it sets the load flag and sends nothing; the object invariant holds after it and the flags are not both set |
| `Activity.MyActivity.OnAdFailedToLoad` | doubleclick/BannerExample/app/src/main/java/com/google/android/gms/example/bannerexample/MyActivity.java:65-71 | whatever the prior state and error code, both flags are cleared and nothing is sent |
| `Activity.MyActivity.OnAppEvent` | doubleclick/BannerExample/app/src/main/java/com/google/android/gms/example/bannerexample/MyActivity.java:76-84 | any key or value other than ("pmpbk","1") leaves the flags and the log unchanged; ("pmpbk","1") fires if the load flag is set, else only sets the passback flag |
| `Activity.MyActivity.LoadAdButtonClicked` | doubleclick/BannerExample/app/src/main/java/com/google/android/gms/example/bannerexample/MyActivity.java:111-115 | always appends exactly one plain request and leaves both flags unchanged, so they are still not both set |
| `Activity.LoadedThenPassback` | doubleclick/BannerExample/app/src/main/java/com/google/android/gms/example/bannerexample/MyActivity.java:57-108 | after onCreate, onAdLoaded then ("pmpbk","1"): the log is the initial plain request then one pmpbk=1 request, and both flags are false |
| `Activity.PassbackThenLoaded` | doubleclick/BannerExample/app/src/main/java/com/google/android/gms/example/bannerexample/MyActivity.java:57-108 | the same two callbacks in the reverse order produce the same log and flags |
| `Activity.LoadedFailedThenPassback` | doubleclick/BannerExample/app/src/main/java/com/google/android/gms/example/bannerexample/MyActivity.java:57-108 | onAdLoaded, onAdFailedToLoad, then ("pmpbk","1") sends no re-request: the log holds only the initial plain request |

## Left out

- `onPause`, `onResume` and `onDestroy` are not modelled. They only pass the
  call on to the SDK's `PublisherAdView` and have no local logic.
- The ad SDK is not modelled. This covers `PublisherAdView.loadAd`,
  `PublisherAdRequest.Builder`, `addCustomTargeting`, and the network,
  auction and rendering behind them. A call to `loadAd` is modelled only as
  appending the request (plain, or with targeting pmpbk=1) to the log `sent`.
- The UI is not modelled: `setContentView`, `findViewById`, how the listeners
  are registered, `Log.i`, and the `View` argument of the button handler.
- Threading is not modelled. `loadNewAd` is `synchronized`, but the flag
  writes in the listeners are outside that lock. Every callback is modelled as
  one atomic step, applied in the order the callbacks are delivered. This
  still captures the guard against re-entrant double firing. Every piece of
  code that sends a request does so as its last action: onCreate (line 88),
  the button (line 114), and `loadNewAd` (line 107), which `onAdLoaded` and
  `onAppEvent` call last (lines 61 and 82). `loadNewAd` clears both flags
  before it sends (lines 99-100).
- Null strings are not modelled. `onAppEvent` receives `String` values that
  may be null, and `TextUtils.equals` treats null as unequal to "pmpbk" and
  to "1". A null key or value therefore behaves like any other non-matching
  string, so key and value are modelled as plain strings.
- Order independence is stated for the request log from any state in which
  the flags are not both set. The final flags agree only from the cleared
  state: with one flag already pending, the two orders leave different flags
  set.
