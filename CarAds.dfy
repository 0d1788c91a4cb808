/**
 * The CarAds component's state and its event handlers.  Each React state
 * hook (`cars`, `loading`, `error`, `isSoundEnabled`, `audioContext`,
 * `audioBuffer`) and the `recentCars` cookie is a field; each handler is a
 * method that updates those fields the way the component's `setX` calls do.
 * The merges themselves are the functions of module Merge.
 */
module CarAds {
  import opened Merge

  datatype Option<T> = None | Some(value: T)

  /** How the fallback fetch ended: the parsed array, or a failure (network
      error or a body that is not JSON). */
  datatype FetchOutcome = Fetched(data: seq<Car>) | FetchFailed

  /** Shown after a socket error ("Problem sa konekcijom. Pokušavam ponovo..."). */
  const ConnectionError: string := "Problem sa konekcijom. Pokušavam ponovo..."

  /** Shown when the fallback fetch fails ("Ne mogu da dohvatim podatke"). */
  const FetchError: string := "Ne mogu da dohvatim podatke"

  class Component {
    var cars: seq<Car>
    /** The stored value of the `recentCars` cookie. */
    var cookie: seq<Car>
    var loading: bool
    var error: Option<string>
    var soundEnabled: bool
    /** `audioContext` is set. */
    var hasContext: bool
    /** `audioBuffer` is set. */
    var hasBuffer: bool
    /** Number of notification sounds started. */
    var plays: nat

    /** The window is within its cap and the cookie holds its first MaxPersist cars. */
    ghost predicate Synced()
      reads this
    {
      |cars| <= MaxWindow && cookie == Persisted(cars)
    }

    /** The three conditions under which `playSound` does anything. */
    predicate SoundReady()
      reads this
    {
      soundEnabled && hasContext && hasBuffer
    }

    /** An empty window comes with an empty cookie.  Once the startup seed
        has run, every handler keeps this, and it rules out the "show saved"
        button. */
    ghost predicate WindowCoversCookie()
      reads this
    {
      cars == [] ==> cookie == []
    }

    /** The "show saved" button is rendered. */
    predicate ShowSavedOffered()
      reads this
    {
      !loading && |cars| == 0 && |cookie| > 0
    }

    /** Mounting the component: empty window, loading, no error, sound off,
        and whatever the browser still has in the `recentCars` cookie. */
    constructor (saved: seq<Car>)
      ensures cars == [] && cookie == saved
      ensures loading && error == None
      ensures !soundEnabled && !hasContext && !hasBuffer && plays == 0
    {
      cars, cookie := [], saved;
      loading, error := true, None;
      soundEnabled, hasContext, hasBuffer := false, false, false;
      plays := 0;
    }

    /** `playSound`: starts one playback when the gate is open, otherwise does nothing. */
    method PlaySound()
      modifies this`plays
      ensures plays == if SoundReady() then old(plays) + 1 else old(plays)
    {
      if !soundEnabled || !hasContext || !hasBuffer {
        return;
      }
      plays := plays + 1;
    }

    /** The startup effect: prepends the saved cars whose ids are not yet in
        the window (uncapped), then clears `loading`.  On a freshly mounted
        component with a cookie of at most MaxPersist cars the window becomes
        exactly the cookie and is in sync with it. */
    method StartupSeed()
      modifies this`cars, this`loading
      ensures cars == Seed(old(cars), cookie) && !loading
      ensures old(cars) == [] ==> cars == cookie
      ensures old(cars) == [] && |cookie| <= MaxPersist ==> Synced()
      ensures WindowCoversCookie()
    {
      if cars == [] {
        SeedEmptyWindow(cookie);
      }
      cars := Seed(cars, cookie);
      loading := false;
    }

    /** `onopen`: clears any error. */
    method OnOpen()
      modifies this`error
      ensures error == None
    {
      error := None;
    }

    /** `onmessage`: an `update` envelope merges its batch, plays the sound
        when something was new, rewrites the cookie and clears `loading`;
        any other envelope changes nothing. */
    method OnMessage(msg: Envelope)
      modifies this`cars, this`cookie, this`loading, this`plays
      ensures msg.Other? ==> unchanged(this)
      ensures msg.Update? ==>
        && cars == MergeUpdate(old(cars), msg.data)
        && cookie == Persisted(cars)
        && !loading
        && Synced()
      ensures msg.Update? ==>
        plays == old(plays) + if |NewCars(msg.data, old(cars))| > 0 && SoundReady() then 1 else 0
      ensures old(WindowCoversCookie()) ==> WindowCoversCookie()
    {
      match msg
      case Other =>
      case Update(data) =>
        var added := NewCars(data, cars);
        if |added| > 0 {
          PlaySound();
        }
        cars := MergeUpdate(cars, data);
        cookie := Persisted(cars);
        loading := false;
    }

    /** `fetchCarData` once its request has settled: on success the whole
        array goes in front of the window (capped) and the cookie is
        rewritten, leaving any error in place; on failure the fetch error is
        shown.  Either way `loading` ends false. */
    method FetchCarData(outcome: FetchOutcome)
      modifies this`cars, this`cookie, this`error, this`loading
      ensures !loading
      ensures outcome.Fetched? ==>
        && cars == MergeFallback(old(cars), outcome.data)
        && cookie == Persisted(cars)
        && error == old(error)
        && Synced()
      ensures outcome.FetchFailed? ==>
        cars == old(cars) && cookie == old(cookie) && error == Some(FetchError)
      ensures old(WindowCoversCookie()) ==> WindowCoversCookie()
    {
      match outcome {
        case Fetched(data) =>
          cars := MergeFallback(cars, data);
          cookie := Persisted(cars);
        case FetchFailed =>
          error := Some(FetchError);
      }
      loading := false;
    }

    /** The synchronous half of `onerror`: shows the connection error.  The
        fallback fetch it starts settles later, in FetchCarData. */
    method ReportConnectionError()
      modifies this`error
      ensures error == Some(ConnectionError)
    {
      error := Some(ConnectionError);
    }

    /** `onerror` followed at once by the settling of the fallback fetch,
        whose outcome is the parameter. */
    method OnError(outcome: FetchOutcome)
      modifies this`cars, this`cookie, this`error, this`loading
      ensures !loading
      ensures error == Some(if outcome.Fetched? then ConnectionError else FetchError)
      ensures outcome.Fetched? ==>
        && cars == MergeFallback(old(cars), outcome.data)
        && cookie == Persisted(cars)
        && Synced()
      ensures outcome.FetchFailed? ==> cars == old(cars) && cookie == old(cookie)
      ensures old(WindowCoversCookie()) ==> WindowCoversCookie()
    {
      ReportConnectionError();
      FetchCarData(outcome);
    }

    /** The "enable sound" button: sets `isSoundEnabled` and nothing else. */
    method EnableSound()
      modifies this`soundEnabled
      ensures soundEnabled
    {
      soundEnabled := true;
    }

    /** The "show saved" button: when it is offered (loading done, window
        empty, cookie non-empty) the window becomes the cookie contents;
        otherwise there is no button and nothing changes. */
    method ShowSaved() returns (offered: bool)
      modifies this`cars
      ensures offered == old(ShowSavedOffered())
      ensures cars == if offered then cookie else old(cars)
      ensures offered && |cookie| <= MaxPersist ==> Synced()
      ensures old(WindowCoversCookie()) ==> !offered && WindowCoversCookie()
    {
      offered := ShowSavedOffered();
      if offered {
        cars := cookie;
      }
    }
  }

  /** A session: mount with three saved cars; before the seed runs the window
      is empty and loading; after it, the window is those cars.  Then the
      socket fails and the fetch returns one car, which goes in front. */
  method StartupThenFallback(a: Car, b: Car, c: Car, d: Car)
  {
    var ui := new Component([a, b, c]);
    assert ui.loading && ui.cars == [];
    ui.StartupSeed();
    assert ui.cars == [a, b, c] && !ui.loading;
    ui.OnError(Fetched([d]));
    assert ui.cars == [d, a, b, c];
    assert ui.cookie == [d, a, b, c];
    assert !ui.loading && ui.error == Some(ConnectionError);
  }

  /** With sound disabled a new car never starts a playback. */
  method SilentWhenDisabled(c: Car)
  {
    var ui := new Component([]);
    ui.OnMessage(Update([c]));
    assert ui.plays == 0;
    assert ui.cars == [c];
  }

  /** After the startup seed, no sequence of handlers brings the "show
      saved" button back; here an update with nothing in it, a failed
      fetch, and a fallback fetch of nothing. */
  method ShowSavedStaysHidden(saved: seq<Car>)
  {
    var ui := new Component(saved);
    ui.StartupSeed();
    ui.OnMessage(Update([]));
    ui.OnError(FetchFailed);
    ui.FetchCarData(Fetched([]));
    var offered := ui.ShowSaved();
    assert !offered;
  }
}
