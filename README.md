# CarAds listing-window engine

This project models the listing-window engine of the `CarAds` React component.
The component keeps a newest-first window of vehicle listings, fed by WebSocket
`update` envelopes. After a socket error it falls back to one HTTP fetch. On
startup it seeds the window from the `recentCars` cookie. After every merge it
writes the first ten listings back to that cookie. When a live update brings a
listing whose id is not yet in the window it calls `playSound`, which in this
code never plays, because `initSound` is never reached and the audio context and
buffer stay unset.

- `Merge.dfy` (module `Merge`) holds the pure computations that the component
  runs inside its `setCars` updaters: the id filter (`NewCars`), the update
  merge, the fallback merge, the startup seed and the persisted prefix. Lemmas
  about them cover bounds, ordering, what truncation drops, id uniqueness,
  replay and worked cases.
- `CarAds.dfy` (module `CarAds`) holds class `Component`. Its fields are the
  component's state hooks (`cars`, `loading`, `error`, `isSoundEnabled`,
  `audioContext`, `audioBuffer`), the stored cookie value and a counter of
  sounds played. Its methods are the event handlers. Each handler's `ensures`
  gives the new state in terms of the `Merge` functions and the old state.

The window length is capped at 30 and the cookie at 10 (`MaxWindow`,
`MaxPersist`). The displayed error messages are the two strings that appear in
the source.

The update merge does not deduplicate inside one batch
(`BatchDuplicatesSurvive`), the fallback merge does no id filtering
(`FallbackMayDuplicate`) and the startup seed is uncapped. So window id
uniqueness holds only under the preconditions of `MergeUpdateUnique` and
`SeedUnique`, and is not an invariant of `Component`.

Once the startup seed has run, an empty window always comes with an empty
cookie (`WindowCoversCookie`), and every handler keeps that. So the "show
saved" button, which needs an empty window and a non-empty cookie, is never
offered after the seed within one session.

## Model

| member | source | states |
|---|---|---|
| `Merge.Take` | src/components/CarAds.js:89 | `slice(0, n)` gives a prefix of the input whose length is the smaller of `n` and the input length |
| `Merge.NewCars` | src/components/CarAds.js:78-80 | a car is kept exactly when it is in the batch and its id is not in the previous window; the result is no longer than the batch |
| `Merge.NewCarsCount` | src/components/CarAds.js:78-80 | every occurrence of a car whose id is not in the window is kept: it appears in the new cars as often as in the batch, and cars with known ids not at all |
| `Merge.NewCarsAppend` | src/components/CarAds.js:78-80 | filtering a batch split in two gives the two filtered halves, in order |
| `Merge.NewCarsSingle` | src/components/CarAds.js:78-80 | a one-car batch is kept exactly when its id is not in the window |
| `Merge.NewCarsIsSubsequence` | src/components/CarAds.js:78-80 | the new cars are a subsequence of the batch in its original order |
| `Merge.NewCarsUnique` | src/components/CarAds.js:78-80 | a batch with unique ids yields new cars with unique ids |
| `Merge.NewCarsNoneNew` | src/components/CarAds.js:78-80 | a batch whose ids are all already in the window yields no new cars |
| `Merge.NewCarsDisjoint` | src/components/CarAds.js:78-80 | no new car shares an id with the previous window |
| `Merge.NewCarsAgainstEmpty` | src/components/CarAds.js:78-80 | filtering against an empty window keeps the whole batch |
| `Merge.MergeUpdate` | src/components/CarAds.js:89 | the updated window has at most 30 cars, is a prefix of new cars followed by the old window, and has length min(30, new + old) |
| `Merge.MergeUpdateLayout` | src/components/CarAds.js:89 | new cars come first in batch order, then the old window in order; truncation drops only the oldest tail cars unless the new cars alone exceed 30 |
| `Merge.NoNewCarsLeavesWindow` | src/components/CarAds.js:78-89 | an empty batch, or one with only known ids, has no new cars and leaves a window of at most 30 cars unchanged |
| `Merge.MergeUpdateUnique` | src/components/CarAds.js:78-89 | unique ids in the window and in the batch give unique ids in the updated window |
| `Merge.ReplayIsSilent` | src/components/CarAds.js:78-89 | replaying a batch against the window it produced, when nothing was truncated, brings no new cars and so no sound |
| `Merge.BatchDuplicatesSurvive` | src/components/CarAds.js:78-89 | two cars with one id in the same batch both enter an empty window, so its ids are not unique |
| `Merge.EmptyWindowTakesBatch` | src/components/CarAds.js:78-89 | an empty window takes a batch of at most 30 cars whole and in order |
| `Merge.FullWindowDropsOldest` | src/components/CarAds.js:89 | one unknown car on a full window of 30 goes in front and the last (oldest) car is dropped |
| `Merge.KnownIdNotRepeated` | src/components/CarAds.js:78-89 | window [a, b] and batch [b', c], where b' has b's id: only c is new and the window becomes [c, a, b] |
| `Merge.MergeFallback` | src/components/CarAds.js:125 | the fallback window has at most 30 cars, is a prefix of the fetched array followed by the old window, and has length min(30, fetched + old) |
| `Merge.FallbackMayDuplicate` | src/components/CarAds.js:125 | a fetched car already in the window appears in it twice: the fallback does not filter ids |
| `Merge.Seed` | src/components/CarAds.js:54-57 | the seeded window is the filtered saved cars, in order, followed by the old window; it holds exactly the old cars and the saved cars whose id was not in the old window |
| `Merge.SeedIdempotent` | src/components/CarAds.js:49-58 | running the seed twice with the same saved cars gives the same window as running it once |
| `Merge.SeedUnique` | src/components/CarAds.js:54-57 | unique ids in the window and in the saved cars give unique ids in the seeded window |
| `Merge.SeedEmptyWindow` | src/components/CarAds.js:50-57 | seeding an empty window gives exactly the saved cars |
| `Merge.Persisted` | src/components/CarAds.js:92 | the cookie value is a prefix of the window of length min(10, window length) |
| `CarAds.Component.constructor` | src/components/CarAds.js:9-15 | on mount the window is empty, loading is on, there is no error, sound is off, and the cookie holds the saved value |
| `CarAds.Component.PlaySound` | src/components/CarAds.js:35-46 | one playback starts exactly when sound is enabled and the audio context and buffer are both set; otherwise nothing changes |
| `CarAds.Component.StartupSeed` | src/components/CarAds.js:49-61 | the window becomes the seed of the old window and the cookie, and loading ends; from an empty window it becomes the cookie, in sync with it when the cookie holds at most 10 cars; afterwards an empty window has an empty cookie, which every later handler keeps |
| `CarAds.Component.OnOpen` | src/components/CarAds.js:67-70 | the error is cleared |
| `CarAds.Component.OnMessage` | src/components/CarAds.js:72-105 | an update sets the window to the update merge, the cookie to its first 10, and clears loading; the sound is asked for exactly when some car was new; any other envelope changes nothing |
| `CarAds.Component.FetchCarData` | src/components/CarAds.js:119-139 | on success the window becomes the fallback merge, the cookie its first 10, and the error stays; on failure the window and cookie stay and the fetch error is set; loading ends false either way |
| `CarAds.Component.ReportConnectionError` | src/components/CarAds.js:107-109 | the synchronous part of `onerror`: the connection error is set and nothing else changes |
| `CarAds.Component.OnError` | src/components/CarAds.js:107-112 | the connection error is set and the fallback settles at once; the error left is the connection error on success and the fetch error on failure |
| `CarAds.Component.EnableSound` | src/components/CarAds.js:204-210 | the sound button sets the enabled flag only |
| `CarAds.Component.ShowSaved` | src/components/CarAds.js:231-237 | the button is offered exactly when loading is done, the window is empty and the cookie is non-empty; then the window becomes the cookie contents, otherwise nothing changes; it is never offered while an empty window has an empty cookie |

## Left out

- The WebSocket and `fetch` transport: creating the socket, `readyState`, and closing the socket on unmount (src/components/CarAds.js:65, 121, 142-146). This is I/O and lifecycle. The result of the fetch is the `FetchOutcome` parameter of `FetchCarData`.
- Asynchrony and scheduling. `OnError` runs the fallback's completion straight after setting the connection error, while in the browser other events may come in between. The two halves are also available apart, as `ReportConnectionError` (the pending state after `onerror`) and `FetchCarData` (the fetch settling). React's deferred `setCars` updaters, batching, StrictMode double calls, and the effect re-running when `isSoundEnabled` changes (src/components/CarAds.js:147) are not modelled, and neither is the stale closure that `playSound` reads its flags through.
- JSON decoding. A message that does not parse is dropped (src/components/CarAds.js:102-104), which in the model is simply not calling `OnMessage`. A parsed message is an `Envelope`.
- `initSound` (src/components/CarAds.js:17-33): creating the AudioContext and decoding the sound are browser APIs. They are reduced to the flags `hasContext` and `hasBuffer`. Nothing in the component calls `initSound`: the sound button only sets `isSoundEnabled` (src/components/CarAds.js:206). So in the model, as in the code, those flags stay false and `PlaySound` never starts a playback after mounting.
- Playback itself and its caught exceptions (src/components/CarAds.js:38-45): the model only counts started playbacks.
- Cookie attributes `path`, `maxAge` and `sameSite` (src/components/CarAds.js:93-95). The browser enforces the time to live, so only the stored value is modelled.
- Listing fields other than `id`: one opaque `details` string stands for them.
- The `CarCard` component and all JSX (src/components/CarAds.js:150-246), apart from the conditions that decide when the "show saved" button exists. `src/App.js` is only a provider wrapper.
- Console logging throughout.
