# Slideshow transition state machine and image-list backend

This project models two parts of a small image slideshow application in Dafny.

- **The frontend slideshow component** (`slideshow-frontend/src/components/Slideshow.js`).
  It holds an ordered list of image names and a current slide. It moves to the
  next slide, the previous slide or a chosen slide through a four-step timed
  transition, with a randomly chosen entry animation.
- **The backend's two handlers** (`main.go`). `getImages` lists the image files
  of the uploads directory. `uploadImage` refuses files over 10 MiB and stores
  accepted files under a name that starts with a timestamp.

Modules:

- `Wrappers`: `Option` and `Result`.
- `Sequencer`: next and previous index with wraparound, their iterates, and the
  lemmas that relate them.
- `Animation`: the nine-entry animation palette and the choice from it.
- `Carousel`: class `Slideshow`. Its fields are the component's state, and
  there is one method per trigger and per timer step.
- `Scenarios`: client runs of the class, proved from its contracts alone.
- `GoLib`: the Go library functions that `main.go` calls (`strings.ToLower`,
  `filepath.Ext`, `filepath.Base`, `strconv.FormatInt`), written out on strings.
- `Backend`: the `getImages` loop and its filter specification, the JSON
  encoding of the list, and the upload guard.
- `ListingExamples`: concrete directory listings run through the filter.

Each `setTimeout` callback of a transition is an explicit event method:

- `Phase2` is the swap, scheduled 100 ms after the trigger.
- `Phase3` is the show, scheduled by the swap for 50 ms later.
- `Phase4` is the clean-up, scheduled 1200 ms after the trigger.

Three fields record which callbacks are still pending:

- `swap` holds what the swap callback captured at the trigger: the target index, its image and the chosen animation.
- `pendingShows` counts the shows not yet fired.
- `clearPending` says whether the clean-up is pending.

Browser timers scheduled together fire in delay order, so the swap always comes
before the clean-up of the same trigger. The show is scheduled only when the
swap runs, so nothing orders it against the clean-up. The model lets each step
fire whenever its callback is pending. A show can therefore fire after the
clean-up, even during the next transition.

The random animation choice is an integer parameter `k` in [0, 9). The clock
reading of an upload and the outcome of saving the file are parameters too. A
directory listing is a sequence of `(name, isDir)` entries.

Two points of the code that the model follows:

- **goToSlide range check.** `goToSlide` has no range check. Its only caller is
  an indicator button drawn from the list itself (Slideshow.js:242-246), so
  `GoToSlide` requires `index < |images|`.
- **Auto-advance timer on manual navigation.** The interval effect depends on
  `switchImage`. That callback is rebuilt on every render because
  `animationTypes` is a new array each time, so the interval restarts on every
  render. Real time is not modelled.

## Model

| member | source | states |
|---|---|---|
| `Sequencer.Next` | slideshow-frontend/src/components/Slideshow.js:69 | the next index lies in [0, n) and is i + 1, or 0 after the last slide |
| `Sequencer.Prev` | slideshow-frontend/src/components/Slideshow.js:125 | the previous index lies in [0, n), and one next step from it returns to i |
| `Sequencer.PrevIsModular` | slideshow-frontend/src/components/Slideshow.js:125 | the previous index equals the modular form (i - 1 + n) mod n |
| `Sequencer.PrevNextInverse` | slideshow-frontend/src/components/Slideshow.js:121-151 | previous undoes next and next undoes previous |
| `Sequencer.NextN` | slideshow-frontend/src/components/Slideshow.js:69 | any number of next steps stays inside [0, n) |
| `Sequencer.PrevN` | slideshow-frontend/src/components/Slideshow.js:125 | any number of previous steps stays inside [0, n) |
| `Sequencer.NextNOffset` | slideshow-frontend/src/components/Slideshow.js:69 | k <= n next steps move the index by k, wrapping at most once |
| `Sequencer.PrevNOffset` | slideshow-frontend/src/components/Slideshow.js:125 | k <= n previous steps move the index back by k, wrapping at most once |
| `Sequencer.NextCycle` | slideshow-frontend/src/components/Slideshow.js:69 | n next steps in a list of n slides return to the start |
| `Sequencer.PrevCycle` | slideshow-frontend/src/components/Slideshow.js:125 | n previous steps in a list of n slides return to the start |
| `Sequencer.PrevNUndoesNextN` | slideshow-frontend/src/components/Slideshow.js:121-151 | k previous steps undo k next steps, for every k |
| `Animation.ChooseAnimation` | slideshow-frontend/src/components/Slideshow.js:24-34 | the chosen animation is one of the nine palette entries |
| `Animation.ChooseAnimationCovers` | slideshow-frontend/src/components/Slideshow.js:73 | every palette entry can be chosen, so none is excluded |
| `Carousel.Slideshow.constructor` | slideshow-frontend/src/components/Slideshow.js:9-17 | the initial state: empty list, index 0, no active or leaving image, playing, "slide-in", idle, hidden |
| `Carousel.Slideshow.FetchSucceeded` | slideshow-frontend/src/components/Slideshow.js:46-62 | a non-empty list shows its first image at once, visible, at index 0; an empty list leaves nothing shown |
| `Carousel.Slideshow.SwitchImage` | slideshow-frontend/src/components/Slideshow.js:65-100 | no state changes when the list is empty or a transition is in flight; otherwise the flag is set, the active image is hidden and becomes the leaving one, and the swap to Next(index) with the chosen animation is scheduled, with the index and active image unchanged |
| `Carousel.Slideshow.HandleNext` | slideshow-frontend/src/components/Slideshow.js:114-118 | the same effects as `SwitchImage`, behind its own in-flight guard |
| `Carousel.Slideshow.HandlePrev` | slideshow-frontend/src/components/Slideshow.js:121-151 | as `SwitchImage`, towards Prev(index) |
| `Carousel.Slideshow.GoToSlide` | slideshow-frontend/src/components/Slideshow.js:163-190 | no state changes when the index is the current one or a transition is in flight; otherwise the accepted-trigger effects towards that index |
| `Carousel.Slideshow.IntervalTick` | slideshow-frontend/src/components/Slideshow.js:103-111 | an auto-advance tick, possible only while playing with a non-empty list, behaves as `SwitchImage` |
| `Carousel.Slideshow.AutoAdvanceArmed` | slideshow-frontend/src/components/Slideshow.js:104 | when auto-advance is armed in a valid state, an image is shown and the index is inside the list |
| `Carousel.Slideshow.TogglePause` | slideshow-frontend/src/components/Slideshow.js:223 | flips pause and changes nothing else |
| `Carousel.Slideshow.Phase2` | slideshow-frontend/src/components/Slideshow.js:82-92 | the captured target becomes the index and active image and the captured animation the current one, and one more show is pending; the only step that moves the index |
| `Carousel.Slideshow.Phase3` | slideshow-frontend/src/components/Slideshow.js:88-90 | fires one pending show, at any point after its swap: sets showActive and changes nothing else |
| `Carousel.Slideshow.Phase4` | slideshow-frontend/src/components/Slideshow.js:95-98 | allowed only after the swap of the same trigger, with or without its show; clears the leaving image and the in-flight flag, so the next trigger is accepted |
| `Carousel.Slideshow.Begin` | slideshow-frontend/src/components/Slideshow.js:166-173 | the shared immediate effects of an accepted trigger |
| `Scenarios.NextThenSettle` | slideshow-frontend/src/components/Slideshow.js:65-118 | at slide 0 of ["a","b","c"], "next" then all timer steps show "b" at index 1 with nothing leaving, idle, with the chosen animation |
| `Scenarios.PrevWraps` | slideshow-frontend/src/components/Slideshow.js:121-151 | "previous" at slide 0 of three slides ends on slide 2, "c" |
| `Scenarios.IndexMovesAtSwap` | slideshow-frontend/src/components/Slideshow.js:68-92 | the index still reads the old slide after the trigger, with the old image leaving, and moves at the +100 ms step |
| `Scenarios.TriggersDuringTransitionIgnored` | slideshow-frontend/src/components/Slideshow.js:66-164 | triggers during a transition are dropped; the first one completes with its own target and animation |
| `Scenarios.ShowAfterClear` | slideshow-frontend/src/components/Slideshow.js:82-98 | when the clean-up fires before the show, a new trigger is accepted, and the late show reveals the image while the new swap is pending; the new transition still ends on its own target |
| `Scenarios.EmptyListStaysIdle` | slideshow-frontend/src/components/Slideshow.js:104 | with an empty list auto-advance is not armed and next/previous do nothing |
| `Scenarios.GoToCurrentIsNoOp` | slideshow-frontend/src/components/Slideshow.js:164 | jumping to the current slide starts no transition |
| `Scenarios.PauseDisarms` | slideshow-frontend/src/components/Slideshow.js:103-111 | pausing disarms auto-advance and playing again re-arms it |
| `Scenarios.FullRound` | slideshow-frontend/src/components/Slideshow.js:103-111 | n completed auto-advance transitions bring n slides back to the first one |
| `GoLib.LowerChar` | main.go:80 | 'A'-'Z' map to the letter at the same place of "abc…z", U+0130 to 'i' and U+212A to 'k'; no result is an ASCII capital; '.' and '/' are kept, and no other character becomes '.' or '/' |
| `GoLib.ToLower` | main.go:80 | same length, and each character is the lower case `LowerChar` of the character at that place |
| `GoLib.ToLowerIdempotent` | main.go:80 | lower-casing twice equals lower-casing once |
| `GoLib.ExtScan` | main.go:80 | the extension is empty or a suffix of the name that starts with '.' and holds no other '.' or '/'; it is empty only when every '.' lies before a '/' |
| `GoLib.Ext` | main.go:80 | the extension is empty or a suffix of the name that starts with '.' and holds no other '.' or '/'; it is empty only when every '.' lies before a '/' |
| `GoLib.ExtFromLastDot` | main.go:80 | a '.' followed by no '.' and no '/' starts the extension, which runs to the end of the name |
| `GoLib.ExtToLower` | main.go:80 | taking the extension commutes with lower-casing |
| `GoLib.TrimTrailingSlashes` | main.go:106 | a prefix of the path that does not end in '/', and everything cut off is '/' |
| `GoLib.AfterLastSlash` | main.go:106 | the separator-free suffix after the last '/' |
| `GoLib.Base` | main.go:106 | "." for the empty path and "/" for a path of separators only; otherwise a non-empty, separator-free suffix of the path without its trailing slashes that starts at its beginning or right after a '/' |
| `GoLib.BaseOfPlainName` | main.go:106 | a non-empty name without '/' is its own base name |
| `GoLib.Digits` | main.go:106 | non-empty decimal digits without a leading zero |
| `GoLib.FormatInt` | main.go:106 | a non-empty decimal string that holds no '_' and starts with '-' exactly when n is negative |
| `GoLib.DigitsRoundTrip` | main.go:106 | reading the digits of n gives back n |
| `GoLib.FormatIntRoundTrip` | main.go:106 | reading the signed decimal string of n gives back n |
| `GoLib.FormatIntInjective` | main.go:106 | two timestamps have equal decimal strings exactly when they are equal |
| `Backend.IsImageExtension` | main.go:81 | an accepted extension is 4 or 5 characters long and starts with '.' |
| `Backend.ImageExtensionsAreLowerCase` | main.go:80-81 | every accepted extension is already lower case |
| `Backend.IsImageEntry` | main.go:78-81 | a listed entry is a file, not a directory, whose extension is 4 or 5 characters long |
| `Backend.FilterImages` | main.go:76-83 | the reference definition of the listing: at most one name per entry |
| `Backend.CollectImageNames` | main.go:76-85 | the loop's result is exactly the filter specification `FilterImages` of the listing |
| `Backend.GetImages` | main.go:69-87 | a failed directory read is an error answer; otherwise the answer is the array of image names, in the corrected array encoding (see "## Findings"): as written, main.go:86 sends `null` when no image qualifies |
| `Backend.FilterAppend` | main.go:77-83 | the listing of a concatenation is the concatenation of the listings, so directory order is kept |
| `Backend.FilterMembership` | main.go:78-82 | a name is listed exactly when some non-directory entry with an image extension has that name |
| `Backend.DirectoriesNeverListed` | main.go:78 | a name carried only by directories is never listed, whatever its extension |
| `Backend.FilterIsSubsequence` | main.go:76-83 | the listing is a subsequence of the directory's names |
| `Backend.ExtensionTestIgnoresCase` | main.go:80 | names equal up to case are filtered alike |
| `ListingExamples.UpperAndLowerJpgListed` | main.go:80-81 | "A.JPG" and "a.jpg" are both listed |
| `ListingExamples.DottedCapitalIGifListed` | main.go:80-81 | "a.G\u0130F" is listed, because U+0130 lower-cases to 'i' and the extension becomes ".gif" |
| `ListingExamples.TextFileAndDirectoryAreNoImages` | main.go:78-81 | the file "a.txt" and the directory "old.jpg" are not listed |
| `Backend.AsWrittenDiffersExactlyWhenNoImage` | main.go:76-86 | for every listing, the field as written differs from the corrected one exactly when no entry of the directory is an image file |
| `ListingExamples.NoImagesAnswersNull` | main.go:76-86 | a directory holding only "a.txt" and the directory "old.jpg" answers `"images": null` |
| `Backend.StoredName` | main.go:106 | the stored name up to its first '_' is the canonical decimal form of the timestamp and reads back as it, and what follows that '_' is the base name of the uploaded file |
| `Backend.Upload` | main.go:90-116 | a missing form file, a size over 10 MiB or a failed save are errors, checked in that order; any other upload succeeds with the stored name |
| `Backend.UploadLimitBoundary` | main.go:99-102 | exactly 10 MiB is accepted and one byte more is refused |
| `Backend.FirstUnderscore` | main.go:106 | the position of the first '_', or the length when there is none: no '_' comes before it, and a position inside the string holds '_' |
| `Backend.FirstUnderscoreAfter` | main.go:106 | in a stored name, the first '_' is the one right after the timestamp |
| `Backend.SplitAtFirstUnderscore` | main.go:106 | splitting at the first '_' recovers both halves when the left half has none |
| `Backend.StoredNameInjective` | main.go:106 | two stored names are equal exactly when the timestamps and the base names are equal |

## Left out

- HTTP and networking: the axios request, Gin routing, the CORS middleware and static file serving. These are transport. A failed list fetch only logs, so it is modelled by not calling `FetchSucceeded`.
- Filesystem effects: creating the uploads directory, reading it, and saving the file. These are I/O; the listing and the save outcome are parameters.
- The browser fullscreen API, its change listener and `isFullscreen`. This is a foreign capability that triggers no transition.
- JSX rendering, CSS class strings and console logging. These are presentation.
- Real time. The delays (100, 50 and 1000 + 200 ms, the 5000 ms interval) are reduced to the order constraints between the timer steps described above. Interval rescheduling and React re-render and closure semantics are not modelled.
- Teardown of pending timers on unmount. The component never unmounts in this model.
- `App.js` and `index.js`: upload I/O and page bootstrap.
- `React.StrictMode` (`slideshow-frontend/src/index.js:10`): in development it runs the mount effect twice, so the list may be fetched twice. The model takes one completed fetch.
- `Math.random()`: replaced by the integer choice `k` in [0, 9).
- `time.Now().UnixNano()`: replaced by the parameter `nowNanos`.
- GoLib.LowerChar: lower-cases 'A'-'Z', U+0130 and U+212A, the only characters that Go's lower-casing turns into an ASCII letter, and keeps every other character. Go maps further non-ASCII letters to non-ASCII lower case, so the extension test gives the same verdict either way.
- GoLib.Base: uses '/' as the only separator and no volume name. This is Go's behaviour on Unix, not on Windows.
- Names are character strings, not UTF-8 byte strings.

## Findings

| source | as written | input that shows it | evidently intended | confidence | as-written member | corrected member |
|---|---|---|---|---|---|---|
| main.go:76-86 | `var imageNames []string` stays a nil slice when no entry qualifies, and a nil slice is encoded as JSON `null` | an uploads directory holding only the file `a.txt` and a sub-directory `old.jpg` | `"images": []`, because the frontend reads `imgs.length` (Slideshow.js:52) and the empty list is a normal state | not executed; high | `Backend.ImagesJsonAsWritten` (`Backend.AsWrittenDiffersExactlyWhenNoImage`, `ListingExamples.NoImagesAnswersNull`) | `Backend.ImagesJson` (used by `Backend.GetImages`) |

On the frontend, a `null` list would first be stored by `setImages`. The next
line, `imgs.length`, would then throw inside the `try` block. Later renders
would read `images.length` of `null`. The slideshow model takes the list as an
array, which is what the corrected backend sends.
