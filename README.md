# Clip editor core, modelled in Dafny

This project models the logic of a small video clip editor. A user picks a video
from a catalogue, defines named sub-ranges ("clips") of it, and plays one clip at
a time in a player whose seek bar, progress and clock are relative to that clip.

Modules: one per source file, except that `Types` covers two files
(src/types/Clip.ts and src/types/Video.ts). `Seqs` and `NumberText` are helpers.

- `Types` — the `Clip` and `Video` records.
- `Seqs` — an order-preserving `Filter` and the subsequence relation. Both the
  store's delete and the catalogue search use it.
- `ClipsStore` — the clip store. It is a class with one `seq<Clip>` field. Its
  actions are replace, append and delete-by-id. Each method's ensures gives the new
  list in terms of the old list and the argument.
- `NumberText` — the decimal numeral of a whole number, as a template literal
  writes it.
- `VideoPlayer` — the clip-bounded player:
  - the pure time mapping: relative time, progress and seek target;
  - the `m:ss` clock;
  - a `MediaElement` class with the video element's `currentTime`, `paused` and
    `muted` fields;
  - a `Player` class holding the component's display state (`progress`,
    `isPlaying`, `currentTime`, `isMuted`) and the clip its time-update listener
    was attached for.
- `ClipForm` — the add-clip form. It is a class with three text fields and a submit
  that returns the candidate it hands to `onAddClip`, or `None`.
- `ClipList` — the rows of the clip list: the active flag, the delete button
  and what each button passes on.
- `VideoSearch` — the catalogue search: a case-insensitive substring filter.

Seconds are `real`. The browser's play request becomes a method with a `playAllowed`
parameter, which is the platform's verdict. A time-update event becomes a call
`OnTimeUpdate(now)` with the element's time at dispatch. The clip effect that runs
on every change of the `clip` prop becomes `Player.Bind`. Bind replaces the
attached listener, so a time update always uses the clip of the latest bind.

The core code does not do the following, and neither does the model:

- create a sentinel "full" clip;
- check that a clip's start is before its end, in the store, the form or the list;
- pick a fallback active clip after a delete;
- clamp relative time or progress: progress is below 0 before the clip and above
  100 after it;
- reset the clock or the progress on a rebind: they keep their old values until the
  next time update (`VideoPlayer.SwitchToFullVideo` shows this);
- protect any id from `deleteClip`, `"full"` included: only the list hides the
  delete button, and it decides by the clip's name, not its id.

## Model

| member | source | states |
|---|---|---|
| Seqs.Filter | src/store/clipsStore.ts:20 | the result holds exactly the elements that pass the test, each as often as in the input, and is no longer than the input |
| ClipsStore.WithoutId | src/store/clipsStore.ts:19-20 | after deleting an id, a clip remains iff it was there and has another id; every clip with another id keeps its multiplicity |
| ClipsStore.Store.constructor | src/store/clipsStore.ts:16 | the store starts with an empty list |
| ClipsStore.Store.SetClips | src/store/clipsStore.ts:17 | the list becomes exactly the given list, nothing kept from before |
| ClipsStore.Store.AddClip | src/store/clipsStore.ts:18 | the list grows by one, old clips keep their positions, the new clip is last, and no check is made on it |
| ClipsStore.Store.DeleteClip | src/store/clipsStore.ts:19-20 | the new list is the old list without the clips carrying the id |
| ClipsStore.DeleteKeepsOrder | src/store/clipsStore.ts:20 | the remaining clips are a subsequence of the old list, in their original relative order |
| ClipsStore.DeleteChangesIffPresent | src/store/clipsStore.ts:20 | delete leaves the list unchanged iff no clip has the id, and shortens it iff some clip has it |
| ClipsStore.DeleteIdempotent | src/store/clipsStore.ts:20 | deleting the same id twice is deleting it once |
| ClipsStore.DeleteRemovesFullClip | src/store/clipsStore.ts:20 | the clip with id "full" is removed like any other; there is no special case |
| NumberText.DigitChar | src/components/CustomVideoPlayer.tsx:88 | a digit below ten becomes the character of that digit |
| NumberText.DecimalDigits | src/components/CustomVideoPlayer.tsx:88 | the numeral is non-empty, all digits, no leading zero, one digit iff below 10 and two iff in 10..99 |
| NumberText.DecimalRoundTrip | src/components/CustomVideoPlayer.tsx:88 | reading the numeral back gives the number |
| VideoPlayer.RelativeTime | src/components/CustomVideoPlayer.tsx:50 | the clock is the time elapsed since the clip's start: start + clock == now |
| VideoPlayer.Progress | src/components/CustomVideoPlayer.tsx:20-51 | the progress is the percentage of the clip length that the clock has covered |
| VideoPlayer.SeekTarget | src/components/CustomVideoPlayer.tsx:61 | the seek target lies percent% of the clip length after the clip's start |
| VideoPlayer.ReachedEnd | src/components/CustomVideoPlayer.tsx:46 | the stop test holds iff the clock has reached the clip length |
| VideoPlayer.SeekThenProgress | src/components/CustomVideoPlayer.tsx:51-61 | a time update at the seek target of bar value p reports progress exactly p |
| VideoPlayer.ProgressThenSeek | src/components/CustomVideoPlayer.tsx:51-61 | seeking to the reported progress returns to the same video time |
| VideoPlayer.SeekStaysInClip | src/components/CustomVideoPlayer.tsx:58-64 | for a bar value in [0, 100] and start < end, the seek target lies in [start, end] |
| VideoPlayer.ProgressAroundClip | src/components/CustomVideoPlayer.tsx:50-51 | progress is 100 at the clip end, at least 100 past it, in [0, 100] inside the clip and negative before it |
| VideoPlayer.WholeMinutes | src/components/CustomVideoPlayer.tsx:86 | the minutes are the whole number m with 60m <= t < 60m + 60 |
| VideoPlayer.WholeSeconds | src/components/CustomVideoPlayer.tsx:87 | the seconds are below 60, and minutes * 60 + seconds is the floor of t |
| VideoPlayer.FormatTime | src/components/CustomVideoPlayer.tsx:85-89 | the clock text has at least four characters and ends in a colon and two digits |
| VideoPlayer.FormatTimeReadsBack | src/components/CustomVideoPlayer.tsx:85-89 | the clock text is the minutes' numeral, a colon and exactly two digits; reading it back gives minutes and seconds that make up floor(t) |
| VideoPlayer.MediaElement.Play | src/components/CustomVideoPlayer.tsx:38-41 | an allowed play request unpauses the element; a refused one leaves it as it was |
| VideoPlayer.MediaElement.Pause | src/components/CustomVideoPlayer.tsx:47 | the element is paused |
| VideoPlayer.Player.constructor | src/components/CustomVideoPlayer.tsx:15-18 | initial display state: progress 0, playing, clock 0, not muted, no listener attached |
| VideoPlayer.Player.Bind | src/components/CustomVideoPlayer.tsx:27-56 | the video goes to the clip start, isPlaying becomes true whatever the play request does, and the listener now belongs to the new clip; progress and clock are untouched |
| VideoPlayer.Player.OnTimeUpdate | src/components/CustomVideoPlayer.tsx:43-52 | with a listener: at or past the clip end the element pauses and isPlaying becomes false, before it both are unchanged; the clock is now - start and the progress the unclamped percentage |
| VideoPlayer.Player.Seek | src/components/CustomVideoPlayer.tsx:58-64 | only the video time changes, to start + p/100 * (end - start) |
| VideoPlayer.Player.TogglePlayPause | src/components/CustomVideoPlayer.tsx:66-76 | isPlaying flips; the element is paused when it was playing and sent a play request otherwise |
| VideoPlayer.Player.ToggleMute | src/components/CustomVideoPlayer.tsx:78-83 | the element's muted flag and isMuted both flip, stay equal if they were, and nothing else changes |
| ClipForm.Filled | src/components/ClipForm.tsx:20 | a field counts as filled iff it holds at least one character, so "0" and " " are filled |
| ClipForm.Form.constructor | src/components/ClipForm.tsx:13-15 | all three fields start empty |
| ClipForm.Form.SetName | src/components/ClipForm.tsx:43 | only the name field changes |
| ClipForm.Form.SetStart | src/components/ClipForm.tsx:60 | only the start field changes |
| ClipForm.Form.SetEnd | src/components/ClipForm.tsx:77 | only the end field changes |
| ClipForm.Form.Submit | src/components/ClipForm.tsx:18-25 | a candidate is emitted iff all three fields are non-empty; it carries the name verbatim and the parsed times; afterwards all fields are empty; otherwise nothing is emitted and nothing changes |
| ClipList.RowsOf | src/components/ClipList.tsx:28-30 | one row per clip in list order; a row is active iff its id equals the active id, and deletable iff its name is not "Video Completo" |
| ClipList.ListView | src/components/ClipList.tsx:17-19 | the "no clips" message appears iff the list is empty, otherwise the rows |
| ClipList.DeletePayload | src/components/ClipList.tsx:58-66 | the delete button exists iff the row is deletable and passes exactly that row's clip id |
| ClipList.AtMostOneActive | src/components/ClipList.tsx:29 | with unique ids at most one row is active, and one is iff the active id belongs to a clip |
| ClipList.DeletableByName | src/components/ClipList.tsx:30 | a row has a delete button iff its clip's name is not the whole-video name; the id plays no part |
| ClipList.DeleteFromRow | src/components/ClipList.tsx:60 | deleting from row i removes that row's clip from the store's list, keeps every clip with another id and shortens the list |
| VideoSearch.LowerChar | src/app/page.tsx:13 | no upper-case letter is left; other characters are unchanged; letters map to their lower-case partner |
| VideoSearch.Lower | src/app/page.tsx:13 | lower-casing keeps the length, maps each character by LowerChar and leaves no upper-case letter |
| VideoSearch.Includes | src/app/page.tsx:13 | the empty term is found in every text, and a found term is no longer than the text |
| VideoSearch.IncludesIffOccurs | src/app/page.tsx:13 | the left-to-right scan finds the term iff it occurs at some position |
| VideoSearch.IncludesPrefix | src/app/page.tsx:13 | a text containing a longer term contains its prefix |
| VideoSearch.Matches | src/app/page.tsx:13 | a video matches iff the lower-cased term occurs at some position of the lower-cased title |
| VideoSearch.FilteredVideos | src/app/page.tsx:12-14 | a video is kept iff it is in the catalogue and its lower-cased title contains the lower-cased term, each as often as in the catalogue |
| VideoSearch.FilterKeepsOrder | src/app/page.tsx:12 | the result is a subsequence of the catalogue |
| VideoSearch.EmptyTermKeepsAll | src/app/page.tsx:12-14 | an empty term keeps every video, in catalogue order |
| VideoSearch.CaseInsensitive | src/app/page.tsx:13 | terms that differ only in letter case give the same result |
| VideoSearch.LongerTermNarrows | src/app/page.tsx:13 | extending the term gives a subsequence of the previous result |
| VideoSearch.ShowsNoVideosMessage | src/app/page.tsx:40-42 | the "no videos found" message appears iff no video matches |

## Left out

- Persistence of the store to local storage under the key `clips-storage` (src/store/clipsStore.ts:14,22-24) is I/O. The store is an in-memory list.
- The video element's decoding, metadata loading and the `onLoadedMetadata` callback (src/components/CustomVideoPlayer.tsx:23-25,95-100) are I/O.
- The element's own clamping of `currentTime` to the media's duration is browser behaviour. Bind and Seek state the value that is assigned.
- The asynchronous `play()` promise is reduced to its outcome, the `playAllowed` parameter. The swallowed rejection at line 40 and the uncaught one at line 73 both leave the element as it was.
- How often `timeupdate` fires is up to the platform. Each call to `OnTimeUpdate` is one event.
- React's effect and render scheduling are left out. State setters are immediate assignments. The effect and its cleanup are the single method `Bind`.
- The `videoRef.current` null checks (src/components/CustomVideoPlayer.tsx:29,44,60,68,80) are left out: the element is always attached in the model.
- IEEE-754 arithmetic is left out; times are exact reals. Three floating-point cases are excluded instead:
  - NaN from `parseFloat`: the parser is a parameter of type `string -> real`.
  - Division by zero when a clip's start equals its end: a precondition of `Progress` and `OnTimeUpdate`.
  - Negative times given to the clock: a precondition of `FormatTime`.
- VideoPlayer.FormatTime: negative times, which the player can show before a clip's start, are excluded by the precondition; numbers of 1e21 and above, which JavaScript prints in exponent notation, are not modelled.
- `toFixed` rendering of clip times in the list (src/components/ClipList.tsx:43) is presentation.
- Unicode `toLowerCase` is reduced to ASCII letters.
- The `required`, `min="0"` and `step="0.1"` attributes of the form's inputs (src/components/ClipForm.tsx:45,56-57,62,73-74,79) are not modelled. With them the browser blocks a submit with an empty field, a negative time or an off-step time before `handleSubmit` runs. `ClipForm.Form.Submit` is `handleSubmit` as called, so it also emits such candidates.
- JSX markup, styling, icons and hover overlays are presentation, apart from the input attributes above.
- src/components/VideoCard.tsx (navigation) is not part of this model. Neither is src/data/videos.ts (a constant catalogue).
- src/app/[id]/page.tsx is not part of this model. That page creates the "full" clip, generates ids and chooses the active clip after add and delete.
