# Profile photo editor: reconciler and cover-fit transform

A Dafny model of the two pieces of logic in the profile-photo editing screen
of a React Native app:

* **The photo-collection reconciler** (`EditProfilePhotosScreen`). It holds one
  piece of state, `photos` (null until the first load, then an ordered list of
  photo records), plus a `busy` flag. Four handlers keep `photos` in step with a
  remote photo store:
  * `load` fetches the list, sorts it by (position, id) and renumbers the positions densely from 0.
  * `onAdd` appends a newly picked image, up to 9 slots.
  * `onDelete` removes a photo, compacts the ranks and rewrites every remaining photo.
  * `move` swaps two neighbours optimistically, writes both, and reloads if either write fails.
* **The cover-fit centering transform** (`CenteredPhoto`). It picks a uniform
  scale that makes an image cover its square tile, then a translation that brings
  the image's focal point as close to the tile's centre as the image's edges allow.

Modules:

| module | file | what |
|---|---|---|
| `Photos` | photos.dfy | photo record, request body, request log entries, dense-rank renumbering |
| `Ordering` | ordering.dfy | lexicographic id order, the two comparators, insertion sort and its proofs |
| `Collection` | collection.dfy | the pure pipelines of the four handlers (normalize, filter-and-compact, swap, create body) |
| `EditProfilePhotos` | edit_profile_photos.dfy | class `EditProfilePhotosScreen`: `photos`, `busy`, a ghost request log, the four handlers |
| `CenteredPhoto` | centered_photo.dfy | the scale/translate computation, over `real` |

**The remote store.** `getPhotos`, `addPhoto`, `updatePhoto` and `deletePhoto`
are not modelled as code. Each handler takes their outcomes as parameters:
* `fetched: Option<seq<Photo>>` for `getPhotos`;
* `created: Option<Photo>` for `addPhoto`;
* `deleted: bool` for `deletePhoto`;
* `updated: bool` for a batch of `updatePhoto` calls, which fails as a whole.

Image acquisition is also a parameter, `source: Acquisition`. It covers the
random-user request, the URL it yields and `Image.getSize`. Every call the screen
sends is appended to the ghost field `requests`. The handlers' contracts can
therefore say exactly which writes were sent. Alert dialogs are returned as a
sequence of `Alert` values.

**Invariant.** `Valid()` says that whenever `photos` is non-null, every photo's
`position` equals its index. Every handler requires and re-establishes it.

**Behaviour of the code that the model keeps, though a reader might expect otherwise:**
* `load` commits however many photos the store returns. Only `onAdd` enforces
  the limit of 9.
* `onDelete` does not check that the id is present. An unknown id still sends a
  delete and, if the store accepts it, rewrites every photo (`UnknownIdUnchanged`
  shows the committed collection itself is unchanged).
* When the delete leaves no photo, the update batch is empty; it settles at once
  and cannot fail, so no alert is raised whatever `updated` says.
* When a move's writes fail and the reload's `getPhotos` also fails, the
  optimistic swapped order stays on screen. It is not discarded.
* `load` never sends its corrective batch (see Findings).

## Model

| member | source | states |
|---|---|---|
| `Photos.Renumber` | app/src/screens/EditProfilePhotosScreen.tsx:33 | the result has the input's length, every position equals its index, and each entry is the input's photo at that index with only its position changed |
| `Photos.RenumberDense` | app/src/screens/EditProfilePhotosScreen.tsx:33 | renumbering a collection whose ranks are already dense changes nothing |
| `Photos.Body` | app/src/screens/EditProfilePhotosScreen.tsx:40-47 | the body of an update carries the photo's position; with the id it determines the photo, since only the id is dropped (`BodyDeterminesPhoto`) |
| `Photos.BodyDeterminesPhoto` | app/src/screens/EditProfilePhotosScreen.tsx:207-222 | two photos with the same id are the same photo exactly when their update bodies are equal |
| `Photos.RenumberAppend` | app/src/screens/EditProfilePhotosScreen.tsx:94 | appending to a dense collection and renumbering gives the old collection unchanged plus the newcomer at position old-length |
| `Photos.Updates` | app/src/screens/EditProfilePhotosScreen.tsx:114-125 | one update per photo, in order, each addressed to that photo's id and carrying its position |
| `Ordering.StrLe` | app/src/screens/EditProfilePhotosScreen.tsx:30 | a prefix compares no greater than the string it begins; totality, transitivity and antisymmetry are the three lemmas below |
| `Ordering.StrLeTotal` | app/src/screens/EditProfilePhotosScreen.tsx:30 | the id tie-break compares any two ids one way or the other |
| `Ordering.StrLeTrans` | app/src/screens/EditProfilePhotosScreen.tsx:30 | the id tie-break is transitive |
| `Ordering.StrLeAntisym` | app/src/screens/EditProfilePhotosScreen.tsx:30 | two ids that each compare no greater than the other are equal |
| `Ordering.Le` | app/src/screens/EditProfilePhotosScreen.tsx:28-32 | the comparator never puts a lower position after a higher one, and lets a lower position stand first; totality and transitivity are `LeTotal` and `LeTrans` |
| `Ordering.Insert` | app/src/screens/EditProfilePhotosScreen.tsx:28-32 | inserting adds exactly one element, the inserted one; `InsertSorted` and `InsertPermutes` carry order and contents |
| `Ordering.Sort` | app/src/screens/EditProfilePhotosScreen.tsx:111 | the sort keeps the length; `SortPermutes`, `SortSorted` and `SortOfSorted` carry contents, order and identity on ordered input |
| `Ordering.InsertSorted` | app/src/screens/EditProfilePhotosScreen.tsx:28-32 | inserting into a sorted list keeps it sorted |
| `Ordering.SortPermutes` | app/src/screens/EditProfilePhotosScreen.tsx:28-32 | the sort returns exactly the input photos (same multiset) |
| `Ordering.SortSorted` | app/src/screens/EditProfilePhotosScreen.tsx:28-32 | the sort's output is ordered by the comparator (position, then id for load) |
| `Ordering.SortOfSorted` | app/src/screens/EditProfilePhotosScreen.tsx:111 | sorting an already ordered list returns it unchanged |
| `Ordering.SortedUnique` | app/src/screens/EditProfilePhotosScreen.tsx:28-32 | two (position, id)-ordered lists with the same photos are identical when position and id identify a photo |
| `Collection.Normalize` | app/src/screens/EditProfilePhotosScreen.tsx:28-33 | a loaded collection has as many photos as were fetched, with positions 0..n-1; `NormalizeSpec` carries contents and order |
| `Collection.NormalizeSpec` | app/src/screens/EditProfilePhotosScreen.tsx:27-34 | a loaded collection is the fetched photos, permuted into (position, id) order, with positions 0..n-1 |
| `Collection.NormalizeIgnoresFetchOrder` | app/src/screens/EditProfilePhotosScreen.tsx:28-33 | the loaded collection does not depend on the order in which the store lists the photos (the tie-break is deterministic) |
| `Collection.MismatchedFrom` | app/src/screens/EditProfilePhotosScreen.tsx:35 | the filter, offset by `k`, keeps a photo exactly when it sits at an index whose expected rank its position misses: every kept photo is such a photo and every such photo is kept; it never grows the list |
| `Collection.Mismatched` | app/src/screens/EditProfilePhotosScreen.tsx:35 | `changed` holds exactly the photos at an index their position disagrees with; `MismatchedEmptyIffDense` shows it is empty exactly when every position equals its index |
| `Collection.MismatchedEmptyIffDense` | app/src/screens/EditProfilePhotosScreen.tsx:35 | the `changed` filter is empty exactly when every position equals its index |
| `Collection.LoadCorrections` | app/src/screens/EditProfilePhotosScreen.tsx:35-50 | the batch as written is empty or one update per fetched photo, each carrying its new rank; `LoadSendsNoCorrections` shows it is always empty |
| `Collection.LoadSendsNoCorrections` | app/src/screens/EditProfilePhotosScreen.tsx:33-51 | as written, load sends no corrective update for any fetched list |
| `Collection.IntendedCorrections` | app/src/screens/EditProfilePhotosScreen.tsx:35-50 | the corrected batch is empty or one update per fetched photo, each carrying its new rank; `IntendedCorrectionsSpec` says when it is sent and to which ids |
| `Collection.IntendedCorrectionsSpec` | app/src/screens/EditProfilePhotosScreen.tsx:35-50 | the corrected batch is empty exactly when the stored ranks were already dense, and otherwise rewrites every photo with its new rank |
| `Collection.StaleRankNotCorrected` | app/src/screens/EditProfilePhotosScreen.tsx:33-50 | for a store holding one photo at position 3, the as-written load sends nothing while the corrected one sends the update to position 0 |
| `Collection.Without` | app/src/screens/EditProfilePhotosScreen.tsx:110 | the delete filter never grows the collection; `WithoutSpec` and `WithoutSize` say what it keeps |
| `Collection.WithoutSpec` | app/src/screens/EditProfilePhotosScreen.tsx:109-110 | the delete filter keeps exactly the photos whose id differs |
| `Collection.WithoutSize` | app/src/screens/EditProfilePhotosScreen.tsx:108-110 | deleting an absent id leaves the collection as it was; deleting a present one shrinks it (by exactly one when ids are distinct: `WithoutRemovesOne`) |
| `Collection.WithoutIncreasing` | app/src/screens/EditProfilePhotosScreen.tsx:109-111 | the filter keeps the survivors in their prior position order |
| `Collection.Compact` | app/src/screens/EditProfilePhotosScreen.tsx:109-112 | the collection after a delete is no longer than before and ranked 0..n-1; `CompactDense` shows it keeps the survivors in prior order |
| `Collection.CompactDense` | app/src/screens/EditProfilePhotosScreen.tsx:109-112 | on a dense collection, delete's result is the survivors in their prior order with positions 0..n-1: every entry is a photo of another id with only its position changed, and every such photo appears |
| `Collection.SurvivorsRenumbered` | app/src/screens/EditProfilePhotosScreen.tsx:109-112 | renumbering the filtered list keeps exactly the photos of another id, each with only its position changed |
| `Collection.UnknownIdUnchanged` | app/src/screens/EditProfilePhotosScreen.tsx:108-112 | on a dense collection, deleting an id no photo has commits the collection unchanged |
| `Collection.WithoutRemovesOne` | app/src/screens/EditProfilePhotosScreen.tsx:110 | when ids are distinct, filtering out an id that one photo has removes exactly one photo |
| `Collection.CompactRemovesOne` | app/src/screens/EditProfilePhotosScreen.tsx:109-112 | when ids are distinct, deleting one photo of n leaves n - 1 photos ranked 0..n-2 |
| `Collection.Swap` | app/src/screens/EditProfilePhotosScreen.tsx:197-201 | the copy has the same length, holds entry `to` at `from` and entry `from` at `to`, leaves every other entry alone, and loses or duplicates no photo |
| `Collection.Reordered` | app/src/screens/EditProfilePhotosScreen.tsx:197-202 | after a move, entries `from` and `to` trade places, all positions equal their indices, every other entry of a dense collection is untouched, and every photo still appears with only its position changed |
| `Collection.MoveExample` | app/src/screens/EditProfilePhotosScreen.tsx:195-203 | moving A one step right in [A, B, C] gives [B, A, C] with positions 0, 1, 2 |
| `Collection.RoundHalf` | app/src/screens/EditProfilePhotosScreen.tsx:91-92 | `Math.round(n/2)` is the integer nearest to n/2 with halves rounded up, and lies in [0, n] for n >= 0 |
| `Collection.CreateBody` | app/src/screens/EditProfilePhotosScreen.tsx:86-93 | the create request appends at the current count with the focal point at the rounded image centre |
| `EditProfilePhotos.EditProfilePhotosScreen.constructor` | app/src/screens/EditProfilePhotosScreen.tsx:21-22 | the screen starts with no collection, not busy, nothing sent |
| `EditProfilePhotos.EditProfilePhotosScreen.Load` | app/src/screens/EditProfilePhotosScreen.tsx:24-57 | on success commits the normalized list; on a failed fetch keeps the previous state (null stays null) and alerts; busy ends false; sends one fetch plus the (always empty) corrective batch |
| `EditProfilePhotos.EditProfilePhotosScreen.OnAdd` | app/src/screens/EditProfilePhotosScreen.tsx:63-101 | before the first load or at 9 photos, nothing is sent and nothing changes; otherwise a create is sent only for a measured image with a url, at position = count with the centred focal point; on success the created photo is appended at index count (at most 9 photos); on any failure the collection is unchanged |
| `EditProfilePhotos.EditProfilePhotosScreen.OnDelete` | app/src/screens/EditProfilePhotosScreen.tsx:103-133 | a failed delete changes nothing locally; otherwise the survivors in prior order with dense ranks are committed and kept even if the follow-up updates (one per survivor, carrying its new rank) fail; their failure alerts, except that an empty batch (the last photo deleted) cannot fail |
| `EditProfilePhotos.EditProfilePhotosScreen.Move` | app/src/screens/EditProfilePhotosScreen.tsx:193-230 | an out-of-range target changes nothing and sends nothing; otherwise the swapped order is committed and exactly the two swapped photos are written; on write failure the state is that of a fresh load (or the swapped order if the reload fails too) |
| `CenteredPhoto.Clamp` | app/src/components/CenteredPhoto.tsx:31-32 | the clamped value lies in the interval, equals the input when the input is inside, and is the interval's nearest point to the input |
| `CenteredPhoto.CoverScale` | app/src/components/CenteredPhoto.tsx:22 | the scaled image covers the frame in both directions and fits it exactly in one, so no smaller scale covers |
| `CenteredPhoto.Shift` | app/src/components/CenteredPhoto.tsx:23-32 | the clamped translation along one axis leaves no gap: it lies in [frame - size*scale, 0] |
| `CenteredPhoto.ShiftCentres` | app/src/components/CenteredPhoto.tsx:23-32 | when the raw translation is allowed, the focal coordinate lands on the frame centre; otherwise the translation is the allowed one nearest to the raw one |
| `CenteredPhoto.Center` | app/src/components/CenteredPhoto.tsx:21-34 | for positive dimensions and any focal point: the image covers the frame with the least such scale, and tx in [fw - w*scale, 0], ty in [fh - h*scale, 0] |
| `CenteredPhoto.CenterCentresFocalPoint` | app/src/components/CenteredPhoto.tsx:23-32 | a focal point the clamp does not move maps exactly to the frame centre, in each direction |
| `CenteredPhoto.WideImageExample` | app/src/components/CenteredPhoto.tsx:22-32 | a 200x100 image focused at (150, 50) in a 100x100 frame gets scale 1, tx = -100, ty = 0 |

## Findings

| source | as written | input that shows it | evidently intended | confidence | as-written member | corrected member |
|---|---|---|---|---|---|---|
| app/src/screens/EditProfilePhotosScreen.tsx:35 | `changed` compares each renumbered position with its index. Line 33 has just made them equal, so the corrective batch at lines 36-50 never runs. | a store holding one photo at position 3: the screen shows it at 0, and the store keeps 3 | compare the fetched positions, in sorted order, with their new ranks, and rewrite every photo when any differs | high; not executed | `Collection.LoadSendsNoCorrections` | `Collection.IntendedCorrectionsSpec` |

`Collection.LoadCorrections` is the batch as written. `LoadSendsNoCorrections` proves it is always empty. `StaleRankNotCorrected` gives the input above.

`Collection.IntendedCorrections` is the corrected batch. `IntendedCorrectionsSpec` proves that it is sent exactly when the stored ranks are not dense, and that it then carries every photo's new rank.

The screen's `Load` sends `LoadCorrections`, as the code does. The corrected batch is not wired into `Load`, because that would change what the screen sends.

## Left out

- The remote store's HTTP transport: `fetch`, JSON decoding, base-URL discovery with its timeouts and cached base. This is network I/O. Each call's outcome is a handler parameter.
- The random-user request and `Image.getSize` in `onAdd`. This is external acquisition. Their outcome is the `Acquisition` parameter, and an empty URL counts as a failure, as in the code.
- `Promise.all` parallelism, the advisory `busy` flag as a lock, and interleavings between handlers (stale closures over `photos`, the un-awaited `load()` in `move`). Each handler is one sequential step. `busy` is set and cleared in program order, and a batch with any failure fails as a whole.
- The locale rules of `localeCompare`. The id tie-break is plain lexicographic order on characters.
- IEEE-754 rounding in the cover-fit transform. It is computed over `real`, and positive image and frame dimensions are a precondition.
- `EditProfilePhotos.EditProfilePhotosScreen.Move` requires `from` to be a valid index whenever there is a collection. The screen only calls it with the index of a rendered photo tile, and the code does not handle any other value.
- Rendering and layout: the grid, the tiles, the `tileSize` arithmetic, the app shell and the theme constants. Alert dialogs are reduced to the `Alert` values the handlers return.
- Distinct ids are the store's job. `Valid()` does not carry them, so the exact size after a delete is proved under that hypothesis (`CompactRemovesOne`), not as an invariant of the screen.
- Which member's photos are loaded. `getPhotos` ignores its member argument, and the model records `MEMBER_ID` in the request log only.
