/**
  The edit-photos screen as a state machine: the component state `photos`
  (null until the first load) and `busy`, the four handlers that change
  them, and a ghost log of every call the screen sends to the remote store.

  Each remote call is a parameter: a failed call is `None` or `false`, a
  successful one carries the value the store returned. Each handler runs as
  one sequential step; a batch of parallel updates fails as a whole.
*/
module EditProfilePhotos {
  import opened Photos
  import opened Ordering
  import opened Collection

  const MEMBER_ID: int := 1
  const MAX_SLOTS: nat := 9

  /** The alert dialogs the screen can raise. */
  datatype Alert = LimitReached | LoadFailed | AddFailed | DeleteFailed | ReorderFailed

  /** What `Image.getSize` reports. */
  datatype Size = Size(w: int, h: int)

  /**
    The outcome of picking a new image: the random-user request failed, or it
    yielded a url (possibly empty) and, when the image could be measured, its size.
  */
  datatype Acquisition = FetchFailed | Fetched(url: string, size: Option<Size>)

  class EditProfilePhotosScreen {
    var photos: Option<seq<Photo>>
    var busy: bool
    /** Every call sent to the remote store, oldest first. */
    ghost var requests: seq<Request>

    /** Whenever there is a collection, its ranks are dense. */
    ghost predicate Valid()
      reads this
    {
      photos.Some? ==> Dense(photos.value)
    }

    constructor ()
      ensures Valid() && photos == None && !busy && requests == []
    {
      photos := None;
      busy := false;
      requests := [];
    }

    /**
      Fetches the collection, commits it sorted and densely ranked, and, as
      written, sends the corrective batch only if the renumbered collection
      disagrees with its own indices (it never does: LoadSendsNoCorrections).
      That batch's failure is swallowed, so its outcome is not a parameter.
      A failed fetch keeps whatever was shown before.
    */
    method Load(fetched: Option<seq<Photo>>) returns (alerts: seq<Alert>)
      requires Valid()
      modifies this
      ensures Valid() && !busy
      ensures fetched.None? ==>
        photos == old(photos) && alerts == [LoadFailed] &&
        requests == old(requests) + [GetPhotos(MEMBER_ID)]
      ensures fetched.Some? ==>
        photos == Some(Normalize(fetched.value)) && alerts == [] &&
        requests == old(requests) + [GetPhotos(MEMBER_ID)] + LoadCorrections(fetched.value)
    {
      busy := true;
      requests := requests + [GetPhotos(MEMBER_ID)];
      if fetched.None? {
        alerts := [LoadFailed];
      } else {
        var sorted := Sort(ByPositionThenId, fetched.value);
        var normalized := Renumber(sorted);
        photos := Some(normalized);
        var changed := Mismatched(normalized);
        if |changed| > 0 {
          requests := requests + Updates(normalized);
        }
        alerts := [];
      }
      busy := false;
    }

    /**
      Adds a picked image at the end. Nothing happens before the first load;
      at capacity only the limit alert is raised. Otherwise the create
      request is sent only for a measured image with a non-empty url, and the
      created photo is appended only if the store accepted it.
    */
    method OnAdd(source: Acquisition, created: Option<Photo>) returns (alerts: seq<Alert>)
      requires Valid()
      modifies this
      ensures Valid()
      ensures old(photos).None? ==>
        photos == old(photos) && busy == old(busy) && requests == old(requests) && alerts == []
      ensures old(photos).Some? && |old(photos).value| >= MAX_SLOTS ==>
        photos == old(photos) && busy == old(busy) && requests == old(requests) && alerts == [LimitReached]
      ensures old(photos).Some? && |old(photos).value| < MAX_SLOTS ==>
        var s := old(photos).value;
        var sent := source.Fetched? && source.url != [] && source.size.Some?;
        && !busy
        && requests == old(requests) +
             (if sent then [AddPhoto(MEMBER_ID, CreateBody(source.url, source.size.value.w, source.size.value.h, |s|))] else [])
        && (sent && created.Some? ==>
              photos == Some(s + [created.value.(position := |s|)]) && |photos.value| <= MAX_SLOTS && alerts == [])
        && (!(sent && created.Some?) ==> photos == old(photos) && alerts == [AddFailed])
    {
      if photos.None? {
        return [];
      }
      var s := photos.value;
      if |s| >= MAX_SLOTS {
        return [LimitReached];
      }
      busy := true;
      if source.FetchFailed? || source.url == [] || source.size.None? {
        alerts := [AddFailed];
      } else {
        var size := source.size.value;
        requests := requests + [AddPhoto(MEMBER_ID, CreateBody(source.url, size.w, size.h, |s|))];
        if created.None? {
          alerts := [AddFailed];
        } else {
          var next := Renumber(s + [created.value]);
          RenumberAppend(s, created.value);
          photos := Some(next);
          alerts := [];
        }
      }
      busy := false;
    }

    /**
      Deletes photo `id`: the remote delete comes first and, if it fails,
      nothing changes locally. Otherwise the compacted collection is
      committed and kept whatever happens to the follow-up updates, one per
      remaining photo, each carrying its new rank. `updated` is the outcome
      of that batch; an empty batch settles at once and cannot fail, so
      deleting the last photo raises no alert. The id is not looked up
      first: an unknown id still costs a delete and, if the store accepts
      it, a full rewrite.
    */
    method OnDelete(id: string, deleted: bool, updated: bool) returns (alerts: seq<Alert>)
      requires Valid()
      modifies this
      ensures Valid()
      ensures old(photos).None? ==>
        photos == old(photos) && busy == old(busy) && requests == old(requests) && alerts == []
      ensures old(photos).Some? && !deleted ==>
        !busy && photos == old(photos) && alerts == [DeleteFailed] &&
        requests == old(requests) + [DeletePhoto(id)]
      ensures old(photos).Some? && deleted ==>
        var next := Compact(old(photos).value, id);
        && !busy
        && next == Renumber(Without(old(photos).value, id))
        && photos == Some(next)
        && requests == old(requests) + [DeletePhoto(id)] + Updates(next)
        && alerts == (if updated || next == [] then [] else [DeleteFailed])
    {
      if photos.None? {
        return [];
      }
      var s := photos.value;
      busy := true;
      requests := requests + [DeletePhoto(id)];
      if !deleted {
        alerts := [DeleteFailed];
      } else {
        var remaining := Sort(ByPosition, Without(s, id));
        var compacted := Renumber(remaining);
        CompactDense(s, id);
        photos := Some(compacted);
        requests := requests + Updates(compacted);
        alerts := if updated || compacted == [] then [] else [DeleteFailed];
      }
      busy := false;
    }

    /**
      Swaps the photo at `from` with its neighbour `from + delta` and commits
      the result before the store confirms it. A target outside the
      collection is ignored. Exactly the two swapped photos are written; if
      that fails the screen reloads, and the reload's outcome decides what is
      shown: a successful one replaces the optimistic order, a failed one
      leaves it in place.
    */
    method Move(from: int, delta: int, updated: bool, reload: Option<seq<Photo>>) returns (alerts: seq<Alert>)
      requires Valid()
      requires photos.Some? ==> 0 <= from < |photos.value|
      modifies this
      ensures Valid()
      ensures old(photos).None? || !(0 <= from + delta < |old(photos).value|) ==>
        photos == old(photos) && busy == old(busy) && requests == old(requests) && alerts == []
      ensures old(photos).Some? && 0 <= from + delta < |old(photos).value| ==>
        var to := from + delta;
        var next := Reordered(old(photos).value, from, to);
        var writes := [UpdatePhoto(next[from].id, Body(next[from])), UpdatePhoto(next[to].id, Body(next[to]))];
        && !busy
        && (updated ==> photos == Some(next) && requests == old(requests) + writes && alerts == [])
        && (!updated && reload.Some? ==>
              photos == Some(Normalize(reload.value)) && alerts == [ReorderFailed] &&
              requests == old(requests) + writes + [GetPhotos(MEMBER_ID)] + LoadCorrections(reload.value))
        && (!updated && reload.None? ==>
              photos == Some(next) && alerts == [ReorderFailed, LoadFailed] &&
              requests == old(requests) + writes + [GetPhotos(MEMBER_ID)])
    {
      if photos.None? {
        return [];
      }
      var to := from + delta;
      if to < 0 || to >= |photos.value| {
        return [];
      }
      var next := Renumber(Swap(photos.value, from, to));
      photos := Some(next);
      busy := true;
      requests := requests + [UpdatePhoto(next[from].id, Body(next[from])), UpdatePhoto(next[to].id, Body(next[to]))];
      if updated {
        alerts := [];
      } else {
        var reloaded := Load(reload);
        alerts := [ReorderFailed] + reloaded;
      }
      busy := false;
    }
  }
}
