/**
  The data model shared by the photo-collection reconciler: the photo record
  the remote store hands out (`APIPhoto`), the request body without an id
  (`APIPhotoBase`), the requests the client sends, and the dense-rank
  renumbering that every handler applies before it commits a collection.
*/
module Photos {

  datatype Option<T> = None | Some(value: T)

  /** A photo as the remote store returns it. */
  datatype Photo = Photo(
    id: string,
    url: string,
    width: int,
    height: int,
    position: int,
    centerX: int,
    centerY: int)

  /** The body of a create or update request: a photo without its id. */
  datatype PhotoBase = PhotoBase(
    url: string,
    width: int,
    height: int,
    position: int,
    centerX: int,
    centerY: int)

  /** One call issued to the remote store, as recorded in the client's request log. */
  datatype Request =
    | GetPhotos(member: int)
    | AddPhoto(member: int, body: PhotoBase)
    | UpdatePhoto(id: string, body: PhotoBase)
    | DeletePhoto(id: string)

  /** The request body that carries every field of `p` but its id. */
  function Body(p: Photo): (b: PhotoBase)
    ensures b.position == p.position
  {
    PhotoBase(p.url, p.width, p.height, p.position, p.centerX, p.centerY)
  }

  /** Only the id is dropped: an update's id and body together determine the photo it writes. */
  lemma BodyDeterminesPhoto(p: Photo, q: Photo)
    requires p.id == q.id
    ensures Body(p) == Body(q) <==> p == q
  {
  }

  /** `p` and `q` are the same photo, whatever their positions. */
  predicate SameButPosition(p: Photo, q: Photo)
  {
    p == q.(position := p.position)
  }

  /** Dense rank: every photo's position is its index. */
  predicate Dense(s: seq<Photo>)
  {
    forall i :: 0 <= i < |s| ==> s[i].position == i
  }

  /** Positions restamped densely from 0, in the order given (`map((p, idx) => ({...p, position: idx}))`). */
  function Renumber(s: seq<Photo>): (r: seq<Photo>)
    ensures |r| == |s| && Dense(r)
    ensures forall i :: 0 <= i < |s| ==> SameButPosition(r[i], s[i])
  {
    seq(|s|, i requires 0 <= i < |s| => s[i].(position := i))
  }

  /** On a collection that already has dense ranks, renumbering changes nothing. */
  lemma RenumberDense(s: seq<Photo>)
    requires Dense(s)
    ensures Renumber(s) == s
  {
    assert forall i :: 0 <= i < |s| ==> Renumber(s)[i] == s[i];
  }

  /** Appending to a dense collection and renumbering stamps the newcomer with the old length. */
  lemma RenumberAppend(s: seq<Photo>, c: Photo)
    requires Dense(s)
    ensures Renumber(s + [c]) == s + [c.(position := |s|)]
  {
    var r := Renumber(s + [c]);
    assert forall i :: 0 <= i < |s| ==> r[i] == s[i];
    assert r[|s|] == c.(position := |s|);
  }

  /** One update per photo, in order, each carrying that photo's fields. */
  function Updates(s: seq<Photo>): (r: seq<Request>)
    ensures |r| == |s|
    ensures forall i :: 0 <= i < |s| ==>
      r[i].UpdatePhoto? && r[i].id == s[i].id && r[i].body.position == s[i].position
  {
    seq(|s|, i requires 0 <= i < |s| => UpdatePhoto(s[i].id, Body(s[i])))
  }
}
