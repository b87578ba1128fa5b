/**
  The pure pipelines of the edit-photos screen: how each handler computes
  the next collection (sort, filter, swap, renumber) and which updates the
  load handler would send to persist corrected ranks.
*/
module Collection {
  import opened Photos
  import opened Ordering

  // ---------------------------------------------------------------- load

  /** The collection a successful load commits: sorted by (position, id), then ranked densely. */
  function Normalize(data: seq<Photo>): (r: seq<Photo>)
    ensures |r| == |data| && Dense(r)
  {
    Renumber(Sort(ByPositionThenId, data))
  }

  /**
    A loaded collection holds every fetched photo once, in (position, id)
    order, with positions restamped to their indices.
  */
  lemma NormalizeSpec(data: seq<Photo>)
    ensures var sorted, r := Sort(ByPositionThenId, data), Normalize(data);
      && multiset(sorted) == multiset(data)
      && Sorted(ByPositionThenId, sorted)
      && |r| == |data| && Dense(r)
      && forall i :: 0 <= i < |r| ==> SameButPosition(r[i], sorted[i])
  {
    SortPermutes(ByPositionThenId, data);
    SortSorted(ByPositionThenId, data);
    assert |multiset(data)| == |data|;
  }

  /**
    The tie-break makes the loaded collection independent of the order the
    store lists the photos in, provided position and id identify a photo.
  */
  lemma NormalizeIgnoresFetchOrder(a: seq<Photo>, b: seq<Photo>)
    requires multiset(a) == multiset(b)
    requires KeysIdentify(a)
    ensures Normalize(a) == Normalize(b)
  {
    var sa, sb := Sort(ByPositionThenId, a), Sort(ByPositionThenId, b);
    SortPermutes(ByPositionThenId, a);
    SortPermutes(ByPositionThenId, b);
    SortSorted(ByPositionThenId, a);
    SortSorted(ByPositionThenId, b);
    assert KeysIdentify(sa) by {
      forall p | p in sa ensures p in a {
        assert p in multiset(sa);
      }
    }
    SortedUnique(sa, sb);
  }

  /** The photos of `s` whose position is not `k` plus their index (the filter `changed`, offset by `k`). */
  function MismatchedFrom(s: seq<Photo>, k: int): (r: seq<Photo>)
    ensures |r| <= |s|
    ensures forall p :: p in r ==> exists i :: 0 <= i < |s| && s[i] == p && p.position != k + i
    ensures forall i :: 0 <= i < |s| && s[i].position != k + i ==> s[i] in r
  {
    if s == [] then []
    else
      var rest := MismatchedFrom(s[1..], k + 1);
      var r := (if s[0].position != k then [s[0]] else []) + rest;
      assert forall p :: p in r ==> exists i :: 0 <= i < |s| && s[i] == p && p.position != k + i by {
        forall p | p in r ensures exists i :: 0 <= i < |s| && s[i] == p && p.position != k + i {
          if p !in rest {
            assert s[0] == p && p.position != k;
          } else {
            var m :| 0 <= m < |s| - 1 && s[1..][m] == p && p.position != k + 1 + m;
            assert s[m + 1] == p;
          }
        }
      }
      assert forall i :: 0 <= i < |s| && s[i].position != k + i ==> s[i] in r by {
        forall i | 0 <= i < |s| && s[i].position != k + i ensures s[i] in r {
          if i > 0 {
            assert s[1..][i - 1] == s[i];
          }
        }
      }
      r
  }

  /** `s.filter((p, idx) => p.position !== idx)` */
  function Mismatched(s: seq<Photo>): (r: seq<Photo>)
    ensures |r| <= |s|
    ensures forall p :: p in r ==> exists i :: 0 <= i < |s| && s[i] == p && p.position != i
    ensures forall i :: 0 <= i < |s| && s[i].position != i ==> s[i] in r
  {
    MismatchedFrom(s, 0)
  }

  lemma {:induction false} MismatchedFromEmpty(s: seq<Photo>, k: int)
    ensures MismatchedFrom(s, k) == [] <==> forall i :: 0 <= i < |s| ==> s[i].position == k + i
  {
    if s != [] {
      MismatchedFromEmpty(s[1..], k + 1);
      if MismatchedFrom(s, k) == [] {
        forall i | 0 <= i < |s| ensures s[i].position == k + i {
          if i > 0 { assert s[i] == s[1..][i - 1]; }
        }
      } else if s[0].position == k {
        assert exists i :: 0 <= i < |s| - 1 && s[1..][i].position != k + 1 + i;
      }
    }
  }

  /** The filter finds nothing exactly when the ranks are already dense. */
  lemma MismatchedEmptyIffDense(s: seq<Photo>)
    ensures Mismatched(s) == [] <==> Dense(s)
  {
    MismatchedFromEmpty(s, 0);
  }

  /**
    The updates a successful load sends, as written: the filter is applied
    to the renumbered collection, so it compares each position with itself.
  */
  function LoadCorrections(data: seq<Photo>): (r: seq<Request>)
    ensures r == [] || |r| == |data|
    ensures forall i :: 0 <= i < |r| ==> r[i].UpdatePhoto? && r[i].body.position == i
  {
    var normalized := Normalize(data);
    if |Mismatched(normalized)| > 0 then Updates(normalized) else []
  }

  /** As written, a load never sends a corrective update, whatever the store holds. */
  lemma LoadSendsNoCorrections(data: seq<Photo>)
    ensures LoadCorrections(data) == []
  {
    MismatchedEmptyIffDense(Normalize(data));
  }

  /**
    The evidently intended corrective batch: compare the fetched positions,
    in sorted order, with the ranks they are about to receive.
  */
  function IntendedCorrections(data: seq<Photo>): (r: seq<Request>)
    ensures r == [] || |r| == |data|
    ensures forall i :: 0 <= i < |r| ==> r[i].UpdatePhoto? && r[i].body.position == i
  {
    var sorted := Sort(ByPositionThenId, data);
    if |Mismatched(sorted)| > 0 then Updates(Renumber(sorted)) else []
  }

  /**
    The intended batch is sent exactly when some stored position differs
    from its new rank, and then rewrites every photo with its new rank.
  */
  lemma IntendedCorrectionsSpec(data: seq<Photo>)
    ensures var sorted, r := Sort(ByPositionThenId, data), IntendedCorrections(data);
      && (Dense(sorted) ==> r == [])
      && (!Dense(sorted) ==> |r| == |data| && forall i :: 0 <= i < |r| ==>
            r[i].UpdatePhoto? && r[i].id == sorted[i].id && r[i].body.position == i)
  {
    var sorted := Sort(ByPositionThenId, data);
    MismatchedEmptyIffDense(sorted);
    if !Dense(sorted) {
      var renumbered := Renumber(sorted);
      assert IntendedCorrections(data) == Updates(renumbered);
      assert forall i :: 0 <= i < |renumbered| ==> renumbered[i].id == sorted[i].id;
    }
  }

  /** A store holding one photo at position 3: the as-written load leaves it there, the intended one moves it to 0. */
  lemma StaleRankNotCorrected()
    ensures var p := Photo("a", "u", 10, 10, 3, 5, 5);
      && !Dense(Sort(ByPositionThenId, [p]))
      && Normalize([p]) == [p.(position := 0)]
      && LoadCorrections([p]) == []
      && IntendedCorrections([p]) == [UpdatePhoto("a", PhotoBase("u", 10, 10, 0, 5, 5))]
  {
    var p := Photo("a", "u", 10, 10, 3, 5, 5);
    assert Sort(ByPositionThenId, [p]) == [p];
    LoadSendsNoCorrections([p]);
    assert [p][1..] == [];
    assert MismatchedFrom([], 1) == [];
    assert Mismatched([p]) == [p];
  }

  // -------------------------------------------------------------- delete

  /** `photos.filter(p => p.id !== id)` */
  function Without(s: seq<Photo>, id: string): (r: seq<Photo>)
    ensures |r| <= |s|
  {
    if s == [] then []
    else (if s[0].id != id then [s[0]] else []) + Without(s[1..], id)
  }

  /** The filter keeps exactly the photos with another id. */
  lemma {:induction false} WithoutSpec(s: seq<Photo>, id: string)
    ensures forall p :: p in Without(s, id) <==> p in s && p.id != id
  {
    if s != [] {
      WithoutSpec(s[1..], id);
      assert s == [s[0]] + s[1..];
    }
  }

  /** Removing an id that no photo has changes nothing; removing one that some photo has shrinks the collection. */
  lemma {:induction false} WithoutSize(s: seq<Photo>, id: string)
    ensures (forall i :: 0 <= i < |s| ==> s[i].id != id) ==> Without(s, id) == s
    ensures (exists i :: 0 <= i < |s| && s[i].id == id) ==> |Without(s, id)| < |s|
  {
    if s != [] {
      WithoutSize(s[1..], id);
      assert s == [s[0]] + s[1..];
      if exists i :: 0 <= i < |s| && s[i].id == id {
        var i :| 0 <= i < |s| && s[i].id == id;
        if i > 0 { assert s[1..][i - 1].id == id; }
      }
    }
  }

  /** Positions strictly increase along the collection. */
  predicate Increasing(s: seq<Photo>)
  {
    forall i, j :: 0 <= i < j < |s| ==> s[i].position < s[j].position
  }

  /** A bound below every position of `s` stays below every position the filter keeps. */
  lemma {:induction false} WithoutBounded(s: seq<Photo>, id: string, b: int)
    requires forall k :: 0 <= k < |s| ==> b < s[k].position
    ensures forall k :: 0 <= k < |Without(s, id)| ==> b < Without(s, id)[k].position
  {
    if s != [] {
      WithoutBounded(s[1..], id, b);
    }
  }

  /** The filter keeps the survivors in their prior order. */
  lemma {:induction false} WithoutIncreasing(s: seq<Photo>, id: string)
    requires Increasing(s)
    ensures Increasing(Without(s, id))
  {
    if s != [] {
      WithoutIncreasing(s[1..], id);
      var rest := Without(s[1..], id);
      if s[0].id != id {
        WithoutBounded(s[1..], id, s[0].position);
        var r := Without(s, id);
        forall i, j | 0 <= i < j < |r| ensures r[i].position < r[j].position {
          if i > 0 { assert r[i] == rest[i - 1]; }
          assert r[j] == rest[j - 1];
        }
      }
    }
  }

  /** The collection after a successful delete: the survivors sorted by position, ranked densely. */
  function Compact(s: seq<Photo>, id: string): (r: seq<Photo>)
    ensures |r| <= |s| && Dense(r)
  {
    Renumber(Sort(ByPosition, Without(s, id)))
  }

  /**
    On a densely ranked collection, deleting keeps the survivors in their
    prior order (the sort by position is the identity) and ranks them 0..n-1.
  */
  lemma CompactDense(s: seq<Photo>, id: string)
    requires Dense(s)
    ensures var r := Compact(s, id);
      && r == Renumber(Without(s, id))
      && Dense(r)
      && (forall m :: 0 <= m < |r| ==> r[m].id != id && exists k :: 0 <= k < |s| && SameButPosition(r[m], s[k]))
      && (forall k :: 0 <= k < |s| && s[k].id != id ==> exists m :: 0 <= m < |r| && SameButPosition(r[m], s[k]))
  {
    WithoutIncreasing(s, id);
    SortOfSorted(ByPosition, Without(s, id));
    SurvivorsRenumbered(s, id);
  }

  /** Renumbering the filtered collection keeps exactly the survivors, each with only its position changed. */
  lemma SurvivorsRenumbered(s: seq<Photo>, id: string)
    ensures var r := Renumber(Without(s, id));
      && (forall m :: 0 <= m < |r| ==> r[m].id != id && exists k :: 0 <= k < |s| && SameButPosition(r[m], s[k]))
      && (forall k :: 0 <= k < |s| && s[k].id != id ==> exists m :: 0 <= m < |r| && SameButPosition(r[m], s[k]))
  {
    var w := Without(s, id);
    var r := Renumber(w);
    WithoutSpec(s, id);
    forall m | 0 <= m < |r|
      ensures r[m].id != id && exists k :: 0 <= k < |s| && SameButPosition(r[m], s[k])
    {
      assert w[m] in w;
      var k :| 0 <= k < |s| && s[k] == w[m];
      assert SameButPosition(r[m], s[k]);
    }
    forall k | 0 <= k < |s| && s[k].id != id
      ensures exists m :: 0 <= m < |r| && SameButPosition(r[m], s[k])
    {
      assert s[k] in w;
      var m :| 0 <= m < |w| && w[m] == s[k];
      assert SameButPosition(r[m], s[k]);
    }
  }

  /** Deleting an id that no photo has commits the collection unchanged. */
  lemma UnknownIdUnchanged(s: seq<Photo>, id: string)
    requires Dense(s)
    requires forall i :: 0 <= i < |s| ==> s[i].id != id
    ensures Compact(s, id) == s
  {
    CompactDense(s, id);
    WithoutSize(s, id);
    RenumberDense(s);
  }

  /** No two photos of `s` share an id. */
  predicate DistinctIds(s: seq<Photo>)
  {
    forall i, j :: 0 <= i < j < |s| ==> s[i].id != s[j].id
  }

  /** With distinct ids, deleting an id that some photo has removes exactly that one photo. */
  lemma {:induction false} WithoutRemovesOne(s: seq<Photo>, id: string, k: int)
    requires DistinctIds(s) && 0 <= k < |s| && s[k].id == id
    ensures |Without(s, id)| == |s| - 1
  {
    if k == 0 {
      WithoutSize(s[1..], id);
    } else {
      assert s[0].id != id;
      WithoutRemovesOne(s[1..], id, k - 1);
    }
  }

  /** With distinct ids, deleting one photo of n leaves n - 1, ranked 0..n-2. */
  lemma CompactRemovesOne(s: seq<Photo>, id: string, k: int)
    requires DistinctIds(s) && 0 <= k < |s| && s[k].id == id
    ensures |Compact(s, id)| == |s| - 1 && Dense(Compact(s, id))
  {
    WithoutRemovesOne(s, id, k);
  }

  // ---------------------------------------------------------------- move

  /** `arr[fromIdx] = b; arr[toIdx] = a` on a copy of the collection. */
  function Swap(s: seq<Photo>, i: int, j: int): (r: seq<Photo>)
    requires 0 <= i < |s| && 0 <= j < |s|
    ensures |r| == |s| && r[i] == s[j] && r[j] == s[i]
    ensures forall k :: 0 <= k < |s| && k != i && k != j ==> r[k] == s[k]
    ensures multiset(r) == multiset(s)
  {
    s[i := s[j]][j := s[i]]
  }

  /**
    The optimistic collection of a move: entries `i` and `j` trade places and
    take their new indices as positions; on a dense collection nothing else changes.
  */
  function Reordered(s: seq<Photo>, i: int, j: int): (r: seq<Photo>)
    requires 0 <= i < |s| && 0 <= j < |s|
    ensures |r| == |s| && Dense(r)
    ensures SameButPosition(r[i], s[j]) && SameButPosition(r[j], s[i])
    ensures Dense(s) ==> forall k :: 0 <= k < |s| && k != i && k != j ==> r[k] == s[k]
    ensures forall k :: 0 <= k < |s| ==> exists m :: 0 <= m < |r| && SameButPosition(r[m], s[k])
  {
    var r := Renumber(Swap(s, i, j));
    assert forall k :: 0 <= k < |s| ==> exists m :: 0 <= m < |r| && SameButPosition(r[m], s[k]) by {
      forall k | 0 <= k < |s| ensures exists m :: 0 <= m < |r| && SameButPosition(r[m], s[k]) {
        if k == i {
          assert SameButPosition(r[j], s[k]);
        } else if k == j {
          assert SameButPosition(r[i], s[k]);
        } else {
          assert SameButPosition(r[k], s[k]);
        }
      }
    }
    r
  }

  /** Moving the first of [A, B, C] one step right gives [B, A, C] with positions 0, 1, 2. */
  lemma MoveExample()
    ensures var a, b, c := Photo("A", "a", 1, 1, 0, 0, 0), Photo("B", "b", 1, 1, 1, 0, 0), Photo("C", "c", 1, 1, 2, 0, 0);
      Reordered([a, b, c], 0, 1) == [b.(position := 0), a.(position := 1), c]
  {
    var a, b, c := Photo("A", "a", 1, 1, 0, 0, 0), Photo("B", "b", 1, 1, 1, 0, 0), Photo("C", "c", 1, 1, 2, 0, 0);
    var r := Reordered([a, b, c], 0, 1);
    assert r[0] == b.(position := 0) && r[1] == a.(position := 1) && r[2] == c;
  }

  // ----------------------------------------------------------------- add

  /** `Math.round(n / 2)`: the integer nearest to n/2, halves rounded up. */
  function RoundHalf(n: int): (r: int)
    ensures 2 * r - 1 <= n <= 2 * r
    ensures 0 <= n ==> 0 <= r <= n
  {
    (n + 1) / 2
  }

  /** The create request for a picked image: appended at `count`, focal point at the image's centre. */
  function CreateBody(url: string, width: int, height: int, count: int): (b: PhotoBase)
    ensures b.url == url && b.width == width && b.height == height && b.position == count
    ensures 2 * b.centerX - 1 <= width <= 2 * b.centerX
    ensures 2 * b.centerY - 1 <= height <= 2 * b.centerY
  {
    PhotoBase(url, width, height, count, RoundHalf(width), RoundHalf(height))
  }
}
