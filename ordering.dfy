/**
  The orders the reconciler sorts photos by, and the sort itself.

  `Array.prototype.sort` is modelled by an insertion sort that puts each
  element in front of the later elements it ties with. What is proved of it
  is that it permutes its input, orders it, and returns ordered input
  unchanged; stability in general is not stated. The id tie-break
  (`localeCompare` on `String(id)`) is modelled as plain lexicographic order
  on characters.
*/
module Ordering {
  import opened Photos

  /** Lexicographic order on strings: a prefix comes first, otherwise the first differing character decides. */
  predicate StrLe(a: string, b: string)
    ensures a <= b ==> StrLe(a, b)
  {
    if a == [] then true
    else if b == [] then false
    else if a[0] != b[0] then a[0] < b[0]
    else StrLe(a[1..], b[1..])
  }

  lemma {:induction false} StrLeTotal(a: string, b: string)
    ensures StrLe(a, b) || StrLe(b, a)
  {
    if a != [] && b != [] && a[0] == b[0] {
      StrLeTotal(a[1..], b[1..]);
    }
  }

  lemma {:induction false} StrLeTrans(a: string, b: string, c: string)
    requires StrLe(a, b) && StrLe(b, c)
    ensures StrLe(a, c)
  {
    if a != [] && b != [] && c != [] && a[0] == b[0] && b[0] == c[0] {
      StrLeTrans(a[1..], b[1..], c[1..]);
    }
  }

  lemma {:induction false} StrLeAntisym(a: string, b: string)
    requires StrLe(a, b) && StrLe(b, a)
    ensures a == b
  {
    if a != [] && b != [] {
      StrLeAntisym(a[1..], b[1..]);
      assert a == [a[0]] + a[1..] && b == [b[0]] + b[1..];
    }
  }

  /** The two comparators of the screen: by position alone (delete), or by position then id (load). */
  datatype Order = ByPosition | ByPositionThenId

  /** `p` may stand before `q`: the comparator does not put `p` after `q`. */
  predicate Le(o: Order, p: Photo, q: Photo)
    ensures Le(o, p, q) ==> p.position <= q.position
    ensures p.position < q.position ==> Le(o, p, q)
  {
    p.position < q.position ||
    (p.position == q.position && (o == ByPosition || StrLe(p.id, q.id)))
  }

  lemma LeTotal(o: Order, p: Photo, q: Photo)
    ensures Le(o, p, q) || Le(o, q, p)
  {
    StrLeTotal(p.id, q.id);
  }

  lemma LeTrans(o: Order, p: Photo, q: Photo, r: Photo)
    requires Le(o, p, q) && Le(o, q, r)
    ensures Le(o, p, r)
  {
    if o == ByPositionThenId && p.position == q.position == r.position {
      StrLeTrans(p.id, q.id, r.id);
    }
  }

  /** Under the load comparator, two photos that may each stand before the other share position and id. */
  lemma LeAntisym(p: Photo, q: Photo)
    requires Le(ByPositionThenId, p, q) && Le(ByPositionThenId, q, p)
    ensures p.position == q.position && p.id == q.id
  {
    StrLeAntisym(p.id, q.id);
  }

  predicate Sorted(o: Order, s: seq<Photo>)
  {
    forall i, j :: 0 <= i < j < |s| ==> Le(o, s[i], s[j])
  }

  /** Inserts `x` before the first element it may stand before. */
  function Insert(o: Order, x: Photo, t: seq<Photo>): (r: seq<Photo>)
    ensures |r| == |t| + 1 && x in r
  {
    if t == [] || Le(o, x, t[0]) then [x] + t
    else [t[0]] + Insert(o, x, t[1..])
  }

  /** Insertion sort: `s[0]` goes in front of every later element that compares equal to it. */
  function Sort(o: Order, s: seq<Photo>): (r: seq<Photo>)
    ensures |r| == |s|
  {
    if s == [] then [] else Insert(o, s[0], Sort(o, s[1..]))
  }

  lemma {:induction false} InsertPermutes(o: Order, x: Photo, t: seq<Photo>)
    ensures multiset(Insert(o, x, t)) == multiset(t) + multiset{x}
  {
    if t != [] && !Le(o, x, t[0]) {
      InsertPermutes(o, x, t[1..]);
      assert t == [t[0]] + t[1..];
    }
  }

  lemma {:induction false} InsertSorted(o: Order, x: Photo, t: seq<Photo>)
    requires Sorted(o, t)
    ensures Sorted(o, Insert(o, x, t))
  {
    var r := Insert(o, x, t);
    if t == [] || Le(o, x, t[0]) {
      forall i, j | 0 <= i < j < |r| ensures Le(o, r[i], r[j]) {
        if i == 0 && j > 1 {
          LeTrans(o, x, t[0], t[j - 1]);
        }
      }
    } else {
      LeTotal(o, x, t[0]);
      var rest := Insert(o, x, t[1..]);
      InsertSorted(o, x, t[1..]);
      InsertBounded(o, t[0], x, t[1..]);
      forall i, j | 0 <= i < j < |r| ensures Le(o, r[i], r[j]) {
        if i == 0 {
          assert r[j] == rest[j - 1];
        } else {
          assert r[i] == rest[i - 1] && r[j] == rest[j - 1];
        }
      }
    }
  }

  /** An element that may stand before `x` and before all of `t` may stand before all of `Insert(o, x, t)`. */
  lemma {:induction false} InsertBounded(o: Order, y: Photo, x: Photo, t: seq<Photo>)
    requires Le(o, y, x) && forall k :: 0 <= k < |t| ==> Le(o, y, t[k])
    ensures forall k :: 0 <= k < |Insert(o, x, t)| ==> Le(o, y, Insert(o, x, t)[k])
  {
    if t != [] && !Le(o, x, t[0]) {
      InsertBounded(o, y, x, t[1..]);
    }
  }

  /** The sort returns its input, reordered: the same photos, each as often as before. */
  lemma {:induction false} SortPermutes(o: Order, s: seq<Photo>)
    ensures multiset(Sort(o, s)) == multiset(s)
  {
    if s != [] {
      SortPermutes(o, s[1..]);
      InsertPermutes(o, s[0], Sort(o, s[1..]));
      assert s == [s[0]] + s[1..];
    }
  }

  /** The sort returns its input in comparator order. */
  lemma {:induction false} SortSorted(o: Order, s: seq<Photo>)
    ensures Sorted(o, Sort(o, s))
  {
    if s != [] {
      SortSorted(o, s[1..]);
      InsertSorted(o, s[0], Sort(o, s[1..]));
    }
  }

  /** Sorting input that is already in order changes nothing. */
  lemma {:induction false} SortOfSorted(o: Order, s: seq<Photo>)
    requires Sorted(o, s)
    ensures Sort(o, s) == s
  {
    if s != [] {
      assert Sorted(o, s[1..]);
      SortOfSorted(o, s[1..]);
      assert s == [s[0]] + s[1..];
    }
  }

  /** Photos of `s` that share a position and an id are the same photo. */
  predicate KeysIdentify(s: seq<Photo>)
  {
    forall p, q :: p in s && q in s && p.position == q.position && p.id == q.id ==> p == q
  }

  /** The head of a sorted sequence may stand before every member of it. */
  lemma HeadLeast(o: Order, s: seq<Photo>, x: Photo)
    requires Sorted(o, s) && x in s
    ensures Le(o, s[0], x)
  {
    var k :| 0 <= k < |s| && s[k] == x;
    if k == 0 { LeTotal(o, x, x); }
  }

  lemma TailsAgree(a: seq<Photo>, b: seq<Photo>)
    requires a != [] && b != [] && a[0] == b[0] && multiset(a) == multiset(b)
    ensures multiset(a[1..]) == multiset(b[1..])
  {
    assert a == [a[0]] + a[1..] && b == [b[0]] + b[1..];
    calc {
      multiset(a[1..]);
      multiset(a) - multiset{a[0]};
      multiset(b) - multiset{b[0]};
      multiset(b[1..]);
    }
  }

  lemma TailKeysIdentify(a: seq<Photo>)
    requires a != [] && KeysIdentify(a)
    ensures KeysIdentify(a[1..])
  {
    forall p | p in a[1..] ensures p in a { }
  }

  /** Under the load order there is only one ordered arrangement of a given bag of photos whose keys identify them. */
  lemma {:induction false} SortedUnique(a: seq<Photo>, b: seq<Photo>)
    requires Sorted(ByPositionThenId, a) && Sorted(ByPositionThenId, b)
    requires multiset(a) == multiset(b)
    requires KeysIdentify(a)
    ensures a == b
  {
    if a == [] {
      assert |multiset(b)| == 0;
    } else {
      assert |multiset(b)| == |a|;
      assert a[0] in multiset(b) && b[0] in multiset(a);
      HeadLeast(ByPositionThenId, b, a[0]);
      HeadLeast(ByPositionThenId, a, b[0]);
      LeAntisym(a[0], b[0]);
      assert a[0] == b[0];
      TailsAgree(a, b);
      TailKeysIdentify(a);
      SortedUnique(a[1..], b[1..]);
      assert a == [a[0]] + a[1..] && b == [b[0]] + b[1..];
    }
  }
}
