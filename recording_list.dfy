/** Values the recorder keeps: encoded chunks, the blob assembled from them,
    object URLs and the recordings list with its newest-first order
    (script.js lines 106-129 and 178-184). */
module RecordingList {

  /** An object URL from `URL.createObjectURL`, as an opaque handle. */
  datatype Url = ObjectUrl(handle: nat)

  /** A data fragment delivered by the encoder's `dataavailable` event. */
  datatype Chunk = Chunk(bytes: seq<bv8>)
  {
    function Size(): nat { |bytes| }
  }

  /** A `Blob`: its bytes and its declared MIME type. */
  datatype Blob = Blob(bytes: seq<bv8>, mimeType: string)

  /** One finished recording: `id` is `Date.now()` at completion,
      `timestamp` its locale string, `duration` the elapsed seconds. */
  datatype Recording = Recording(id: int, url: Url, blob: Blob, timestamp: string, duration: nat)

  /** The bytes of `new Blob(chunks)`: the chunks' bytes in order. */
  function Concat(chunks: seq<Chunk>): (bytes: seq<bv8>)
  {
    if chunks == [] then [] else chunks[0].bytes + Concat(chunks[1..])
  }

  /** Sum of the chunks' sizes. */
  function TotalSize(chunks: seq<Chunk>): nat
  {
    if chunks == [] then 0 else chunks[0].Size() + TotalSize(chunks[1..])
  }

  /** Assembling distributes over concatenation of the chunk lists. */
  lemma {:induction false} ConcatAppend(a: seq<Chunk>, b: seq<Chunk>)
    ensures Concat(a + b) == Concat(a) + Concat(b)
    decreases |a|
  {
    if a == [] {
      assert a + b == b;
    } else {
      assert (a + b)[0] == a[0] && (a + b)[1..] == a[1..] + b;
      ConcatAppend(a[1..], b);
    }
  }

  /** The assembled blob is exactly as long as all its chunks together. */
  lemma {:induction false} ConcatSize(chunks: seq<Chunk>)
    ensures |Concat(chunks)| == TotalSize(chunks)
    decreases |chunks|
  {
    if chunks != [] {
      ConcatSize(chunks[1..]);
    }
  }

  /** Appending a chunk appends its bytes; an empty chunk adds nothing, so
      dropping empty chunks never changes the assembled blob. */
  lemma ConcatPush(chunks: seq<Chunk>, c: Chunk)
    ensures Concat(chunks + [c]) == Concat(chunks) + c.bytes
    ensures c.Size() == 0 ==> Concat(chunks + [c]) == Concat(chunks)
  {
    ConcatAppend(chunks, [c]);
    assert Concat([c]) == c.bytes + Concat([]);
  }

  /** The URLs the list holds, in list order. */
  function UrlsOf(s: seq<Recording>): (urls: seq<Url>)
    ensures |urls| == |s|
    ensures forall i :: 0 <= i < |s| ==> urls[i] == s[i].url
  {
    seq(|s|, i requires 0 <= i < |s| => s[i].url)
  }

  /** Sorted by id, largest first (the comparator `(a, b) => b.id - a.id`). */
  predicate NewestFirst(s: seq<Recording>)
  {
    forall i, j :: 0 <= i < j < |s| ==> s[i].id >= s[j].id
  }

  /** Places `x` after every entry whose id is at least `x.id`: the step of a
      stable insertion sort in which `x` came last. */
  function InsertNewestFirst(s: seq<Recording>, x: Recording): (r: seq<Recording>)
  {
    if s == [] then [x]
    else if s[0].id >= x.id then [s[0]] + InsertNewestFirst(s[1..], x)
    else [x] + s
  }

  /** A stable sort by id, largest first. `Array.prototype.sort` is stable, and
      a stable sort by a given comparator has exactly one possible result
      (`SortUnique`), so this insertion sort computes what the source's
      `sort` call does. */
  function SortNewestFirst(s: seq<Recording>): seq<Recording>
  {
    if s == [] then [] else InsertNewestFirst(SortNewestFirst(s[..|s| - 1]), s[|s| - 1])
  }

  /** The entries of `s` with id `k`, in their order in `s`. */
  function WithId(s: seq<Recording>, k: int): seq<Recording>
  {
    if s == [] then []
    else WithId(s[..|s| - 1], k) + (if s[|s| - 1].id == k then [s[|s| - 1]] else [])
  }

  /** Inserting adds exactly the new entry. */
  lemma {:induction false} InsertPermutes(s: seq<Recording>, x: Recording)
    ensures multiset(InsertNewestFirst(s, x)) == multiset(s) + multiset{x}
    decreases |s|
  {
    if s != [] && s[0].id >= x.id {
      InsertPermutes(s[1..], x);
      assert s == [s[0]] + s[1..];
    }
  }

  /** `InsertNewestFirst` adds exactly the new entry's URL to the list's URLs. */
  lemma {:induction false} InsertUrls(s: seq<Recording>, x: Recording)
    ensures multiset(UrlsOf(InsertNewestFirst(s, x))) == multiset(UrlsOf(s)) + multiset{x.url}
    decreases |s|
  {
    if s == [] {
      assert UrlsOf([x]) == [x.url];
    } else {
      var head := [s[0]];
      assert UrlsOf(head) == [s[0].url];
      assert s == head + s[1..];
      UrlsOfAppend(head, s[1..]);
      if s[0].id >= x.id {
        InsertUrls(s[1..], x);
        UrlsOfAppend(head, InsertNewestFirst(s[1..], x));
      } else {
        assert UrlsOf([x]) == [x.url];
        UrlsOfAppend([x], s);
      }
    }
  }

  /** Inserting into a newest-first list keeps it newest first. */
  lemma {:induction false} InsertSorted(s: seq<Recording>, x: Recording)
    requires NewestFirst(s)
    ensures NewestFirst(InsertNewestFirst(s, x))
    decreases |s|
  {
    if s != [] && s[0].id >= x.id {
      InsertSorted(s[1..], x);
      InsertBounded(s[1..], x, s[0].id);
      ConsSorted(s[0], InsertNewestFirst(s[1..], x));
    } else if s != [] {
      ConsSorted(x, s);
    }
  }

  /** Inserting keeps every id under a common bound. */
  lemma {:induction false} InsertBounded(s: seq<Recording>, x: Recording, b: int)
    requires forall i :: 0 <= i < |s| ==> s[i].id <= b
    requires x.id <= b
    ensures forall i :: 0 <= i < |InsertNewestFirst(s, x)| ==> InsertNewestFirst(s, x)[i].id <= b
    decreases |s|
  {
    var r := InsertNewestFirst(s, x);
    if s != [] && s[0].id >= x.id {
      InsertBounded(s[1..], x, b);
      forall i | 0 <= i < |r| ensures r[i].id <= b {
        if i > 0 {
          assert r[i] == InsertNewestFirst(s[1..], x)[i - 1];
        }
      }
    } else if s != [] {
      forall i | 0 <= i < |r| ensures r[i].id <= b {
        if i > 0 {
          assert r[i] == s[i - 1];
        }
      }
    }
  }

  /** An entry no older than everything in a newest-first list can go in front. */
  lemma ConsSorted(a: Recording, t: seq<Recording>)
    requires NewestFirst(t)
    requires forall i :: 0 <= i < |t| ==> t[i].id <= a.id
    ensures NewestFirst([a] + t)
  {
    var r := [a] + t;
    forall i, j | 0 <= i < j < |r| ensures r[i].id >= r[j].id {
      assert r[j] == t[j - 1];
      if i > 0 {
        assert r[i] == t[i - 1];
      }
    }
  }

  /** An entry no newer than all the others goes last. */
  lemma {:induction false} InsertAtEnd(s: seq<Recording>, x: Recording)
    requires forall i :: 0 <= i < |s| ==> s[i].id >= x.id
    ensures InsertNewestFirst(s, x) == s + [x]
    decreases |s|
  {
    if s != [] {
      InsertAtEnd(s[1..], x);
      assert s == [s[0]] + s[1..];
    }
  }

  /** The sorted list holds exactly the entries it was given. */
  lemma {:induction false} SortPermutes(s: seq<Recording>)
    ensures multiset(SortNewestFirst(s)) == multiset(s)
    decreases |s|
  {
    if s != [] {
      var init := s[..|s| - 1];
      SortPermutes(init);
      InsertPermutes(SortNewestFirst(init), s[|s| - 1]);
      assert s == init + [s[|s| - 1]];
    }
  }

  /** The sorted list is newest first. */
  lemma {:induction false} SortSorted(s: seq<Recording>)
    ensures NewestFirst(SortNewestFirst(s))
    decreases |s|
  {
    if s != [] {
      SortSorted(s[..|s| - 1]);
      InsertSorted(SortNewestFirst(s[..|s| - 1]), s[|s| - 1]);
    }
  }

  /** Sorting a list that is already newest first leaves it as it is. */
  lemma {:induction false} SortOfSorted(s: seq<Recording>)
    requires NewestFirst(s)
    ensures SortNewestFirst(s) == s
    decreases |s|
  {
    if s != [] {
      var init := s[..|s| - 1];
      SortOfSorted(init);
      InsertAtEnd(init, s[|s| - 1]);
    }
  }

  /** Pushing onto a newest-first list and re-sorting is one stable insertion. */
  lemma PushThenSort(s: seq<Recording>, x: Recording)
    requires NewestFirst(s)
    ensures SortNewestFirst(s + [x]) == InsertNewestFirst(s, x)
  {
    assert (s + [x])[..|s|] == s;
    SortOfSorted(s);
  }

  /** Selecting by id distributes over concatenation. */
  lemma {:induction false} WithIdAppend(a: seq<Recording>, b: seq<Recording>, k: int)
    ensures WithId(a + b, k) == WithId(a, k) + WithId(b, k)
    decreases |b|
  {
    if b == [] {
      assert a + b == a;
    } else {
      var b' := b[..|b| - 1];
      assert (a + b)[..|a + b| - 1] == a + b' && (a + b)[|a + b| - 1] == b[|b| - 1];
      WithIdAppend(a, b', k);
    }
  }

  /** No entry with id `k` selects nothing. */
  lemma {:induction false} WithIdNone(s: seq<Recording>, k: int)
    requires forall i :: 0 <= i < |s| ==> s[i].id != k
    ensures WithId(s, k) == []
    decreases |s|
  {
    if s != [] {
      WithIdNone(s[..|s| - 1], k);
    }
  }

  /** Inserting `x` into a newest-first list puts it after every entry
      with its id. */
  lemma {:induction false} InsertStable(s: seq<Recording>, x: Recording, k: int)
    requires NewestFirst(s)
    ensures WithId(InsertNewestFirst(s, x), k) == WithId(s, k) + (if x.id == k then [x] else [])
    decreases |s|
  {
    if s == [] {
      assert WithId([x], k) == WithId([], k) + (if x.id == k then [x] else []);
    } else if s[0].id >= x.id {
      InsertStable(s[1..], x, k);
      KeepHead(s[0], InsertNewestFirst(s[1..], x), s[1..], k, if x.id == k then [x] else []);
      assert [s[0]] + s[1..] == s;
    } else {
      InsertFront(s, x, k);
    }
  }

  /** Putting the same entry in front of two lists whose selections differ by
      a suffix keeps that difference. */
  lemma KeepHead(head: Recording, rest: seq<Recording>, s: seq<Recording>, k: int, tail: seq<Recording>)
    requires WithId(rest, k) == WithId(s, k) + tail
    ensures WithId([head] + rest, k) == WithId([head] + s, k) + tail
  {
    WithIdAppend([head], rest, k);
    WithIdAppend([head], s, k);
  }

  /** An entry newer than the head of a newest-first list goes first; no
      entry of the list shares its id. */
  lemma InsertFront(s: seq<Recording>, x: Recording, k: int)
    requires NewestFirst(s) && s != [] && s[0].id < x.id
    ensures WithId([x] + s, k) == WithId(s, k) + (if x.id == k then [x] else [])
  {
    WithIdAppend([x], s, k);
    assert WithId([x], k) == WithId([], k) + (if x.id == k then [x] else []);
    if x.id == k {
      WithIdNone(s, k);
    }
  }

  /** Stability: entries with equal ids keep their relative order. */
  lemma {:induction false} SortStable(s: seq<Recording>, k: int)
    ensures WithId(SortNewestFirst(s), k) == WithId(s, k)
    decreases |s|
  {
    if s != [] {
      var init := s[..|s| - 1];
      SortStable(init, k);
      SortSorted(init);
      InsertStable(SortNewestFirst(init), s[|s| - 1], k);
    }
  }

  /** A newest-first order that keeps each id's entries in their order in `s`
      is the one `SortNewestFirst` computes: a stable sort has one result. */
  lemma SortUnique(s: seq<Recording>, r: seq<Recording>)
    requires NewestFirst(r)
    requires forall k :: WithId(r, k) == WithId(s, k)
    ensures r == SortNewestFirst(s)
  {
    var t := SortNewestFirst(s);
    SortSorted(s);
    forall k
      ensures WithId(r, k) == WithId(t, k)
    {
      SortStable(s, k);
    }
    SameSelectionsEqual(r, t);
  }

  /** Two newest-first lists that select the same entries for every id are equal. */
  lemma {:induction false} SameSelectionsEqual(a: seq<Recording>, b: seq<Recording>)
    requires NewestFirst(a) && NewestFirst(b)
    requires forall k :: WithId(a, k) == WithId(b, k)
    ensures a == b
    decreases |a| + |b|
  {
    if a != [] || b != [] {
      if a != [] {
        LastSelected(a);
        SelectedOccurs(b, a[|a| - 1].id);
      }
      if b != [] {
        LastSelected(b);
        SelectedOccurs(a, b[|b| - 1].id);
      }
      var a', x := a[..|a| - 1], a[|a| - 1];
      var b', y := b[..|b| - 1], b[|b| - 1];
      LastSelected(a);
      LastSelected(b);
      assert WithId(a, x.id) == WithId(a', x.id) + [x];
      assert WithId(b, x.id) == WithId(b', x.id) + [y];
      assert x == y by {
        assert WithId(a, x.id)[|WithId(a, x.id)| - 1] == x;
      }
      forall k
        ensures WithId(a', k) == WithId(b', k)
      {
        assert WithId(a, k) == WithId(b, k);
        assert WithId(a, k) == WithId(a', k) + (if x.id == k then [x] else []);
        assert WithId(b, k) == WithId(b', k) + (if y.id == k then [y] else []);
        if x.id == k {
          assert WithId(a', k) == WithId(a, k)[..|WithId(a, k)| - 1];
          assert WithId(b', k) == WithId(b, k)[..|WithId(b, k)| - 1];
        } else {
          assert WithId(a', k) == WithId(a, k);
          assert WithId(b', k) == WithId(b, k);
        }
      }
      SameSelectionsEqual(a', b');
      assert a == a' + [x] && b == b' + [y];
    }
  }

  /** Only an id that occurs in the list selects anything. */
  lemma {:induction false} SelectedOccurs(s: seq<Recording>, k: int)
    ensures WithId(s, k) != [] ==> exists i :: 0 <= i < |s| && s[i].id == k
    decreases |s|
  {
    if s != [] {
      SelectedOccurs(s[..|s| - 1], k);
    }
  }

  /** The last entry of a non-empty list, the oldest when it is newest first,
      is the last entry selected for its id. */
  lemma LastSelected(s: seq<Recording>)
    requires s != []
    ensures WithId(s, s[|s| - 1].id) == WithId(s[..|s| - 1], s[|s| - 1].id) + [s[|s| - 1]]
    ensures NewestFirst(s) ==> NewestFirst(s[..|s| - 1])
    ensures NewestFirst(s) ==> forall i :: 0 <= i < |s| ==> s[i].id >= s[|s| - 1].id
  {
  }

  /** `Array.prototype.findIndex` by id: the first position holding `id`, or -1. */
  function FindIndex(s: seq<Recording>, id: int): (r: int)
    ensures -1 <= r < |s|
    ensures r == -1 <==> forall i :: 0 <= i < |s| ==> s[i].id != id
    ensures r >= 0 ==> s[r].id == id && forall j :: 0 <= j < r ==> s[j].id != id
  {
    if s == [] then -1
    else if s[0].id == id then 0
    else
      var r := FindIndex(s[1..], id);
      if r == -1 then -1 else r + 1
  }

  /** `splice(i, 1)`: the list without its `i`th entry. */
  function RemoveAt(s: seq<Recording>, i: nat): (r: seq<Recording>)
    requires i < |s|
    ensures |r| == |s| - 1
    ensures forall j :: 0 <= j < i ==> r[j] == s[j]
    ensures forall j :: i <= j < |r| ==> r[j] == s[j + 1]
  {
    s[..i] + s[i + 1..]
  }

  /** Removing an entry keeps the others in newest-first order. */
  lemma RemoveAtSorted(s: seq<Recording>, i: nat)
    requires i < |s| && NewestFirst(s)
    ensures NewestFirst(RemoveAt(s, i))
  {
    var r := RemoveAt(s, i);
    forall a, b | 0 <= a < b < |r| ensures r[a].id >= r[b].id {
      var a' := if a < i then a else a + 1;
      var b' := if b < i then b else b + 1;
      assert r[a] == s[a'] && r[b] == s[b'];
    }
  }

  /** Removing an entry removes exactly that entry. */
  lemma RemoveAtPermutes(s: seq<Recording>, i: nat)
    requires i < |s|
    ensures multiset(RemoveAt(s, i)) + multiset{s[i]} == multiset(s)
  {
    var pre, post := s[..i], s[i + 1..];
    assert s == pre + [s[i]] + post;
    assert RemoveAt(s, i) == pre + post;
  }

  /** Removing an entry releases exactly its URL from the list. */
  lemma RemoveAtUrls(s: seq<Recording>, i: nat)
    requires i < |s|
    ensures multiset(UrlsOf(RemoveAt(s, i))) + multiset{s[i].url} == multiset(UrlsOf(s))
  {
    var u, r := UrlsOf(s), UrlsOf(RemoveAt(s, i));
    var v := r[..i] + [s[i].url] + r[i..];
    forall j | 0 <= j < |u| ensures u[j] == v[j] {
      if j < i {
        assert v[j] == r[j];
      } else if j > i {
        assert v[j] == r[j - 1];
      }
    }
    assert u == v;
    MultisetInsert(u, r, s[i].url, i);
  }

  /** Putting `x` back at position `i` adds `x` once. */
  lemma MultisetInsert<T>(u: seq<T>, r: seq<T>, x: T, i: nat)
    requires i <= |r| && u == r[..i] + [x] + r[i..]
    ensures multiset(u) == multiset(r) + multiset{x}
  {
    assert r == r[..i] + r[i..];
  }

  /** The URLs of a concatenation are the concatenated URLs. */
  lemma {:induction false} UrlsOfAppend(a: seq<Recording>, b: seq<Recording>)
    ensures UrlsOf(a + b) == UrlsOf(a) + UrlsOf(b)
  {
  }
}
