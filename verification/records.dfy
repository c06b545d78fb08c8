/** The recording record shared by the recorder and the storage manager, the
    value kept under the 'screenRecordings' key, and the list operations both
    of them apply to it: the byte sum, filtering, and the newest-first sort. */
module Records {

  datatype Option<T> = None | Some(value: T)

  datatype Result<T, E> = Success(value: T) | Failure(error: E)

  /** One saved video or screenshot. `date` is the creation time as a
      millisecond timestamp, `data` the payload as a data URL (opaque here),
      `kind` the type tag ("video" or "image" in practice). The human-readable
      `size` string is not modelled (it is floating-point formatting). */
  datatype Recording = Recording(
    id: string,
    name: string,
    data: string,
    sizeBytes: nat,
    date: int,
    kind: string,
    mimeType: string)

  /** What browser storage holds under the recordings key: nothing, a value
      that does not parse, or a parsed list of records. */
  datatype Slot = Absent | Unparsable | Holds(records: seq<Recording>)

  /** The list a reader obtains: a missing or unparsable value reads as empty. */
  function ReadSlot(slot: Slot): (r: seq<Recording>)
    ensures slot.Holds? ==> r == slot.records
    ensures !slot.Holds? ==> r == []
  {
    if slot.Holds? then slot.records else []
  }

  // ----- byte sum -----

  /** Sum of `sizeBytes` over a list: zero for no records, and never below
      the size of any one record. */
  function TotalSize(s: seq<Recording>): (total: nat)
    ensures s == [] ==> total == 0
    ensures forall i :: 0 <= i < |s| ==> s[i].sizeBytes <= total
  {
    if s == [] then 0
    else
      assert forall i :: 1 <= i < |s| ==> s[i] == s[1..][i - 1];
      s[0].sizeBytes + TotalSize(s[1..])
  }

  lemma {:induction false} TotalSizeAppend(a: seq<Recording>, b: seq<Recording>)
    ensures TotalSize(a + b) == TotalSize(a) + TotalSize(b)
  {
    if a == [] {
      assert a + b == b;
    } else {
      assert (a + b)[1..] == a[1..] + b;
      TotalSizeAppend(a[1..], b);
    }
  }

  /** Sizes are never negative, so the running total only grows along a list. */
  lemma TotalSizePrefixMonotone(s: seq<Recording>, i: nat, j: nat)
    requires i <= j <= |s|
    ensures TotalSize(s[..i]) <= TotalSize(s[..j])
  {
    assert s[..j] == s[..i] + s[i..j];
    TotalSizeAppend(s[..i], s[i..j]);
  }

  // ----- filtering -----

  /** `Array.prototype.filter`: the records satisfying `keep`, in their order. */
  function Filter(s: seq<Recording>, keep: Recording -> bool): (r: seq<Recording>)
    ensures |r| <= |s|
    ensures forall x :: x in r <==> x in s && keep(x)
  {
    if s == [] then []
    else (if keep(s[0]) then [s[0]] else []) + Filter(s[1..], keep)
  }

  /** Filtering distributes over concatenation, so relative order is kept. */
  lemma {:induction false} FilterAppend(a: seq<Recording>, b: seq<Recording>, keep: Recording -> bool)
    ensures Filter(a + b, keep) == Filter(a, keep) + Filter(b, keep)
  {
    if a == [] {
      assert a + b == b;
    } else {
      assert (a + b)[1..] == a[1..] + b;
      FilterAppend(a[1..], b, keep);
    }
  }

  /** A filter drops nothing exactly when every record passes, and that is
      exactly when the length is unchanged. */
  lemma {:induction false} FilterKeepsAll(s: seq<Recording>, keep: Recording -> bool)
    ensures (forall x :: x in s ==> keep(x)) <==> Filter(s, keep) == s
    ensures Filter(s, keep) == s <==> |Filter(s, keep)| == |s|
  {
    if s != [] {
      FilterKeepsAll(s[1..], keep);
      if !keep(s[0]) {
        assert s[0] !in Filter(s, keep);
      }
      if forall x :: x in s ==> keep(x) {
        assert forall x :: x in s[1..] ==> x in s;
      }
    }
  }

  /** Filtering never increases the byte total. */
  lemma {:induction false} FilterTotalSize(s: seq<Recording>, keep: Recording -> bool)
    ensures TotalSize(Filter(s, keep)) <= TotalSize(s)
  {
    if s != [] {
      FilterTotalSize(s[1..], keep);
      var head := if keep(s[0]) then [s[0]] else [];
      TotalSizeAppend(head, Filter(s[1..], keep));
    }
  }

  /** The list without the records carrying `id` (both files' delete filter). */
  function WithoutId(s: seq<Recording>, id: string): (r: seq<Recording>)
    ensures |r| <= |s|
    ensures forall x :: x in r <==> x in s && x.id != id
  {
    Filter(s, (r: Recording) => r.id != id)
  }

  /** Deleting an id removes every record with it, keeps every other record,
      and deleting it a second time changes nothing. */
  lemma WithoutIdRemovesExactly(s: seq<Recording>, id: string)
    ensures forall x :: x in WithoutId(s, id) <==> x in s && x.id != id
    ensures WithoutId(WithoutId(s, id), id) == WithoutId(s, id)
    ensures (forall x :: x in s ==> x.id != id) ==> WithoutId(s, id) == s
  {
    FilterKeepsAll(WithoutId(s, id), (r: Recording) => r.id != id);
    FilterKeepsAll(s, (r: Recording) => r.id != id);
  }

  /** Filtering a newest-first list leaves it newest-first. */
  lemma {:induction false} FilterKeepsNewestFirst(s: seq<Recording>, keep: Recording -> bool)
    requires NewestFirst(s)
    ensures NewestFirst(Filter(s, keep))
  {
    if s != [] {
      FilterKeepsNewestFirst(s[1..], keep);
      var rest := Filter(s[1..], keep);
      if keep(s[0]) {
        var r := [s[0]] + rest;
        forall i, j | 0 <= i < j < |r|
          ensures r[i].date >= r[j].date
        {
          if i == 0 {
            assert r[j] in s[1..];
            var k :| 0 <= k < |s[1..]| && s[1..][k] == r[j];
            assert s[k + 1] == r[j];
          } else {
            assert r[i] == rest[i - 1] && r[j] == rest[j - 1];
          }
        }
      }
    }
  }

  // ----- lookup -----

  /** `Array.prototype.find` on the id: the first record carrying `id`. */
  function FindById(s: seq<Recording>, id: string): (r: Option<Recording>)
    ensures r.None? <==> forall x :: x in s ==> x.id != id
    ensures r.Some? ==> exists i :: 0 <= i < |s| && s[i] == r.value && r.value.id == id &&
                                   forall j :: 0 <= j < i ==> s[j].id != id
  {
    if s == [] then None
    else if s[0].id == id then Some(s[0])
    else
      var rest := FindById(s[1..], id);
      assert forall x :: x in s ==> x == s[0] || x in s[1..];
      if rest.Some? then
        assert exists i :: 0 <= i < |s[1..]| && s[1..][i] == rest.value && rest.value.id == id &&
                           forall j :: 0 <= j < i ==> s[1..][j].id != id;
        var i :| 0 <= i < |s[1..]| && s[1..][i] == rest.value && rest.value.id == id &&
                 forall j :: 0 <= j < i ==> s[1..][j].id != id;
        assert s[i + 1] == rest.value;
        rest
      else rest
  }

  // ----- newest-first ordering -----

  /** Non-increasing by date: the order the comparator `b.date - a.date` asks for. */
  ghost predicate NewestFirst(s: seq<Recording>)
  {
    forall i, j :: 0 <= i < j < |s| ==> s[i].date >= s[j].date
  }

  /** Place `x` into a newest-first list in front of the first record that is
      not newer than it. */
  function Insert(x: Recording, s: seq<Recording>): seq<Recording>
  {
    if s == [] || x.date >= s[0].date then [x] + s
    else [s[0]] + Insert(x, s[1..])
  }

  lemma {:induction false} InsertPermutes(x: Recording, s: seq<Recording>)
    ensures multiset(Insert(x, s)) == multiset(s) + multiset{x}
    ensures |Insert(x, s)| == |s| + 1
  {
    if s != [] && x.date < s[0].date {
      InsertPermutes(x, s[1..]);
      assert s == [s[0]] + s[1..];
    }
  }

  lemma {:induction false} InsertSorted(x: Recording, s: seq<Recording>)
    requires NewestFirst(s)
    ensures NewestFirst(Insert(x, s))
  {
    if s != [] && x.date < s[0].date {
      InsertSorted(x, s[1..]);
      InsertPermutes(x, s[1..]);
      var t := Insert(x, s[1..]);
      forall k | 0 <= k < |t|
        ensures s[0].date >= t[k].date
      {
        assert t[k] in multiset(t);
        assert t[k] == x || t[k] in multiset(s[1..]);
        if t[k] != x {
          var m :| 0 <= m < |s[1..]| && s[1..][m] == t[k];
          assert s[m + 1] == t[k];
        }
      }
    }
  }

  /** The stable sort `sort((a, b) => new Date(b.date) - new Date(a.date))`,
      written as an insertion sort. */
  function SortNewestFirst(s: seq<Recording>): (r: seq<Recording>)
    ensures NewestFirst(r)
    ensures multiset(r) == multiset(s)
    ensures |r| == |s|
  {
    if s == [] then []
    else
      var rest := SortNewestFirst(s[1..]);
      InsertSorted(s[0], rest);
      InsertPermutes(s[0], rest);
      assert s == [s[0]] + s[1..];
      Insert(s[0], rest)
  }

  /** The records dated `d`, in list order. */
  function DatedAt(d: int): Recording -> bool
  {
    (r: Recording) => r.date == d
  }

  lemma {:induction false} InsertStable(x: Recording, s: seq<Recording>, d: int)
    requires NewestFirst(s)
    ensures Filter(Insert(x, s), DatedAt(d)) == Filter([x], DatedAt(d)) + Filter(s, DatedAt(d))
  {
    if s == [] || x.date >= s[0].date {
      FilterAppend([x], s, DatedAt(d));
    } else {
      InsertStable(x, s[1..], d);
      FilterAppend([s[0]], Insert(x, s[1..]), DatedAt(d));
      FilterAppend([s[0]], s[1..], DatedAt(d));
      assert [s[0]] + s[1..] == s;
    }
  }

  /** The sort is stable: records with the same date keep their relative order. */
  lemma {:induction false} SortStable(s: seq<Recording>, d: int)
    ensures Filter(SortNewestFirst(s), DatedAt(d)) == Filter(s, DatedAt(d))
  {
    if s != [] {
      SortStable(s[1..], d);
      InsertStable(s[0], SortNewestFirst(s[1..]), d);
      FilterAppend([s[0]], s[1..], DatedAt(d));
      assert [s[0]] + s[1..] == s;
    }
  }

  /** A list already newest-first comes back from the sort unchanged. */
  lemma {:induction false} SortOfSortedIsIdentity(s: seq<Recording>)
    requires NewestFirst(s)
    ensures SortNewestFirst(s) == s
  {
    if s != [] {
      SortOfSortedIsIdentity(s[1..]);
    }
  }

  /** Appending a record strictly newer than everything in a newest-first list
      and sorting puts it at the front and leaves the rest as it was. */
  lemma {:induction false} SortAppendNewest(s: seq<Recording>, x: Recording)
    requires NewestFirst(s)
    requires forall y :: y in s ==> y.date < x.date
    ensures SortNewestFirst(s + [x]) == [x] + s
  {
    if s == [] {
      assert s + [x] == [x];
    } else {
      assert (s + [x])[1..] == s[1..] + [x];
      SortAppendNewest(s[1..], x);
      assert Insert(s[0], s[1..]) == s;
      assert Insert(s[0], [x] + s[1..]) == [x] + Insert(s[0], s[1..]);
    }
  }
}
