/** The bounded recording store of storage-manager.js: one list of records
    under one storage key, kept newest-first, at most `maxRecordings` long and
    at most `maxStorageSize` bytes in total. */
module StorageManagement {
  import opened Records

  // ----- the eviction policy as a specification -----

  /** The count rule: keep the first `maxCount` records. */
  function TruncateCount(s: seq<Recording>, maxCount: nat): (r: seq<Recording>)
    ensures |r| == if |s| <= maxCount then |s| else maxCount
    ensures r == s[..|r|]
  {
    if |s| > maxCount then s[..maxCount] else s
  }

  /** The byte walk: take records from the front while the running total stays
      within `budget`; stop at the first one that does not fit. */
  function FitBudget(s: seq<Recording>, budget: nat): (r: seq<Recording>)
    ensures |r| <= |s|
    ensures r == s[..|r|]
  {
    if s == [] || s[0].sizeBytes > budget then []
    else
      var rest := FitBudget(s[1..], budget - s[0].sizeBytes);
      assert [s[0]] + rest == s[..|rest| + 1];
      [s[0]] + rest
  }

  /** What `enforceLimits` keeps of a list. */
  function Limited(s: seq<Recording>, maxCount: nat, maxBytes: nat): (r: seq<Recording>)
    ensures |r| <= maxCount && |r| <= |s|
    ensures TotalSize(r) <= maxBytes
  {
    FitBudgetPrefix(TruncateCount(s, maxCount), maxBytes);
    FitBudget(TruncateCount(s, maxCount), maxBytes)
  }

  /** The byte walk yields a prefix within budget, and it stops only where the
      next record would overflow the budget. */
  lemma {:induction false} FitBudgetPrefix(s: seq<Recording>, budget: nat)
    ensures |FitBudget(s, budget)| <= |s|
    ensures FitBudget(s, budget) == s[..|FitBudget(s, budget)|]
    ensures TotalSize(FitBudget(s, budget)) <= budget
    ensures |FitBudget(s, budget)| < |s| ==>
              TotalSize(FitBudget(s, budget)) + s[|FitBudget(s, budget)|].sizeBytes > budget
  {
    if s != [] && s[0].sizeBytes <= budget {
      var rest := FitBudget(s[1..], budget - s[0].sizeBytes);
      FitBudgetPrefix(s[1..], budget - s[0].sizeBytes);
      assert FitBudget(s, budget) == [s[0]] + rest;
      assert [s[0]] + rest == s[..|rest| + 1];
    }
  }

  /** One step of the byte walk: the head is taken when it fits, and the walk
      ends when it does not. */
  lemma FitBudgetStep(s: seq<Recording>, budget: nat)
    requires s != []
    ensures s[0].sizeBytes <= budget ==> FitBudget(s, budget) == [s[0]] + FitBudget(s[1..], budget - s[0].sizeBytes)
    ensures s[0].sizeBytes > budget ==> FitBudget(s, budget) == []
  {
  }

  /** The loop of `enforceLimits` takes record `i` when it fits. */
  lemma WalkTakes(rs: seq<Recording>, i: nat, taken: seq<Recording>, total: nat, budget: nat)
    requires i < |rs| && taken == rs[..i] && total == TotalSize(taken) <= budget
    requires FitBudget(rs, budget) == taken + FitBudget(rs[i..], budget - total)
    requires total + rs[i].sizeBytes <= budget
    ensures taken + [rs[i]] == rs[..i + 1]
    ensures TotalSize(taken + [rs[i]]) == total + rs[i].sizeBytes
    ensures FitBudget(rs, budget) == (taken + [rs[i]]) + FitBudget(rs[i + 1..], budget - (total + rs[i].sizeBytes))
  {
    FitBudgetStep(rs[i..], budget - total);
    assert rs[i..][1..] == rs[i + 1..];
    TotalSizeAppend(taken, [rs[i]]);
  }

  /** The loop of `enforceLimits` stops at record `i` when it does not fit. */
  lemma WalkStops(rs: seq<Recording>, i: nat, taken: seq<Recording>, total: nat, budget: nat)
    requires i < |rs| && total <= budget
    requires FitBudget(rs, budget) == taken + FitBudget(rs[i..], budget - total)
    requires total + rs[i].sizeBytes > budget
    ensures FitBudget(rs, budget) == taken
  {
    FitBudgetStep(rs[i..], budget - total);
  }

  /** `enforceLimits` keeps at most `maxCount` records, at most `maxBytes`
      bytes, and a prefix of its input (so the newest-first order survives). */
  lemma LimitedBounds(s: seq<Recording>, maxCount: nat, maxBytes: nat)
    ensures |Limited(s, maxCount, maxBytes)| <= maxCount
    ensures TotalSize(Limited(s, maxCount, maxBytes)) <= maxBytes
    ensures |Limited(s, maxCount, maxBytes)| <= |s|
    ensures Limited(s, maxCount, maxBytes) == s[..|Limited(s, maxCount, maxBytes)|]
  {
    var t := TruncateCount(s, maxCount);
    FitBudgetPrefix(t, maxBytes);
    var r := FitBudget(t, maxBytes);
    assert t == s[..|t|];
    assert r == t[..|r|] == s[..|r|];
  }

  /** The cut is positional: the survivors are exactly the prefixes of the
      count-truncated list whose byte total fits, so everything after the
      first record that overflows is dropped, however small. */
  lemma LimitedIsLongestFittingPrefix(s: seq<Recording>, maxCount: nat, maxBytes: nat, k: nat)
    requires k <= |TruncateCount(s, maxCount)|
    ensures TotalSize(s[..k]) <= maxBytes <==> k <= |Limited(s, maxCount, maxBytes)|
  {
    var t := TruncateCount(s, maxCount);
    var r := Limited(s, maxCount, maxBytes);
    FitBudgetPrefix(t, maxBytes);
    assert t[..k] == s[..k];
    if k <= |r| {
      TotalSizePrefixMonotone(t, k, |r|);
      assert t[..|r|] == r;
    } else {
      TotalSizePrefixMonotone(t, |r| + 1, k);
      assert t[..|r| + 1] == r + [t[|r|]];
      TotalSizeAppend(r, [t[|r|]]);
    }
  }

  /** Every surviving record is at most `maxBytes` on its own: a record larger
      than the whole budget never survives, even when it is the newest. */
  lemma LimitedDropsOversized(s: seq<Recording>, maxCount: nat, maxBytes: nat)
    ensures forall x :: x in Limited(s, maxCount, maxBytes) ==> x.sizeBytes <= maxBytes
  {
    var r := Limited(s, maxCount, maxBytes);
    LimitedBounds(s, maxCount, maxBytes);
    forall x | x in r
      ensures x.sizeBytes <= maxBytes
    {
      var i :| 0 <= i < |r| && r[i] == x;
      assert r == r[..i] + [x] + r[i + 1..];
      TotalSizeAppend(r[..i] + [x], r[i + 1..]);
      TotalSizeAppend(r[..i], [x]);
    }
  }

  /** A list already within both limits comes back unchanged, and only such a
      list does; hence applying the policy twice equals applying it once. */
  lemma {:induction false} LimitedIdentity(s: seq<Recording>, maxCount: nat, maxBytes: nat)
    ensures Limited(s, maxCount, maxBytes) == s <==> |s| <= maxCount && TotalSize(s) <= maxBytes
    ensures Limited(Limited(s, maxCount, maxBytes), maxCount, maxBytes) == Limited(s, maxCount, maxBytes)
  {
    LimitedBounds(s, maxCount, maxBytes);
    if |s| <= maxCount && TotalSize(s) <= maxBytes {
      FitsUnchanged(s, maxBytes);
    }
    var r := Limited(s, maxCount, maxBytes);
    FitsUnchanged(r, maxBytes);
  }

  lemma {:induction false} FitsUnchanged(s: seq<Recording>, budget: nat)
    requires TotalSize(s) <= budget
    ensures FitBudget(s, budget) == s
  {
    if s != [] {
      FitsUnchanged(s[1..], budget - s[0].sizeBytes);
    }
  }

  /** A prefix of a newest-first list is newest-first. */
  lemma LimitedKeepsOrder(s: seq<Recording>, maxCount: nat, maxBytes: nat)
    requires NewestFirst(s)
    ensures NewestFirst(Limited(s, maxCount, maxBytes))
  {
    LimitedBounds(s, maxCount, maxBytes);
    var r := Limited(s, maxCount, maxBytes);
    assert forall i :: 0 <= i < |r| ==> r[i] == s[i];
  }

  /** The list a save writes: the old list plus the new record, sorted
      newest-first, then cut down by the limits. */
  function AfterSave(s: seq<Recording>, x: Recording, maxCount: nat, maxBytes: nat): seq<Recording>
  {
    Limited(SortNewestFirst(s + [x]), maxCount, maxBytes)
  }

  /** What a save leaves behind: newest-first, within both limits, and made
      only of the records that were there plus the new one. */
  lemma SavedListIsValid(s: seq<Recording>, x: Recording, maxCount: nat, maxBytes: nat)
    ensures NewestFirst(AfterSave(s, x, maxCount, maxBytes))
    ensures |AfterSave(s, x, maxCount, maxBytes)| <= maxCount
    ensures TotalSize(AfterSave(s, x, maxCount, maxBytes)) <= maxBytes
    ensures multiset(AfterSave(s, x, maxCount, maxBytes)) <= multiset(s) + multiset{x}
  {
    var t := SortNewestFirst(s + [x]);
    LimitedKeepsOrder(t, maxCount, maxBytes);
    LimitedBounds(t, maxCount, maxBytes);
    PrefixSubMultiset(t, |Limited(t, maxCount, maxBytes)|);
  }

  lemma PrefixSubMultiset(t: seq<Recording>, k: nat)
    requires k <= |t|
    ensures multiset(t[..k]) <= multiset(t)
  {
    assert t == t[..k] + t[k..];
  }

  /** Saving a record newer than everything in a newest-first list puts it in
      front and then applies the limits; in particular a record larger than
      the byte budget leaves nothing behind. */
  lemma SaveOfNewest(s: seq<Recording>, x: Recording, maxCount: nat, maxBytes: nat)
    requires NewestFirst(s)
    requires forall y :: y in s ==> y.date < x.date
    ensures AfterSave(s, x, maxCount, maxBytes) == Limited([x] + s, maxCount, maxBytes)
    ensures maxCount > 0 && x.sizeBytes > maxBytes ==> AfterSave(s, x, maxCount, maxBytes) == []
  {
    SortAppendNewest(s, x);
  }

  // ----- eviction scenarios: count limit 2; byte budget 1500 -----

  /** With a count limit of 2, saving A, B, C (each newer than the last,
      1000 bytes each) keeps [C, B]: A goes by count. */
  lemma CountEvictionScenario(a: Recording, b: Recording, c: Recording)
    requires a.date < b.date < c.date
    requires a.sizeBytes == b.sizeBytes == c.sizeBytes == 1000
    ensures AfterSave(AfterSave(AfterSave([], a, 2, 1000000), b, 2, 1000000), c, 2, 1000000) == [c, b]
  {
    SaveIntoEmpty(a, 2, 1000000);
    SaveSecond(a, b, 2, 1000000);
    SaveOntoTwo(a, b, c);
  }

  /** With a byte budget of 1500, saving A then the newer B (1000 bytes each)
      keeps only [B]: B fits, A would overflow. */
  lemma BudgetEvictionScenario(a: Recording, b: Recording)
    requires a.date < b.date
    requires a.sizeBytes == b.sizeBytes == 1000
    ensures AfterSave(AfterSave([], a, 10, 1500), b, 10, 1500) == [b]
  {
    SaveIntoEmpty(a, 10, 1500);
    SaveOfNewest([a], b, 10, 1500);
    assert [b] + [a] == [b, a];
    assert FitBudget([a], 500) == [];
    assert FitBudget([b, a], 1500) == [b] + FitBudget([a], 500);
  }

  lemma SaveIntoEmpty(a: Recording, maxCount: nat, maxBytes: nat)
    requires 0 < maxCount && a.sizeBytes <= maxBytes
    ensures AfterSave([], a, maxCount, maxBytes) == [a]
  {
    SaveOfNewest([], a, maxCount, maxBytes);
    assert [a] + [] == [a];
    LimitedIdentity([a], maxCount, maxBytes);
  }

  lemma SaveSecond(a: Recording, b: Recording, maxCount: nat, maxBytes: nat)
    requires a.date < b.date
    requires 2 <= maxCount && a.sizeBytes + b.sizeBytes <= maxBytes
    ensures AfterSave([a], b, maxCount, maxBytes) == [b, a]
  {
    SaveOfNewest([a], b, maxCount, maxBytes);
    assert [b] + [a] == [b, a];
    TotalSizeAppend([b], [a]);
    LimitedIdentity([b, a], maxCount, maxBytes);
  }

  lemma SaveOntoTwo(a: Recording, b: Recording, c: Recording)
    requires a.date < b.date < c.date
    requires a.sizeBytes == b.sizeBytes == c.sizeBytes == 1000
    ensures AfterSave([b, a], c, 2, 1000000) == [c, b]
  {
    SaveOfNewest([b, a], c, 2, 1000000);
    assert [c] + [b, a] == [c, b, a];
    assert TruncateCount([c, b, a], 2) == [c, b];
    TotalSizeAppend([c], [b]);
    assert [c] + [b] == [c, b];
    FitsUnchanged([c, b], 1000000);
  }

  // ----- statistics helpers -----

  /** The records carrying the type tag `kind`. */
  function OfKind(kind: string): Recording -> bool
  {
    (r: Recording) => r.kind == kind
  }

  /** How many records carry the type tag `kind`: the length of the list
      filtered by the tag. */
  function CountKind(s: seq<Recording>, kind: string): (n: nat)
    ensures n == |Filter(s, OfKind(kind))|
  {
    if s == [] then 0 else (if s[0].kind == kind then 1 else 0) + CountKind(s[1..], kind)
  }

  /** Videos and images together never outnumber the records, and they make
      up all of them when every tag is one of the two. */
  lemma {:induction false} KindCountsBounded(s: seq<Recording>)
    ensures CountKind(s, "video") + CountKind(s, "image") <= |s|
    ensures (forall x :: x in s ==> x.kind == "video" || x.kind == "image") ==>
              CountKind(s, "video") + CountKind(s, "image") == |s|
  {
    if s != [] {
      KindCountsBounded(s[1..]);
      assert forall x :: x in s[1..] ==> x in s;
    }
  }

  /** The records dated strictly after `cutoff` (the age sweep's filter). */
  function NewerThan(s: seq<Recording>, cutoff: int): seq<Recording>
  {
    Filter(s, (r: Recording) => r.date > cutoff)
  }

  datatype Stats = Stats(
    totalRecordings: nat,
    videoCount: nat,
    imageCount: nat,
    totalSize: nat,
    remainingSpace: int)

  datatype StorageError = FileReadFailed | WriteRejected

  // ----- the store -----

  class StorageManager {
    const maxRecordings: nat := 10
    const maxStorageSize: nat := 50 * 1024 * 1024
    /** The value under the 'screenRecordings' key. */
    var slot: Slot

    constructor (initial: Slot)
      ensures slot == initial
    {
      slot := initial;
    }

    /** `getAllRecordings`: the stored list, empty when missing or unparsable. */
    function GetAllRecordings(): (rs: seq<Recording>)
      reads this
      ensures slot.Holds? ==> rs == slot.records
      ensures !slot.Holds? ==> rs == []
    {
      ReadSlot(slot)
    }

    /** `getRecording`: the first stored record with the id, if any. */
    function GetRecording(id: string): (r: Option<Recording>)
      reads this
      ensures r.Some? ==> r.value in GetAllRecordings() && r.value.id == id
      ensures r.None? <==> forall x :: x in GetAllRecordings() ==> x.id != id
    {
      FindById(GetAllRecordings(), id)
    }

    /** `enforceLimits`: the count cut, then the newest-first byte walk. */
    method EnforceLimits(recordings: seq<Recording>) returns (filtered: seq<Recording>)
      ensures filtered == Limited(recordings, maxRecordings, maxStorageSize)
    {
      var rs := recordings;
      if |rs| > maxRecordings {
        rs := rs[..maxRecordings];
      }
      var totalSize := 0;
      filtered := [];
      var i := 0;
      assert rs[0..] == rs;
      while i < |rs|
        invariant i <= |rs|
        invariant filtered == rs[..i]
        invariant totalSize == TotalSize(filtered) <= maxStorageSize
        invariant FitBudget(rs, maxStorageSize) == filtered + FitBudget(rs[i..], maxStorageSize - totalSize)
      {
        var recording := rs[i];
        if totalSize + recording.sizeBytes <= maxStorageSize {
          WalkTakes(rs, i, filtered, totalSize, maxStorageSize);
          filtered := filtered + [recording];
          totalSize := totalSize + recording.sizeBytes;
        } else {
          WalkStops(rs, i, filtered, totalSize, maxStorageSize);
          break;
        }
        i := i + 1;
      }
    }

    /** `saveRecording`: add the converted record, sort newest-first, apply the
        limits and write. `converted` is the outcome of reading the payload
        (None when the reader failed); `accepted` is whether storage took the
        write. The new record is returned even when the limits dropped it. */
    method SaveRecording(converted: Option<Recording>, accepted: bool)
      returns (result: Result<Recording, StorageError>)
      modifies this
      ensures converted.None? ==> result == Failure(FileReadFailed) && slot == old(slot)
      ensures converted.Some? && !accepted ==> result == Failure(WriteRejected) && slot == old(slot)
      ensures converted.Some? && accepted ==>
                && result == Success(converted.value)
                && slot == Holds(AfterSave(old(GetAllRecordings()), converted.value, maxRecordings, maxStorageSize))
                && NewestFirst(GetAllRecordings())
                && |GetAllRecordings()| <= maxRecordings
                && TotalSize(GetAllRecordings()) <= maxStorageSize
                && GetStorageStats().remainingSpace >= 0
    {
      if converted.None? {
        return Failure(FileReadFailed);
      }
      var recording := converted.value;
      var recordings := GetAllRecordings();
      SavedListIsValid(recordings, recording, maxRecordings, maxStorageSize);
      recordings := recordings + [recording];
      recordings := SortNewestFirst(recordings);
      recordings := EnforceLimits(recordings);
      if !accepted {
        return Failure(WriteRejected);
      }
      slot := Holds(recordings);
      return Success(recording);
    }

    /** `deleteRecording`: drop every record with the id and write the rest.
        It reports success whether or not the id was present. */
    method DeleteRecording(id: string, accepted: bool) returns (ok: bool)
      modifies this
      ensures ok == accepted
      ensures accepted ==> slot == Holds(WithoutId(old(GetAllRecordings()), id))
      ensures accepted ==> GetRecording(id).None?
      ensures !accepted ==> slot == old(slot)
      ensures NewestFirst(old(GetAllRecordings())) ==> NewestFirst(GetAllRecordings())
      ensures |GetAllRecordings()| <= |old(GetAllRecordings())|
      ensures TotalSize(GetAllRecordings()) <= TotalSize(old(GetAllRecordings()))
    {
      var recordings := GetAllRecordings();
      if NewestFirst(recordings) {
        FilterKeepsNewestFirst(recordings, (r: Recording) => r.id != id);
      }
      FilterTotalSize(recordings, (r: Recording) => r.id != id);
      recordings := WithoutId(recordings, id);
      if !accepted {
        return false;
      }
      slot := Holds(recordings);
      return true;
    }

    /** `clearAllRecordings`: remove the key. */
    method ClearAllRecordings(accepted: bool) returns (ok: bool)
      modifies this
      ensures ok == accepted
      ensures accepted ==> slot == Absent && GetAllRecordings() == [] && GetStorageStats().totalRecordings == 0
      ensures !accepted ==> slot == old(slot)
    {
      if !accepted {
        return false;
      }
      slot := Absent;
      return true;
    }

    /** `getStorageStats` (its integer fields). */
    function GetStorageStats(): (st: Stats)
      reads this
      ensures st.totalRecordings == |GetAllRecordings()|
      ensures st.totalSize == TotalSize(GetAllRecordings())
      ensures st.totalSize + st.remainingSpace == maxStorageSize
      ensures st.videoCount + st.imageCount <= st.totalRecordings
    {
      var recordings := GetAllRecordings();
      var totalSize := TotalSize(recordings);
      KindCountsBounded(recordings);
      Stats(|recordings|, CountKind(recordings, "video"), CountKind(recordings, "image"),
            totalSize, maxStorageSize - totalSize)
    }

    /** `canStoreRecording`: the pre-flight check; advisory only, since a save
        does not consult it. */
    function CanStoreRecording(sizeBytes: int): (can: bool)
      reads this
      ensures can <==> TotalSize(GetAllRecordings()) + sizeBytes <= maxStorageSize
    {
      GetStorageStats().remainingSpace >= sizeBytes
    }

    /** `autoCleanup`: keep the records dated strictly after `cutoff`, writing
        only when at least one was removed. A failed write is swallowed. */
    method AutoCleanup(cutoff: int, accepted: bool)
      modifies this
      ensures var kept := NewerThan(old(GetAllRecordings()), cutoff);
              if accepted && exists x :: x in old(GetAllRecordings()) && x.date <= cutoff
              then slot == Holds(kept)
              else slot == old(slot)
      ensures slot != old(slot) ==> forall x :: x in GetAllRecordings() ==> x.date > cutoff
      ensures NewestFirst(old(GetAllRecordings())) ==> NewestFirst(GetAllRecordings())
      ensures |GetAllRecordings()| <= |old(GetAllRecordings())|
      ensures TotalSize(GetAllRecordings()) <= TotalSize(old(GetAllRecordings()))
    {
      var recordings := GetAllRecordings();
      if NewestFirst(recordings) {
        FilterKeepsNewestFirst(recordings, (r: Recording) => r.date > cutoff);
      }
      FilterTotalSize(recordings, (r: Recording) => r.date > cutoff);
      var filteredRecordings := NewerThan(recordings, cutoff);
      FilterKeepsAll(recordings, (r: Recording) => r.date > cutoff);
      if |filteredRecordings| != |recordings| && accepted {
        slot := Holds(filteredRecordings);
      }
    }
  }
}
