/** The integer index bookkeeping of the peak detector
    (`src/pyBEEP/datapipeline/signal_processing.py`): the merging of close
    peak indices, the extraction of run boundaries from a label sequence,
    the pairing of derivative zeros with threshold crossings, and the input
    checks of `peak_detection`.  DataFrame labels are integers; the
    dictionaries keyed by `str(index)` are keyed here by the index itself
    (`str` is injective on integers); float values are `real`. */
module SignalProcessing {
  import opened Common

  /** A dictionary from a peak index to a boundary index. */
  type IndexDict = map<int, real>

  /** Python's `min(x, y)`: the first argument unless the second is smaller. */
  function MinOf(x: real, y: real): (r: real)
    ensures r <= x && r <= y && (r == x || r == y)
  {
    if y < x then y else x
  }

  /** Python's `max(x, y)`: the first argument unless the second is larger. */
  function MaxOf(x: real, y: real): (r: real)
    ensures r >= x && r >= y && (r == x || r == y)
  {
    if y > x then y else x
  }

  predicate StrictlyIncreasing(s: seq<int>)
  {
    forall i, j | 0 <= i < j < |s| :: s[i] < s[j]
  }

  /** Every two neighbours lie more than `d` apart. */
  predicate Separated(s: seq<int>, d: real)
  {
    forall k | 0 <= k < |s| - 1 :: (s[k + 1] - s[k]) as real > d
  }

  // ---------------------------------------------------------------------
  // _merge_neighbor_idx
  // ---------------------------------------------------------------------

  datatype MergeError = KeyError(key: int)

  /** How the dictionary entry of a merge is written: as the source does it
      (store the merged key, then pop both old keys), or popping the old
      keys first and then storing the merged one. */
  datatype EntryUpdate = StoreThenPop | PopThenStore

  /** Lines 357-369 of `signal_processing.py` for one dictionary, as
      written: `d[m]` gets `pick` of
      the two entries, then `a` and `b` are popped.  When `m` is `a` (the
      indices are equal or one apart) the fresh entry is popped again, and
      for equal indices the second pop finds nothing. */
  function StoreThenPopEntry(d: IndexDict, a: int, b: int, m: int, pick: (real, real) -> real): (r: Result<IndexDict, MergeError>)
    ensures r.Err? <==> a !in d || b !in d || a == b
    ensures r.Ok? ==> r.value.Keys == (d.Keys + {m}) - {a, b}
    ensures r.Ok? && m != a && m != b ==> r.value[m] == pick(d[a], d[b])
    ensures r.Ok? ==> forall k | k in r.value && k != m :: r.value[k] == d[k]
  {
    if a !in d then Err(KeyError(a))
    else if b !in d then Err(KeyError(b))
    else
      var stored := d[m := pick(d[a], d[b])] - {a};
      if b !in stored then Err(KeyError(b)) else Ok(stored - {b})
  }

  /** The intended update: both old entries give way to the merged one. */
  function PopThenStoreEntry(d: IndexDict, a: int, b: int, m: int, pick: (real, real) -> real): (r: Result<IndexDict, MergeError>)
    ensures r.Err? <==> a !in d || b !in d
    ensures r.Ok? ==> r.value.Keys == (d.Keys - {a, b}) + {m}
    ensures r.Ok? ==> r.value[m] == pick(d[a], d[b])
    ensures r.Ok? ==> forall k | k in r.value && k != m :: r.value[k] == d[k]
  {
    if a !in d then Err(KeyError(a))
    else if b !in d then Err(KeyError(b))
    else Ok((d - {a, b})[m := pick(d[a], d[b])])
  }

  /** The `if dictN is not None:` block for one optional dictionary. */
  function UpdateDict(d: Option<IndexDict>, a: int, b: int, m: int, pick: (real, real) -> real, u: EntryUpdate): Result<Option<IndexDict>, MergeError>
  {
    if d.None? then Ok(None)
    else match (if u == StoreThenPop then StoreThenPopEntry(d.value, a, b, m, pick) else PopThenStoreEntry(d.value, a, b, m, pick))
      case Ok(e) => Ok(Some(e))
      case Err(e) => Err(e)
  }

  datatype Merged = Merged(list: seq<int>, dict1: Option<IndexDict>, dict2: Option<IndexDict>)

  /** The list after a merge at `cpt`: the floor midpoint in place of the
      left entry, the right entry popped. */
  function MergeAt(list: seq<int>, cpt: nat): (r: seq<int>)
    requires cpt + 1 < |list|
    ensures |r| == |list| - 1
  {
    list[..cpt] + [(list[cpt] + list[cpt + 1]) / 2] + list[cpt + 2..]
  }

  /** The state of the `while cpt < tmp_len` loop from position `cpt` on. */
  function MergeFrom(list: seq<int>, cpt: nat, distance: real, d1: Option<IndexDict>, d2: Option<IndexDict>, u: EntryUpdate): (r: Result<Merged, MergeError>)
    ensures r.Ok? ==> |r.value.list| <= |list| && (|list| > 0 ==> |r.value.list| > 0)
    decreases |list| - cpt
  {
    if cpt + 1 >= |list| then Ok(Merged(list, d1, d2))
    else if (list[cpt + 1] - list[cpt]) as real <= distance then
      var a, b := list[cpt], list[cpt + 1];
      var m := (a + b) / 2;
      match UpdateDict(d1, a, b, m, MinOf, u)
      case Err(e) => Err(e)
      case Ok(e1) =>
        match UpdateDict(d2, a, b, m, MaxOf, u)
        case Err(e) => Err(e)
        case Ok(e2) => MergeFrom(MergeAt(list, cpt), cpt, distance, e1, e2, u)
    else MergeFrom(list, cpt + 1, distance, d1, d2, u)
  }

  /** One `if dictN is not None:` block as written: the merged entry is
      stored before the two old keys are popped. */
  method StoreThenPopUpdate(dict: Option<IndexDict>, a: int, b: int, newIdx: int, pick: (real, real) -> real)
    returns (r: Result<Option<IndexDict>, MergeError>)
    ensures r == UpdateDict(dict, a, b, newIdx, pick, StoreThenPop)
  {
    if dict.None? { return Ok(None); }
    var d := dict.value;
    if a !in d { return Err(KeyError(a)); }
    if b !in d { return Err(KeyError(b)); }
    d := d[newIdx := pick(d[a], d[b])];
    d := d - {a};
    if b !in d { return Err(KeyError(b)); }
    d := d - {b};
    return Ok(Some(d));
  }

  /** `_merge_neighbor_idx(list_idx, distance, dict1, dict2)` as written.
      The list and the dictionaries it updates in place are returned. */
  method MergeNeighborIdx(listIdx: seq<int>, distance: real, dict1: Option<IndexDict>, dict2: Option<IndexDict>)
    returns (r: Result<Merged, MergeError>)
    ensures r == MergeFrom(listIdx, 0, distance, dict1, dict2, StoreThenPop)
  {
    var list, d1, d2 := listIdx, dict1, dict2;
    var cpt := 0;
    var tmpLen := |list| - 1;
    while cpt < tmpLen
      invariant 0 <= cpt <= |list| && tmpLen == |list| - 1
      invariant MergeFrom(list, cpt, distance, d1, d2, StoreThenPop) == MergeFrom(listIdx, 0, distance, dict1, dict2, StoreThenPop)
      decreases |list| - cpt
    {
      if (list[cpt + 1] - list[cpt]) as real <= distance {
        var a, b := list[cpt], list[cpt + 1];
        var newIdx := (b + a) / 2;
        ghost var l0 := list;
        var u1 := StoreThenPopUpdate(d1, a, b, newIdx, MinOf);
        if u1.Err? { return Err(u1.error); }
        var u2 := StoreThenPopUpdate(d2, a, b, newIdx, MaxOf);
        if u2.Err? { return Err(u2.error); }
        d1, d2 := u1.value, u2.value;
        list := list[cpt := newIdx];
        list := list[..cpt + 1] + list[cpt + 2..];
        assert list == MergeAt(l0, cpt);
        tmpLen := tmpLen - 1;
      } else {
        cpt := cpt + 1;
      }
    }
    return Ok(Merged(list, d1, d2));
  }

  /** The list after a merge keeps its order: the midpoint lies between the
      two entries it replaces. */
  lemma MergeAtOrdered(list: seq<int>, cpt: nat)
    requires NonDecreasing(list) && cpt + 1 < |list|
    ensures var l2, m := MergeAt(list, cpt), (list[cpt] + list[cpt + 1]) / 2;
      NonDecreasing(l2) && list[cpt] <= m <= list[cpt + 1] && l2[cpt] == m &&
      (forall k | 0 <= k < cpt :: l2[k] == list[k]) &&
      (forall k | cpt < k < |l2| :: l2[k] == list[k + 1])
  {
    var l2, m := MergeAt(list, cpt), (list[cpt] + list[cpt + 1]) / 2;
    assert list[cpt] <= list[cpt + 1];
    forall i, j | 0 <= i <= j < |l2| ensures l2[i] <= l2[j] {
      var i' := if i < cpt then i else if i == cpt then cpt else i + 1;
      var j' := if j < cpt then j else if j == cpt then cpt + 1 else j + 1;
      assert l2[i] <= list[i'] || i == cpt;
      assert list[j'] <= l2[j] || j == cpt;
    }
  }

  /** For an ascending list, the merged list is ascending and every two
      neighbours lie more than `distance` apart, whichever way the
      dictionaries are updated. */
  lemma {:induction false} MergeOrdered(list: seq<int>, cpt: nat, distance: real, d1: Option<IndexDict>, d2: Option<IndexDict>, u: EntryUpdate)
    requires NonDecreasing(list) && cpt <= |list|
    requires forall k | 0 <= k < cpt && k + 1 < |list| :: (list[k + 1] - list[k]) as real > distance
    ensures var r := MergeFrom(list, cpt, distance, d1, d2, u);
      r.Ok? ==> NonDecreasing(r.value.list) && Separated(r.value.list, distance)
    decreases |list| - cpt
  {
    if cpt + 1 >= |list| {
    } else if (list[cpt + 1] - list[cpt]) as real <= distance {
      var a, b := list[cpt], list[cpt + 1];
      var m := (a + b) / 2;
      var l2 := MergeAt(list, cpt);
      MergeAtOrdered(list, cpt);
      MergeAtSeparated(list, cpt, distance);
      var r1 := UpdateDict(d1, a, b, m, MinOf, u);
      if r1.Ok? {
        var r2 := UpdateDict(d2, a, b, m, MaxOf, u);
        if r2.Ok? {
          MergeOrdered(l2, cpt, distance, r1.value, r2.value, u);
        }
      }
    } else {
      MergeOrdered(list, cpt + 1, distance, d1, d2, u);
    }
  }

  /** A merge keeps the gaps before its position. */
  lemma MergeAtSeparated(list: seq<int>, cpt: nat, distance: real)
    requires cpt + 1 < |list| && list[cpt] <= list[cpt + 1]
    requires forall k | 0 <= k < cpt && k + 1 < |list| :: (list[k + 1] - list[k]) as real > distance
    ensures var l2 := MergeAt(list, cpt);
      forall k | 0 <= k < cpt && k + 1 < |l2| :: (l2[k + 1] - l2[k]) as real > distance
  {
    var l2 := MergeAt(list, cpt);
    var m := (list[cpt] + list[cpt + 1]) / 2;
    assert m >= list[cpt];
    forall k | 0 <= k < cpt && k + 1 < |l2| ensures (l2[k + 1] - l2[k]) as real > distance {
      if k + 1 < cpt {
        assert l2[k] == list[k] && l2[k + 1] == list[k + 1];
      } else {
        assert l2[k] == list[k] && l2[k + 1] == m;
      }
    }
  }

  /** A merge of a strictly increasing list leaves it strictly increasing;
      the merged entry replaces exactly the two it came from. */
  lemma MergeAtStrict(list: seq<int>, cpt: nat)
    requires StrictlyIncreasing(list) && cpt + 1 < |list|
    ensures var l2, m := MergeAt(list, cpt), (list[cpt] + list[cpt + 1]) / 2;
      StrictlyIncreasing(l2) &&
      forall x | x in l2 :: x == m || (x in list && x != list[cpt] && x != list[cpt + 1])
  {
    var l2, m := MergeAt(list, cpt), (list[cpt] + list[cpt + 1]) / 2;
    assert list[cpt] <= m < list[cpt + 1];
    forall i, j | 0 <= i < j < |l2| ensures l2[i] < l2[j] {
      var i' := if i <= cpt then i else i + 1;
      var j' := if j < cpt then j else j + 1;
      assert l2[i] <= list[i'] || i == cpt;
      assert list[j'] <= l2[j] || j == cpt;
      assert i' < j' || (i == cpt && j' == cpt + 1);
    }
    forall x | x in l2 ensures x == m || (x in list && x != list[cpt] && x != list[cpt + 1]) {
      var k :| 0 <= k < |l2| && l2[k] == x;
      if k < cpt {
        assert x == list[k] && list[k] < list[cpt];
      } else if k > cpt {
        assert x == list[k + 1] && list[cpt + 1] < list[k + 1];
      }
    }
  }

  /** With the intended update, merging a strictly increasing list whose
      entries all have entries in both dictionaries never raises, and every
      entry of the merged list has entries in both dictionaries. */
  lemma {:induction false} MergeSafe(list: seq<int>, cpt: nat, distance: real, d1: IndexDict, d2: IndexDict)
    requires StrictlyIncreasing(list) && cpt <= |list|
    requires forall x | x in list :: x in d1 && x in d2
    ensures var r := MergeFrom(list, cpt, distance, Some(d1), Some(d2), PopThenStore);
      r.Ok? && r.value.dict1.Some? && r.value.dict2.Some? &&
      forall x | x in r.value.list :: x in r.value.dict1.value && x in r.value.dict2.value
    decreases |list| - cpt
  {
    if cpt + 1 >= |list| {
    } else if (list[cpt + 1] - list[cpt]) as real <= distance {
      var a, b := list[cpt], list[cpt + 1];
      var m := (a + b) / 2;
      var e1 := (d1 - {a, b})[m := MinOf(d1[a], d1[b])];
      var e2 := (d2 - {a, b})[m := MaxOf(d2[a], d2[b])];
      assert UpdateDict(Some(d1), a, b, m, MinOf, PopThenStore) == Ok(Some(e1));
      assert UpdateDict(Some(d2), a, b, m, MaxOf, PopThenStore) == Ok(Some(e2));
      MergeAtStrict(list, cpt);
      MergeSafe(MergeAt(list, cpt), cpt, distance, e1, e2);
    } else {
      MergeSafe(list, cpt + 1, distance, d1, d2);
    }
  }

  /** As written, two peaks one label apart merge without an error, but
      the merged entry is lost: `[5, 6]` with distance 2 becomes `[5]`, and
      neither dictionary keeps a key 5 for it.  The intended update keeps
      the merged entry under 5. */
  lemma MergeAsWrittenLosesEntry(d1: IndexDict, d2: IndexDict)
    requires 5 in d1 && 6 in d1 && 5 in d2 && 6 in d2
    ensures MergeFrom([5, 6], 0, 2.0, Some(d1), Some(d2), StoreThenPop) ==
      Ok(Merged([5], Some(d1 - {5, 6}), Some(d2 - {5, 6})))
    ensures MergeFrom([5, 6], 0, 2.0, Some(d1), Some(d2), PopThenStore) ==
      Ok(Merged([5], Some((d1 - {5, 6})[5 := MinOf(d1[5], d1[6])]), Some((d2 - {5, 6})[5 := MaxOf(d2[5], d2[6])])))
  {
    assert MergeAt([5, 6], 0) == [5];
    assert d1[5 := MinOf(d1[5], d1[6])] - {5} - {6} == d1 - {5, 6};
    assert d2[5 := MaxOf(d2[5], d2[6])] - {5} - {6} == d2 - {5, 6};
  }

  /** As written, three neighbouring peaks one label apart make the second
      merge look up a key the first merge popped: `[5, 6, 7]` with distance
      2 merges 5 and 6 into 5, whose fresh entry is popped with the old one,
      and then merging 5 with 7 raises `KeyError`.  The intended update
      merges all three. */
  lemma MergeAsWrittenRaises()
    ensures var d1, d2 := map[5 := 0.0, 6 := 1.0, 7 := 2.0], map[5 := 3.0, 6 := 4.0, 7 := 5.0];
      MergeFrom([5, 6, 7], 0, 2.0, Some(d1), Some(d2), StoreThenPop) == Err(KeyError(5)) &&
      MergeFrom([5, 6, 7], 0, 2.0, Some(d1), Some(d2), PopThenStore) == Ok(Merged([6], Some(map[6 := 0.0]), Some(map[6 := 5.0])))
  {
    var d1, d2 := map[5 := 0.0, 6 := 1.0, 7 := 2.0], map[5 := 3.0, 6 := 4.0, 7 := 5.0];
    var w1, w2 := StoreThenPopEntry(d1, 5, 6, 5, MinOf), StoreThenPopEntry(d2, 5, 6, 5, MaxOf);
    assert w1.value.Keys == w2.value.Keys == {7};
    assert w1.value == map[7 := 2.0] && w2.value == map[7 := 5.0];
    assert MergeAt([5, 6, 7], 0) == [5, 7];
    assert StoreThenPopEntry(w1.value, 5, 7, 6, MinOf) == Err(KeyError(5));
    var f1, f2 := PopThenStoreEntry(d1, 5, 6, 5, MinOf), PopThenStoreEntry(d2, 5, 6, 5, MaxOf);
    assert f1.value.Keys == f2.value.Keys == {5, 7};
    assert f1.value == map[5 := 0.0, 7 := 2.0] && f2.value == map[5 := 4.0, 7 := 5.0];
    var g1, g2 := PopThenStoreEntry(f1.value, 5, 7, 6, MinOf), PopThenStoreEntry(f2.value, 5, 7, 6, MaxOf);
    assert g1.value.Keys == g2.value.Keys == {6};
    assert g1.value == map[6 := 0.0] && g2.value == map[6 := 5.0];
    assert MergeAt([5, 7], 0) == [6];
  }

  // ---------------------------------------------------------------------
  // _non_consecutive_idx
  // ---------------------------------------------------------------------

  /** Position `j` starts a new run: its label lies more than one above the
      label before it. */
  predicate GapAt(l: seq<int>, j: int)
  {
    1 <= j < |l| && l[j] - l[j - 1] > 1
  }

  /** `df[df.index.diff() > 1].index`: the labels more than one above
      their predecessor (the first label has no predecessor). */
  function GapBefore(l: seq<int>): seq<int>
  {
    if |l| < 2 then [] else GapBefore(l[..|l| - 1]) + (if GapAt(l, |l| - 1) then [l[|l| - 1]] else [])
  }

  /** `df[df.index.diff(periods=-1) < -1].index`: the labels more than one
      below their successor. */
  function GapAfter(l: seq<int>): seq<int>
  {
    if |l| < 2 then [] else GapAfter(l[..|l| - 1]) + (if GapAt(l, |l| - 1) then [l[|l| - 2]] else [])
  }

  /** The first label, and the last one when there are two or more. */
  function Ends(l: seq<int>): seq<int>
  {
    if |l| == 0 then [] else if |l| == 1 then [l[0]] else [l[0], l[|l| - 1]]
  }

  lemma {:induction false} GapBeforeMembers(l: seq<int>, x: int)
    ensures x in GapBefore(l) <==> exists j :: GapAt(l, j) && l[j] == x
  {
    if |l| >= 2 {
      var p := l[..|l| - 1];
      GapBeforeMembers(p, x);
      assert forall j :: GapAt(p, j) <==> GapAt(l, j) && j < |l| - 1;
    }
  }

  lemma {:induction false} GapAfterMembers(l: seq<int>, x: int)
    ensures x in GapAfter(l) <==> exists j :: GapAt(l, j) && l[j - 1] == x
  {
    if |l| >= 2 {
      var p := l[..|l| - 1];
      GapAfterMembers(p, x);
      assert forall j :: GapAt(p, j) <==> GapAt(l, j) && j < |l| - 1;
    }
  }

  lemma TailOrdered(s: seq<int>)
    requires NonDecreasing(s) && s != []
    ensures NonDecreasing(s[1..]) && forall y | y in multiset(s[1..]) :: s[0] <= y
  {
    assert forall i | 0 <= i < |s| - 1 :: s[1..][i] == s[i + 1];
    forall y | y in multiset(s[1..]) ensures s[0] <= y {
      assert y in s[1..];
    }
  }

  lemma ConsOrdered(h: int, t: seq<int>)
    requires NonDecreasing(t) && forall y | y in multiset(t) :: h <= y
    ensures NonDecreasing([h] + t)
  {
    var r := [h] + t;
    forall i, j | 0 <= i <= j < |r| ensures r[i] <= r[j] {
      assert j == 0 || r[j] == t[j - 1];
      if i > 0 {
        assert r[i] == t[i - 1];
      } else if j > 0 {
        assert t[j - 1] in multiset(t);
      }
    }
  }

  lemma BoundAdd(lo: int, s: seq<int>, x: int, t: seq<int>)
    requires lo <= x && forall y | y in multiset(s) :: lo <= y
    requires multiset(t) == multiset(s) + multiset{x}
    ensures forall y | y in multiset(t) :: lo <= y
  {
  }

  /** `x` placed before the first element it does not exceed. */
  function Insert(x: int, s: seq<int>): seq<int>
  {
    if s == [] || x <= s[0] then [x] + s else [s[0]] + Insert(x, s[1..])
  }

  lemma {:induction false} InsertMultiset(x: int, s: seq<int>)
    ensures multiset(Insert(x, s)) == multiset(s) + multiset{x}
  {
    if s != [] && x > s[0] {
      InsertMultiset(x, s[1..]);
      assert s == [s[0]] + s[1..];
      assert multiset([s[0]] + Insert(x, s[1..])) == multiset{s[0]} + multiset(Insert(x, s[1..]));
    }
  }

  /** Inserting into an ordered sequence keeps it ordered. */
  lemma {:induction false} InsertOrdered(x: int, s: seq<int>)
    requires NonDecreasing(s)
    ensures NonDecreasing(Insert(x, s))
  {
    if s == [] || x <= s[0] {
      ConsOrdered(x, s);
    } else {
      TailOrdered(s);
      InsertOrdered(x, s[1..]);
      InsertMultiset(x, s[1..]);
      var t := Insert(x, s[1..]);
      BoundAdd(s[0], s[1..], x, t);
      ConsOrdered(s[0], t);
    }
  }

  /** Python's `list.sort()` on integers. */
  function SortInts(s: seq<int>): (r: seq<int>)
    ensures NonDecreasing(r) && multiset(r) == multiset(s)
  {
    if s == [] then []
    else
      assert s == s[..|s| - 1] + [s[|s| - 1]];
      var sorted := SortInts(s[..|s| - 1]);
      InsertOrdered(s[|s| - 1], sorted);
      InsertMultiset(s[|s| - 1], sorted);
      Insert(s[|s| - 1], sorted)
  }

  /** `_non_consecutive_idx(df)` on the labels of `df`: the boundaries of
      the runs of consecutive labels, in ascending order; a label may occur
      twice when it both ends and starts a run or is also an end. */
  function NonConsecutiveIdx(labels: seq<int>): (idx: seq<int>)
    ensures NonDecreasing(idx)
    ensures forall x | x in idx :: x in labels
    ensures labels == [] ==> idx == []
  {
    var unsorted := Ends(labels) + GapBefore(labels) + GapAfter(labels);
    assert forall x | x in unsorted :: x in labels by {
      forall x | x in unsorted ensures x in labels {
        GapBeforeMembers(labels, x);
        GapAfterMembers(labels, x);
      }
    }
    var idx := SortInts(unsorted);
    assert forall x | x in idx :: x in unsorted by {
      forall x | x in idx ensures x in unsorted {
        assert x in multiset(idx);
      }
    }
    idx
  }

  /** The run boundaries are exactly: the first label, the last label of two
      or more, and both labels around every gap wider than one. */
  lemma NonConsecutiveMembers(l: seq<int>, x: int)
    ensures x in NonConsecutiveIdx(l) <==>
      (|l| > 0 && x == l[0]) || (|l| > 1 && x == l[|l| - 1]) ||
      (exists j :: GapAt(l, j) && l[j] == x) || (exists j :: GapAt(l, j) && l[j - 1] == x)
  {
    var unsorted := Ends(l) + GapBefore(l) + GapAfter(l);
    GapBeforeMembers(l, x);
    GapAfterMembers(l, x);
    assert x in NonConsecutiveIdx(l) <==> x in multiset(unsorted);
  }

  lemma GapSteps()
    ensures Ends([1, 3]) + GapBefore([1, 3]) + GapAfter([1, 3]) == [1, 3, 3, 1]
  {
    var l := [1, 3];
    assert GapAt(l, 1);
    assert GapBefore(l[..1]) == [] && GapAfter(l[..1]) == [];
  }

  lemma SortedGapSteps()
    ensures multiset(SortInts([1, 3, 3, 1])) == multiset{1, 1, 3, 3}
  {
    assert multiset([1, 3, 3, 1]) == multiset{1, 1, 3, 3};
  }

  /** A label that is an end of the sequence and also borders a gap is
      emitted twice: `[1, 3]` gives 1 and 3 twice each. */
  lemma NonConsecutiveDuplicates()
    ensures multiset(NonConsecutiveIdx([1, 3])) == multiset{1, 1, 3, 3}
  {
    GapSteps();
    SortedGapSteps();
  }

  // ---------------------------------------------------------------------
  // _find_candidate_extremum
  // ---------------------------------------------------------------------

  /** `idx1` lies before `zero`, within `width_max_idx` of it. */
  predicate InBefore(x: int, zero: int, w: real)
  {
    0 < zero - x && (zero - x) as real <= w
  }

  /** `idx2` lies at or after `zero`, within `width_max_idx` of it. */
  predicate InAfter(x: int, zero: int, w: real)
  {
    0 <= x - zero && (x - zero) as real <= w
  }

  /** The scan of `list_idx1` (lines 466-473 of `signal_processing.py`):
      every `idx1` in the window overwrites the found one, and the scan stops at the first beyond
      `zero`. */
  function LastBefore(l1: seq<int>, zero: int, w: real, found: Option<int>): Option<int>
    decreases |l1|
  {
    if l1 == [] || zero - l1[0] < 0 then found
    else LastBefore(l1[1..], zero, w, if InBefore(l1[0], zero, w) then Some(l1[0]) else found)
  }

  /** The scan of `list_idx2` (lines 476-484 of `signal_processing.py`):
      the first `idx2` in the window, the scan stopping at the first one beyond it. */
  function FirstAfter(l2: seq<int>, zero: int, w: real): Option<int>
    decreases |l2|
  {
    if l2 == [] || (l2[0] - zero) as real > w then None
    else if InAfter(l2[0], zero, w) then Some(l2[0])
    else FirstAfter(l2[1..], zero, w)
  }

  /** On an ascending list the scan finds the latest index of the window
      before `zero`, and finds one exactly when the window holds one. */
  lemma {:induction false} LastBeforeSpec(l1: seq<int>, zero: int, w: real, found: Option<int>)
    requires NonDecreasing(l1)
    requires found.Some? ==> InBefore(found.value, zero, w) && forall y | y in l1 :: found.value <= y
    ensures var r := LastBefore(l1, zero, w, found);
      (r.Some? <==> found.Some? || exists x | x in l1 :: InBefore(x, zero, w)) &&
      (r.Some? ==> InBefore(r.value, zero, w) && (r == found || r.value in l1)) &&
      (r.Some? ==> forall y | y in l1 && InBefore(y, zero, w) :: y <= r.value)
    decreases |l1|
  {
    if l1 == [] {
    } else if zero - l1[0] < 0 {
      TailOrdered(l1);
      assert forall y | y in l1 :: y == l1[0] || y in l1[1..];
    } else {
      TailOrdered(l1);
      var f := if InBefore(l1[0], zero, w) then Some(l1[0]) else found;
      LastBeforeSpec(l1[1..], zero, w, f);
      assert forall y | y in l1 :: y == l1[0] || y in l1[1..];
    }
  }

  /** On an ascending list the scan finds the earliest index of the window
      at or after `zero`, and finds one exactly when the window holds one. */
  lemma {:induction false} FirstAfterSpec(l2: seq<int>, zero: int, w: real)
    requires NonDecreasing(l2)
    ensures var r := FirstAfter(l2, zero, w);
      (r.Some? <==> exists x | x in l2 :: InAfter(x, zero, w)) &&
      (r.Some? ==> r.value in l2 && InAfter(r.value, zero, w)) &&
      (r.Some? ==> forall y | y in l2 && InAfter(y, zero, w) :: r.value <= y)
    decreases |l2|
  {
    if l2 != [] {
      TailOrdered(l2);
      assert forall y | y in l2 :: y == l2[0] || y in l2[1..];
      if (l2[0] - zero) as real > w {
      } else if !InAfter(l2[0], zero, w) {
        FirstAfterSpec(l2[1..], zero, w);
      }
    }
  }

  /** The boundaries stored for a zero: `dict1[str(zero)]` and `dict2[str(zero)]`. */
  datatype Window = Window(lo: real, hi: real)

  /** The boundaries of `zero` when at least one side has a threshold
      crossing; a missing side defaults to `zero` minus or plus
      `half_width_min_idx`. */
  function Candidate(zero: int, l1: seq<int>, l2: seq<int>, w: real, hw: real): (r: Option<Window>)
    ensures r.Some? <==> LastBefore(l1, zero, w, None).Some? || FirstAfter(l2, zero, w).Some?
  {
    var f1, f2 := LastBefore(l1, zero, w, None), FirstAfter(l2, zero, w);
    if f1.None? && f2.None? then None
    else Some(Window(if f1.Some? then f1.value as real else zero as real - hw,
                     if f2.Some? then f2.value as real else zero as real + hw))
  }

  const MONOTONICITY_SENSITIVITY_1: real := 0.75
  const MONOTONICITY_SENSITIVITY_2: real := 0.25

  /** The sign-mean test of lines 506-514.  A mean over an empty window is
      NaN (`None`), for which every comparison is false. */
  predicate Monotone(before: Option<real>, after: Option<real>)
  {
    before.Some? && after.Some? &&
    ((before.value > MONOTONICITY_SENSITIVITY_1 && after.value < -MONOTONICITY_SENSITIVITY_2) ||
     (before.value > MONOTONICITY_SENSITIVITY_2 && after.value < -MONOTONICITY_SENSITIVITY_1))
  }

  /** The two sign means of `df_derivation_sign` around a zero: over the
      labels in `[lo, zero)` and over those in `(zero, hi]`. */
  datatype SignMeans = SignMeans(before: (real, int) -> Option<real>, after: (int, real) -> Option<real>)

  /** The candidate `zero` becomes a peak. */
  predicate IsPeak(zero: int, l1: seq<int>, l2: seq<int>, w: real, hw: real, means: SignMeans)
  {
    var c := Candidate(zero, l1, l2, w, hw);
    c.Some? && Monotone(means.before(c.value.lo, zero), means.after(zero, c.value.hi))
  }

  datatype Candidates = Candidates(peaks: seq<int>, dict1: IndexDict, dict2: IndexDict)

  /** The result of `for zero in zero_idx` after the zeros `zs`. */
  function FindIn(zs: seq<int>, l1: seq<int>, l2: seq<int>, w: real, hw: real, means: SignMeans): Candidates
  {
    if zs == [] then Candidates([], map[], map[])
    else
      var c := FindIn(zs[..|zs| - 1], l1, l2, w, hw, means);
      var zero := zs[|zs| - 1];
      match Candidate(zero, l1, l2, w, hw)
      case None => c
      case Some(win) =>
        Candidates(c.peaks + (if IsPeak(zero, l1, l2, w, hw, means) then [zero] else []),
                   c.dict1[zero := win.lo], c.dict2[zero := win.hi])
  }

  /** The peaks are exactly the zeros passing the test. */
  lemma {:induction false} FindInPeaks(zs: seq<int>, l1: seq<int>, l2: seq<int>, w: real, hw: real, means: SignMeans)
    ensures var c := FindIn(zs, l1, l2, w, hw, means);
      forall x :: x in c.peaks <==> x in zs && IsPeak(x, l1, l2, w, hw, means)
  {
    if zs != [] {
      var p := zs[..|zs| - 1];
      FindInPeaks(p, l1, l2, w, hw, means);
      assert zs == p + [zs[|zs| - 1]];
    }
  }

  /** Both dictionaries hold the boundaries of exactly the candidate zeros. */
  lemma {:induction false} FindInDicts(zs: seq<int>, l1: seq<int>, l2: seq<int>, w: real, hw: real, means: SignMeans)
    ensures var c := FindIn(zs, l1, l2, w, hw, means);
      (forall x :: x in c.dict1 <==> x in zs && Candidate(x, l1, l2, w, hw).Some?) &&
      (forall x :: x in c.dict2 <==> x in zs && Candidate(x, l1, l2, w, hw).Some?) &&
      (forall x | x in c.dict1 :: c.dict1[x] == Candidate(x, l1, l2, w, hw).value.lo) &&
      (forall x | x in c.dict2 :: c.dict2[x] == Candidate(x, l1, l2, w, hw).value.hi)
  {
    if zs != [] {
      var p := zs[..|zs| - 1];
      FindInDicts(p, l1, l2, w, hw, means);
      assert zs == p + [zs[|zs| - 1]];
    }
  }

  /** For strictly increasing zeros the peaks are strictly increasing: an
      in-order selection of the zeros. */
  lemma {:induction false} FindInOrdered(zs: seq<int>, l1: seq<int>, l2: seq<int>, w: real, hw: real, means: SignMeans)
    requires StrictlyIncreasing(zs)
    ensures var c := FindIn(zs, l1, l2, w, hw, means);
      StrictlyIncreasing(c.peaks) && forall x | x in c.peaks :: x in zs
  {
    if zs != [] {
      var p := zs[..|zs| - 1];
      var z := zs[|zs| - 1];
      assert StrictlyIncreasing(p) by {
        assert forall i | 0 <= i < |p| :: p[i] == zs[i];
      }
      FindInOrdered(p, l1, l2, w, hw, means);
      assert zs == p + [z];
      var c := FindIn(p, l1, l2, w, hw, means);
      forall x | x in c.peaks ensures x < z {
        var k :| 0 <= k < |p| && p[k] == x;
        assert zs[k] == x;
      }
      var q := c.peaks + (if IsPeak(z, l1, l2, w, hw, means) then [z] else []);
      assert StrictlyIncreasing(q) by {
        forall i, j | 0 <= i < j < |q| ensures q[i] < q[j] {
          assert q[i] == c.peaks[i] && q[i] in c.peaks;
        }
      }
    }
  }

  /** Lines 466-473 for one zero: `b_valid_idx1` and `dict1` after the scan. */
  method ScanBefore(listIdx1: seq<int>, zero: int, widthMaxIdx: real, dict1: IndexDict)
    returns (valid: bool, d1: IndexDict)
    ensures var f := LastBefore(listIdx1, zero, widthMaxIdx, None);
      valid == f.Some? && d1 == (if f.Some? then dict1[zero := f.value as real] else dict1)
  {
    valid, d1 := false, dict1;
    ghost var found: Option<int> := None;
    var k := 0;
    while k < |listIdx1|
      invariant 0 <= k <= |listIdx1|
      invariant LastBefore(listIdx1[k..], zero, widthMaxIdx, found) == LastBefore(listIdx1, zero, widthMaxIdx, None)
      invariant valid == found.Some? && d1 == (if found.Some? then dict1[zero := found.value as real] else dict1)
    {
      var idx1 := listIdx1[k];
      assert listIdx1[k..][1..] == listIdx1[k + 1..];
      if zero - idx1 < 0 {
        break;
      }
      if (zero - idx1) as real <= widthMaxIdx && zero - idx1 > 0 {
        valid := true;
        d1 := d1[zero := idx1 as real];
        found := Some(idx1);
      }
      k := k + 1;
    }
  }

  /** Lines 476-484 for one zero: `b_valid_idx2` and `dict2` after the scan. */
  method ScanAfter(listIdx2: seq<int>, zero: int, widthMaxIdx: real, dict2: IndexDict)
    returns (valid: bool, d2: IndexDict)
    ensures var f := FirstAfter(listIdx2, zero, widthMaxIdx);
      valid == f.Some? && d2 == (if f.Some? then dict2[zero := f.value as real] else dict2)
  {
    valid, d2 := false, dict2;
    var k := 0;
    while k < |listIdx2|
      invariant 0 <= k <= |listIdx2|
      invariant FirstAfter(listIdx2[k..], zero, widthMaxIdx) == FirstAfter(listIdx2, zero, widthMaxIdx)
    {
      var idx2 := listIdx2[k];
      assert listIdx2[k..][1..] == listIdx2[k + 1..];
      if (idx2 - zero) as real > widthMaxIdx {
        break;
      }
      if (idx2 - zero) as real <= widthMaxIdx && idx2 - zero >= 0 {
        valid := true;
        d2 := d2[zero := idx2 as real];
        break;
      }
      k := k + 1;
    }
  }

  /** `_find_candidate_extremum(zero_idx, list_idx1, list_idx2,
      width_max_idx, half_width_min_idx, df_derivation_sign)`. */
  method FindCandidateExtremum(zeroIdx: seq<int>, listIdx1: seq<int>, listIdx2: seq<int>,
                               widthMaxIdx: real, halfWidthMinIdx: real, means: SignMeans)
    returns (peakIdx: seq<int>, dict1: IndexDict, dict2: IndexDict)
    ensures Candidates(peakIdx, dict1, dict2) == FindIn(zeroIdx, listIdx1, listIdx2, widthMaxIdx, halfWidthMinIdx, means)
  {
    dict1, dict2, peakIdx := map[], map[], [];
    for j := 0 to |zeroIdx|
      invariant Candidates(peakIdx, dict1, dict2) == FindIn(zeroIdx[..j], listIdx1, listIdx2, widthMaxIdx, halfWidthMinIdx, means)
    {
      var zero := zeroIdx[j];
      assert zeroIdx[..j + 1][..j] == zeroIdx[..j];
      var validIdx1, validIdx2;
      validIdx1, dict1 := ScanBefore(listIdx1, zero, widthMaxIdx, dict1);
      validIdx2, dict2 := ScanAfter(listIdx2, zero, widthMaxIdx, dict2);
      if validIdx1 || validIdx2 {
        if !validIdx1 {
          dict1 := dict1[zero := zero as real - halfWidthMinIdx];
        }
        if !validIdx2 {
          dict2 := dict2[zero := zero as real + halfWidthMinIdx];
        }
        var before := means.before(dict1[zero], zero);
        var after := means.after(zero, dict2[zero]);
        if (before.Some? && after.Some?) &&
           ((before.value > MONOTONICITY_SENSITIVITY_1 && after.value < -MONOTONICITY_SENSITIVITY_2) ||
            (before.value > MONOTONICITY_SENSITIVITY_2 && after.value < -MONOTONICITY_SENSITIVITY_1)) {
          peakIdx := peakIdx + [zero];
        }
      }
    }
    assert zeroIdx[..|zeroIdx|] == zeroIdx;
  }

  // ---------------------------------------------------------------------
  // peak_detection
  // ---------------------------------------------------------------------

  /** A Python argument: a value of the expected type, or anything else. */
  datatype Arg<T> = Is(value: T) | Other

  /** What the argument validation reads of a DataFrame: its column names and its length. */
  datatype Table = Table(columns: set<string>, length: nat)

  /** `ParametersPeakDetection`, the widths in units of the X series. */
  datatype PeakParameters = PeakParameters(halfWidthMin: real, widthMax: real, derivationWidth: real, derivationSensitivity: real)

  /** The extrema `type_extremum` asks for: `b_max` and `b_min`. */
  datatype Extremum = Extremum(max: bool, min: bool)

  /** The input checks of `peak_detection`, in the order they run; the
      first four raise `TypeError`, the others `ValueError`. */
  datatype CheckError =
    | FrameNotDataFrame | SeriesNameNotList | ParametersNotNamedTuple | TypeExtremumNotStr
    | SeriesNameLength | SeriesNotFound | TypeExtremumUnknown
    | WidthNotPositive | SensitivityNegative | WidthMaxBelowHalfWidth | TooFewRows

  function Rank(e: CheckError): nat
  {
    match e
    case FrameNotDataFrame => 0
    case SeriesNameNotList => 1
    case ParametersNotNamedTuple => 2
    case TypeExtremumNotStr => 3
    case SeriesNameLength => 4
    case SeriesNotFound => 5
    case TypeExtremumUnknown => 6
    case WidthNotPositive => 7
    case SensitivityNegative => 8
    case WidthMaxBelowHalfWidth => 9
    case TooFewRows => 10
  }

  function ExtremumOf(t: string): Option<Extremum>
  {
    if t == "Max" then Some(Extremum(true, false))
    else if t == "Min" then Some(Extremum(false, true))
    else if t == "Both" then Some(Extremum(true, true))
    else None
  }

  /** Lines 59-109 of `signal_processing.py`: the first failing check, or
      the extrema to look for. */
  function PeakDetectionChecks(df: Arg<Table>, seriesName: Arg<seq<string>>, parameters: Arg<PeakParameters>, typeExtremum: Arg<string>): Result<Extremum, CheckError>
  {
    if df.Other? then Err(FrameNotDataFrame)
    else if seriesName.Other? then Err(SeriesNameNotList)
    else if parameters.Other? then Err(ParametersNotNamedTuple)
    else if typeExtremum.Other? then Err(TypeExtremumNotStr)
    else if |seriesName.value| != 2 then Err(SeriesNameLength)
    else if seriesName.value[0] !in df.value.columns || seriesName.value[1] !in df.value.columns then Err(SeriesNotFound)
    else if ExtremumOf(typeExtremum.value).None? then Err(TypeExtremumUnknown)
    else
      var p := parameters.value;
      if p.widthMax <= 0.0 || p.halfWidthMin <= 0.0 || p.derivationWidth <= 0.0 then Err(WidthNotPositive)
      else if p.derivationSensitivity < 0.0 then Err(SensitivityNegative)
      else if p.widthMax < p.halfWidthMin then Err(WidthMaxBelowHalfWidth)
      else if (df.value.length as real) < p.widthMax then Err(TooFewRows)
      else Ok(ExtremumOf(typeExtremum.value).value)
  }

  /** The condition each check rejects, on its own. */
  predicate Fails(e: CheckError, df: Arg<Table>, seriesName: Arg<seq<string>>, parameters: Arg<PeakParameters>, typeExtremum: Arg<string>)
  {
    match e
    case FrameNotDataFrame => df.Other?
    case SeriesNameNotList => seriesName.Other?
    case ParametersNotNamedTuple => parameters.Other?
    case TypeExtremumNotStr => typeExtremum.Other?
    case SeriesNameLength => seriesName.Is? && |seriesName.value| != 2
    case SeriesNotFound =>
      df.Is? && seriesName.Is? && |seriesName.value| >= 2 &&
      (seriesName.value[0] !in df.value.columns || seriesName.value[1] !in df.value.columns)
    case TypeExtremumUnknown => typeExtremum.Is? && typeExtremum.value !in {"Max", "Min", "Both"}
    case WidthNotPositive =>
      parameters.Is? &&
      (parameters.value.widthMax <= 0.0 || parameters.value.halfWidthMin <= 0.0 || parameters.value.derivationWidth <= 0.0)
    case SensitivityNegative => parameters.Is? && parameters.value.derivationSensitivity < 0.0
    case WidthMaxBelowHalfWidth => parameters.Is? && parameters.value.widthMax < parameters.value.halfWidthMin
    case TooFewRows => df.Is? && parameters.Is? && (df.value.length as real) < parameters.value.widthMax
  }

  /** `peak_detection` raises the first check, in source order, whose
      condition holds, and only then; otherwise it computes with the
      extrema `type_extremum` names. */
  lemma PeakDetectionChecksSpec(df: Arg<Table>, seriesName: Arg<seq<string>>, parameters: Arg<PeakParameters>, typeExtremum: Arg<string>)
    ensures var r := PeakDetectionChecks(df, seriesName, parameters, typeExtremum);
      (r.Err? ==> Fails(r.error, df, seriesName, parameters, typeExtremum)) &&
      (r.Err? ==> forall e | Rank(e) < Rank(r.error) :: !Fails(e, df, seriesName, parameters, typeExtremum)) &&
      (r.Ok? <==> forall e :: !Fails(e, df, seriesName, parameters, typeExtremum)) &&
      (r.Ok? ==> (r.value.max <==> typeExtremum.value in {"Max", "Both"}) && (r.value.min <==> typeExtremum.value in {"Min", "Both"}))
  {
    var r := PeakDetectionChecks(df, seriesName, parameters, typeExtremum);
    if r.Ok? {
      forall e ensures !Fails(e, df, seriesName, parameters, typeExtremum) {
        match e
        case _ =>
      }
    } else if r.error.SeriesNotFound? || r.error.TypeExtremumUnknown? {
      assert typeExtremum.Is? ==> (typeExtremum.value !in {"Max", "Min", "Both"} <==> ExtremumOf(typeExtremum.value).None?);
      assert Fails(r.error, df, seriesName, parameters, typeExtremum);
    } else {
      assert !Fails(r.error, df, seriesName, parameters, typeExtremum) ==> r.Ok?;
    }
  }

  /** Lines 154-203 of `signal_processing.py`, up to the row extraction:
      the merged peak indices for the maxima (zeros paired with increasing
      crossings before and decreasing ones after) and for the minima (the
      other way round).  The merge updates its dictionaries by `u`:
      `StoreThenPop` as `_merge_neighbor_idx` is written, `PopThenStore`
      as intended.  Only an extremum asked for is computed, and an error
      can come only from its merge. */
  function ExtremumIndices(ext: Extremum, zeroIdx: seq<int>, incIdx: seq<int>, decIdx: seq<int>,
                           widthMaxIdx: real, halfWidthMinIdx: real, means: SignMeans, u: EntryUpdate)
    : (r: Result<(Option<Merged>, Option<Merged>), MergeError>)
    ensures r.Ok? ==> (r.value.0.Some? ==> ext.max) && (r.value.1.Some? ==> ext.min)
    ensures r.Err? ==> |zeroIdx| > 0 && (|incIdx| > 0 || |decIdx| > 0) && (ext.max || ext.min)
  {
    if |zeroIdx| == 0 || (|incIdx| == 0 && |decIdx| == 0) then Ok((None, None))
    else
      var mx := if ext.max then
        var c := FindIn(zeroIdx, incIdx, decIdx, widthMaxIdx, halfWidthMinIdx, means);
        Some(MergeFrom(c.peaks, 0, halfWidthMinIdx, Some(c.dict1), Some(c.dict2), u))
      else None;
      var mn := if ext.min then
        var c := FindIn(zeroIdx, decIdx, incIdx, widthMaxIdx, halfWidthMinIdx, means);
        Some(MergeFrom(c.peaks, 0, halfWidthMinIdx, Some(c.dict1), Some(c.dict2), u))
      else None;
      if mx.Some? && mx.value.Err? then Err(mx.value.error)
      else if mn.Some? && mn.value.Err? then Err(mn.value.error)
      else Ok((if mx.Some? then Some(mx.value.value) else None, if mn.Some? then Some(mn.value.value) else None))
  }

  lemma StrictIsOrdered(s: seq<int>)
    requires StrictlyIncreasing(s)
    ensures NonDecreasing(s)
  {
  }

  /** The peaks found for one kind of extremum, merged as intended: the
      merge cannot raise, the indices ascend more than `half_width_min_idx`
      apart, and each has both boundaries recorded. */
  lemma FoundAndMerged(zeroIdx: seq<int>, l1: seq<int>, l2: seq<int>, w: real, hw: real, means: SignMeans)
    requires StrictlyIncreasing(zeroIdx)
    ensures var c := FindIn(zeroIdx, l1, l2, w, hw, means);
      var r := MergeFrom(c.peaks, 0, hw, Some(c.dict1), Some(c.dict2), PopThenStore);
      r.Ok? && NonDecreasing(r.value.list) && Separated(r.value.list, hw) &&
      r.value.dict1.Some? && r.value.dict2.Some? &&
      forall x | x in r.value.list :: x in r.value.dict1.value && x in r.value.dict2.value
  {
    var c := FindIn(zeroIdx, l1, l2, w, hw, means);
    FindInOrdered(zeroIdx, l1, l2, w, hw, means);
    FindInPeaks(zeroIdx, l1, l2, w, hw, means);
    FindInDicts(zeroIdx, l1, l2, w, hw, means);
    MergeSafe(c.peaks, 0, hw, c.dict1, c.dict2);
    StrictIsOrdered(c.peaks);
    MergeOrdered(c.peaks, 0, hw, Some(c.dict1), Some(c.dict2), PopThenStore);
  }

  /** For strictly increasing zeros the index stage with the intended merge
      never raises, and it yields exactly the kinds of extrema asked for,
      each list ascending with neighbours more than `half_width_min_idx`
      apart.  With the merge as written it can raise: see
      `ExtremumIndicesAsWrittenRaises`. */
  lemma ExtremumIndicesSafe(ext: Extremum, zeroIdx: seq<int>, incIdx: seq<int>, decIdx: seq<int>,
                            widthMaxIdx: real, halfWidthMinIdx: real, means: SignMeans)
    requires StrictlyIncreasing(zeroIdx)
    ensures var r := ExtremumIndices(ext, zeroIdx, incIdx, decIdx, widthMaxIdx, halfWidthMinIdx, means, PopThenStore);
      var active := |zeroIdx| > 0 && (|incIdx| > 0 || |decIdx| > 0);
      r.Ok? &&
      (r.value.0.Some? <==> active && ext.max) && (r.value.1.Some? <==> active && ext.min) &&
      (r.value.0.Some? ==> NonDecreasing(r.value.0.value.list) && Separated(r.value.0.value.list, halfWidthMinIdx)) &&
      (r.value.1.Some? ==> NonDecreasing(r.value.1.value.list) && Separated(r.value.1.value.list, halfWidthMinIdx))
  {
    FoundAndMerged(zeroIdx, incIdx, decIdx, widthMaxIdx, halfWidthMinIdx, means);
    FoundAndMerged(zeroIdx, decIdx, incIdx, widthMaxIdx, halfWidthMinIdx, means);
  }

  /** The as-written merge of `[5, 6, 7]` at distance 2 raises `KeyError`
      for any dictionaries holding the three indices. */
  lemma MergeAsWrittenRaisesOn(d1: IndexDict, d2: IndexDict)
    requires 5 in d1 && 6 in d1 && 7 in d1 && 5 in d2 && 6 in d2 && 7 in d2
    ensures MergeFrom([5, 6, 7], 0, 2.0, Some(d1), Some(d2), StoreThenPop) == Err(KeyError(5))
  {
    var w1, w2 := StoreThenPopEntry(d1, 5, 6, 5, MinOf), StoreThenPopEntry(d2, 5, 6, 5, MaxOf);
    assert 5 !in w1.value;
    assert MergeAt([5, 6, 7], 0) == [5, 7];
    assert MergeFrom([5, 7], 0, 2.0, Some(w1.value), Some(w2.value), StoreThenPop) == Err(KeyError(5));
  }

  /** Sign means that pass the test around every zero. */
  const EXAMPLE_MEANS: SignMeans := SignMeans((lo: real, z: int) => Some(1.0), (z: int, hi: real) => Some(-1.0))

  /** The candidates of the example below: every zero is a peak, with the
      boundaries `zero - 2` and 8. */
  lemma ExampleCandidates()
    ensures FindIn([5, 6, 7], [], [8], 10.0, 2.0, EXAMPLE_MEANS) ==
      Candidates([5, 6, 7], map[5 := 3.0, 6 := 4.0, 7 := 5.0], map[5 := 8.0, 6 := 8.0, 7 := 8.0])
  {
    var means := EXAMPLE_MEANS;
    forall z | z in {5, 6, 7}
      ensures Candidate(z, [], [8], 10.0, 2.0) == Some(Window(z as real - 2.0, 8.0))
      ensures IsPeak(z, [], [8], 10.0, 2.0, means)
    {
      assert FirstAfter([8], z, 10.0) == Some(8);
    }
    var zs: seq<int> := [5, 6, 7];
    assert zs[..2] == [5, 6] && [5, 6][..1] == [5] && [5][..0] == [];
    assert FindIn([5], [], [8], 10.0, 2.0, means) == Candidates([5], map[5 := 3.0], map[5 := 8.0]);
    assert FindIn([5, 6], [], [8], 10.0, 2.0, means) ==
      Candidates([5, 6], map[5 := 3.0, 6 := 4.0], map[5 := 8.0, 6 := 8.0]);
  }

  /** The index stage as written raises where the intended one does not:
      three consecutive zeros `5, 6, 7`, each followed within the window by
      the decreasing crossing at 8 and passing the sign-mean test, are all
      candidate maxima, and merging them with a half width of 2 raises
      `KeyError` as `MergeAsWrittenRaises` shows. */
  lemma ExtremumIndicesAsWrittenRaises()
    ensures var means := EXAMPLE_MEANS;
      ExtremumIndices(Extremum(true, false), [5, 6, 7], [], [8], 10.0, 2.0, means, StoreThenPop) == Err(KeyError(5)) &&
      ExtremumIndices(Extremum(true, false), [5, 6, 7], [], [8], 10.0, 2.0, means, PopThenStore).Ok?
  {
    var means := EXAMPLE_MEANS;
    ExampleCandidates();
    var c := FindIn([5, 6, 7], [], [8], 10.0, 2.0, means);
    MergeAsWrittenRaisesOn(c.dict1, c.dict2);
    ExtremumIndicesMax([5, 6, 7], [], [8], 10.0, 2.0, means, StoreThenPop);
    FoundAndMerged([5, 6, 7], [], [8], 10.0, 2.0, means);
    ExtremumIndicesMax([5, 6, 7], [], [8], 10.0, 2.0, means, PopThenStore);
  }

  /** With the maxima alone asked for, the index stage is the merge of the
      maxima's candidates. */
  lemma ExtremumIndicesMax(zeroIdx: seq<int>, incIdx: seq<int>, decIdx: seq<int>,
                           widthMaxIdx: real, halfWidthMinIdx: real, means: SignMeans, u: EntryUpdate)
    requires |zeroIdx| > 0 && |decIdx| > 0
    ensures var c := FindIn(zeroIdx, incIdx, decIdx, widthMaxIdx, halfWidthMinIdx, means);
      var m := MergeFrom(c.peaks, 0, halfWidthMinIdx, Some(c.dict1), Some(c.dict2), u);
      var r := ExtremumIndices(Extremum(true, false), zeroIdx, incIdx, decIdx, widthMaxIdx, halfWidthMinIdx, means, u);
      (m.Err? ==> r == Err(m.error)) && (m.Ok? ==> r == Ok((Some(m.value), None)))
  {
  }
}
