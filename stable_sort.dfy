/** The stable sort applied to the collected findings: a functional insertion
    sort that specifies the result, its sortedness, permutation and stability
    properties, and the in-place array version the diagnoser runs. */
module StableSort {
  import opened Diagnostic
  import opened HintOrder

  /** Non-decreasing under the comparator: no later finding sorts before an earlier one. */
  predicate Sorted(s: seq<FailureHint>)
  {
    forall i, j :: 0 <= i < j < |s| ==> !Less(s[j], s[i])
  }

  /** Inserts `x` after every element it does not sort before, scanning from
      the right as an insertion sort does. */
  function Insert(x: FailureHint, s: seq<FailureHint>): (r: seq<FailureHint>)
    ensures |r| == |s| + 1
    decreases |s|
  {
    if s == [] then [x]
    else if Less(x, s[|s| - 1]) then Insert(x, s[..|s| - 1]) + [s[|s| - 1]]
    else s + [x]
  }

  /** The stable sort of `s`: each element in turn is inserted into the
      sorted prefix before it. */
  function SortHints(s: seq<FailureHint>): (r: seq<FailureHint>)
    ensures |r| == |s|
  {
    if s == [] then [] else Insert(s[|s| - 1], SortHints(s[..|s| - 1]))
  }

  /** The findings of `s` whose sort key is `k`, in their order in `s`. */
  function KeepKey(s: seq<FailureHint>, k: SortKey): (r: seq<FailureHint>)
  {
    if s == [] then []
    else KeepKey(s[..|s| - 1], k) + (if KeyOf(s[|s| - 1]) == k then [s[|s| - 1]] else [])
  }

  lemma {:induction false} InsertPermutes(x: FailureHint, s: seq<FailureHint>)
    ensures multiset(Insert(x, s)) == multiset(s) + multiset{x}
    decreases |s|
  {
    if s != [] && Less(x, s[|s| - 1]) {
      InsertPermutes(x, s[..|s| - 1]);
      assert s == s[..|s| - 1] + [s[|s| - 1]];
    }
  }

  /** Appending an element that nothing before it sorts after keeps a sequence sorted. */
  lemma SortedAppend(y: seq<FailureHint>, z: FailureHint)
    requires Sorted(y)
    requires forall i :: 0 <= i < |y| ==> !Less(z, y[i])
    ensures Sorted(y + [z])
  {
    var r := y + [z];
    forall i, j | 0 <= i < j < |r| ensures !Less(r[j], r[i]) {
      if j < |y| {
        assert r[i] == y[i] && r[j] == y[j];
      } else {
        assert r[i] == y[i] && r[j] == z;
      }
    }
  }

  /** Every element of `Insert(x, s)` is `x` or an element of `s`. */
  lemma InsertElements(x: FailureHint, s: seq<FailureHint>, i: nat)
    requires i < |Insert(x, s)|
    ensures Insert(x, s)[i] == x || Insert(x, s)[i] in s
  {
    InsertPermutes(x, s);
    assert Insert(x, s)[i] in multiset(Insert(x, s));
  }

  lemma {:induction false} InsertSorted(x: FailureHint, s: seq<FailureHint>)
    requires Sorted(s)
    ensures Sorted(Insert(x, s))
    decreases |s|
  {
    if s == [] {
      return;
    }
    var init, last := s[..|s| - 1], s[|s| - 1];
    assert Sorted(init);
    if Less(x, last) {
      InsertSorted(x, init);
      var y := Insert(x, init);
      forall i | 0 <= i < |y| ensures !Less(last, y[i]) {
        InsertElements(x, init, i);
        if y[i] == x {
          LessAsymmetric(x, last);
        } else {
          var k :| 0 <= k < |init| && init[k] == y[i];
          assert s[k] == y[i];
        }
      }
      SortedAppend(y, last);
    } else {
      forall i | 0 <= i < |s| ensures !Less(x, s[i]) {
        if i < |s| - 1 && Less(x, s[i]) {
          LessThenNotGreater(x, s[i], last);
        }
      }
      SortedAppend(s, x);
    }
  }

  /** Inserting `x` appends it to its key class and leaves every other key
      class as it was. */
  lemma {:induction false} InsertKeepKey(x: FailureHint, s: seq<FailureHint>, k: SortKey)
    ensures KeepKey(Insert(x, s), k) == KeepKey(s, k) + (if KeyOf(x) == k then [x] else [])
    decreases |s|
  {
    var r := Insert(x, s);
    if s == [] {
      assert r[..0] == [];
    } else if Less(x, s[|s| - 1]) {
      var init, last := s[..|s| - 1], s[|s| - 1];
      InsertKeepKey(x, init, k);
      assert r[..|r| - 1] == Insert(x, init);
      if KeyOf(x) == k {
        // x sorts strictly before `last`, so their keys differ.
        assert KeyOf(last) != k by {
          if KeyOf(last) == k {
            LessIrreflexive(x);
          }
        }
      }
    } else {
      assert r[..|r| - 1] == s;
    }
  }

  /** The sorted result is non-decreasing. */
  lemma {:induction false} SortHintsSorted(s: seq<FailureHint>)
    ensures Sorted(SortHints(s))
  {
    if s != [] {
      SortHintsSorted(s[..|s| - 1]);
      InsertSorted(s[|s| - 1], SortHints(s[..|s| - 1]));
    }
  }

  /** The sorted result is a permutation of the input: nothing dropped or invented. */
  lemma {:induction false} SortHintsPermutes(s: seq<FailureHint>)
    ensures multiset(SortHints(s)) == multiset(s)
  {
    if s != [] {
      SortHintsPermutes(s[..|s| - 1]);
      InsertPermutes(s[|s| - 1], SortHints(s[..|s| - 1]));
      assert s == s[..|s| - 1] + [s[|s| - 1]];
    }
  }

  /** Stability: findings with equal keys appear in the result in exactly the
      order they had in the input. */
  lemma {:induction false} SortHintsStable(s: seq<FailureHint>, k: SortKey)
    ensures KeepKey(SortHints(s), k) == KeepKey(s, k)
  {
    if s != [] {
      SortHintsStable(s[..|s| - 1], k);
      InsertKeepKey(s[|s| - 1], SortHints(s[..|s| - 1]), k);
    }
  }

  /** One step of the shifting loop: `x` sorts before `s[j - 1]`, so it is
      inserted to the left of it. */
  lemma InsertShift(x: FailureHint, s: seq<FailureHint>, j: nat)
    requires 0 < j <= |s| && Less(x, s[j - 1])
    ensures Insert(x, s[..j]) + s[j..] == Insert(x, s[..j - 1]) + s[j - 1..]
  {
    assert s[..j][..j - 1] == s[..j - 1];
    assert [s[j - 1]] + s[j..] == s[j - 1..];
  }

  /** Where the shifting loop stops, `x` goes right after `s[..j]`. */
  lemma InsertStop(x: FailureHint, s: seq<FailureHint>, j: nat)
    requires j <= |s| && (j == 0 || !Less(x, s[j - 1]))
    ensures Insert(x, s[..j]) + s[j..] == s[..j] + [x] + s[j..]
  {
  }

  /** Swapping `x` with the element on its left moves it one place left. */
  lemma SwapLeft(done: seq<FailureHint>, x: FailureHint, rest: seq<FailureHint>, j: nat)
    requires 0 < j <= |done|
    ensures var s := done[..j] + [x] + done[j..] + rest;
      s[j - 1 := x][j := done[j - 1]] == done[..j - 1] + [x] + done[j - 1..] + rest
  {
    var s := done[..j] + [x] + done[j..] + rest;
    var t := done[..j - 1] + [x] + done[j - 1..] + rest;
    assert |s[j - 1 := x][j := done[j - 1]]| == |t|;
    forall k | 0 <= k < |t| ensures s[j - 1 := x][j := done[j - 1]][k] == t[k] {
      if k < j - 1 {
        assert s[k] == done[k] && t[k] == done[k];
      } else if k > j {
        assert s[k] == t[k];
      }
    }
  }

  /** One pass of Go's insertion sort: with `a[..i]` sorted, `a[i]` is swapped
      leftwards past every element it sorts before. */
  method InsertAt(a: array<FailureHint>, i: nat)
    requires i < a.Length
    modifies a
    ensures a[..i + 1] == Insert(old(a[i]), old(a[..i]))
    ensures a[i + 1..] == old(a[i + 1..])
  {
    ghost var done, rest := a[..i], a[i + 1..];
    ghost var x := a[i];
    var j := i;
    assert done[..j] == done && done[j..] == [];
    assert a[..] == done[..j] + [x] + done[j..] + rest;
    while j > 0 && Less(a[j], a[j - 1])
      invariant 0 <= j <= i
      invariant a[..] == done[..j] + [x] + done[j..] + rest
      invariant Insert(x, done) == Insert(x, done[..j]) + done[j..]
    {
      assert a[j] == x && a[j - 1] == done[j - 1];
      InsertShift(x, done, j);
      SwapLeft(done, x, rest, j);
      ghost var before := a[..];
      a[j], a[j - 1] := a[j - 1], a[j];
      assert a[..] == before[j - 1 := x][j := done[j - 1]];
      j := j - 1;
    }
    assert a[j] == x && (j > 0 ==> a[j - 1] == done[j - 1]);
    InsertStop(x, done, j);
    assert a[..i + 1] == (done[..j] + [x] + done[j..] + rest)[..i + 1];
  }

  /** `sort.SliceStable` over the findings, as an in-place insertion sort. */
  method SortInPlace(a: array<FailureHint>)
    modifies a
    ensures a[..] == SortHints(old(a[..]))
  {
    ghost var input := a[..];
    var i := 0;
    while i < a.Length
      invariant 0 <= i <= a.Length
      invariant a[..i] == SortHints(input[..i])
      invariant forall k :: i <= k < a.Length ==> a[k] == input[k]
    {
      InsertAt(a, i);
      assert input[..i + 1][..i] == input[..i];
      i := i + 1;
    }
    assert a[..] == a[..a.Length];
    assert input[..a.Length] == input;
  }

  /** A single finding is already sorted. */
  lemma SortSingle(a: FailureHint)
    ensures SortHints([a]) == [a]
  {
    assert [a][..0] == [];
  }

  /** Two findings swap exactly when the second sorts strictly before the first. */
  lemma SortPair(a: FailureHint, b: FailureHint)
    ensures SortHints([a, b]) == if Less(b, a) then [b, a] else [a, b]
  {
    assert [a, b][..1] == [a];
    SortSingle(a);
    assert [a][..0] == [];
    assert Insert(b, [a]) == if Less(b, a) then [b, a] else [a, b];
  }
}
