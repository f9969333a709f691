/** Containers and list facts shared by the models. */
module Collections {
  datatype Option<+T> = None | Some(value: T)

  /** Labels of an object. */
  type Labels = map<string, string>

  function Get<K, V>(m: map<K, V>, k: K): Option<V> {
    if k in m then Some(m[k]) else None
  }

  function Min(a: int, b: int): int {
    if a < b then a else b
  }

  function ToSet<T>(s: seq<T>): set<T> {
    set x | x in s
  }

  ghost predicate NoDup<T>(s: seq<T>) {
    forall i, j :: 0 <= i < j < |s| ==> s[i] != s[j]
  }

  /** A list without repetitions has as many elements as its set of elements. */
  lemma {:induction false} NoDupSize<T>(s: seq<T>)
    requires NoDup(s)
    ensures |ToSet(s)| == |s|
  {
    if s != [] {
      var front, last := s[..|s| - 1], s[|s| - 1];
      NoDupSize(front);
      assert ToSet(s) == ToSet(front) + {last};
      assert last !in front;
    }
  }

  /** A subset is no larger than the set that contains it. */
  lemma {:induction false} SubsetSize<T>(a: set<T>, b: set<T>)
    requires a <= b
    ensures |a| <= |b|
    ensures |a| == |b| ==> a == b
  {
    if a != {} {
      var x :| x in a;
      SubsetSize(a - {x}, b - {x});
    }
  }

  /** The naturals below n. */
  function Below(n: nat): (r: set<nat>)
    ensures forall i: nat :: i in r <==> i < n
    ensures |r| == n
  {
    if n == 0 then {} else Below(n - 1) + {n - 1}
  }

  /** The elements that satisfy p, in order. */
  function Selected<T>(s: seq<T>, p: T -> bool): seq<T> {
    if s == [] then [] else Selected(s[..|s| - 1], p) + (if p(s[|s| - 1]) then [s[|s| - 1]] else [])
  }

  lemma {:induction false} SelectedMembers<T(!new)>(s: seq<T>, p: T -> bool)
    ensures forall x :: x in Selected(s, p) <==> x in s && p(x)
  {
    if s != [] {
      SelectedMembers(s[..|s| - 1], p);
      assert s == s[..|s| - 1] + [s[|s| - 1]];
    }
  }

  /** The first element that satisfies p is at i. */
  ghost predicate IsFirst<T>(s: seq<T>, p: T -> bool, i: int) {
    0 <= i < |s| && p(s[i]) && forall j :: 0 <= j < i ==> !p(s[j])
  }

  lemma {:induction false} NoneSelected<T>(s: seq<T>, p: T -> bool)
    requires forall j :: 0 <= j < |s| ==> !p(s[j])
    ensures Selected(s, p) == []
  {
    if s != [] {
      NoneSelected(s[..|s| - 1], p);
    }
  }

  lemma {:induction false} FirstIsSelected<T>(s: seq<T>, p: T -> bool, i: nat)
    requires IsFirst(s, p, i)
    ensures Selected(s, p) != [] && Selected(s, p)[0] == s[i]
  {
    var n := |s| - 1;
    var front := s[..n];
    assert forall j :: 0 <= j < n ==> front[j] == s[j];
    if i < n {
      assert IsFirst(front, p, i);
      FirstIsSelected(front, p, i);
    } else {
      NoneSelected(front, p);
    }
  }

  lemma {:induction false} FirstSelected<T(!new)>(s: seq<T>, p: T -> bool) returns (i: nat)
    requires Selected(s, p) != []
    ensures IsFirst(s, p, i)
  {
    var n := |s| - 1;
    if Selected(s[..n], p) != [] {
      i := FirstSelected(s[..n], p);
    } else {
      SelectedMembers(s[..n], p);
      i := n;
      forall j | 0 <= j < n ensures !p(s[j]) {
        assert s[j] in s[..n];
      }
    }
  }

  /** It is the first of those selected. */
  lemma SelectedFirst<T(!new)>(s: seq<T>, p: T -> bool)
    ensures forall i :: IsFirst(s, p, i) ==> Selected(s, p) != [] && Selected(s, p)[0] == s[i]
    ensures Selected(s, p) != [] ==> exists i :: IsFirst(s, p, i)
  {
    forall i | IsFirst(s, p, i) ensures Selected(s, p) != [] && Selected(s, p)[0] == s[i] {
      FirstIsSelected(s, p, i);
    }
    if Selected(s, p) != [] {
      var _ := FirstSelected(s, p);
    }
  }

  // ---------------------------------------------------------------- histories

  /** Of the first n steps, i switches on and none behind it switches off. */
  ghost predicate Latest(on: int -> bool, off: int -> bool, n: nat, i: int) {
    0 <= i < n && on(i) && forall j :: i < j < n ==> !off(j)
  }

  /** Step k switches on, or leaves on what it does not switch off. */
  ghost predicate Switches(now: int -> bool, on: int -> bool, off: int -> bool, k: int) {
    now(k + 1) <==> on(k) || (now(k) && !off(k))
  }

  lemma LatestNext(on: int -> bool, off: int -> bool, n: nat, i: int)
    ensures Latest(on, off, n + 1, i) <==> (i == n && on(n)) || (Latest(on, off, n, i) && !off(n))
  {
  }

  /** What is off at first is on after n steps exactly when some step switched it on and none off since. */
  lemma {:induction false} OnSinceLatest(now: int -> bool, on: int -> bool, off: int -> bool, n: nat)
    requires !now(0) && forall k :: 0 <= k < n ==> Switches(now, on, off, k)
    ensures now(n) <==> exists i :: Latest(on, off, n, i)
  {
    if n > 0 {
      var m: nat := n - 1;
      OnSinceLatest(now, on, off, m);
      assert Switches(now, on, off, m);
      forall i ensures Latest(on, off, n, i) <==> (i == m && on(m)) || (Latest(on, off, m, i) && !off(m)) {
        LatestNext(on, off, m, i);
      }
      if on(m) {
        assert Latest(on, off, n, m);
      } else if i :| Latest(on, off, m, i) {
        assert Latest(on, off, n, i) <==> !off(m);
      }
    }
  }
}

/**
 * Go's sort.SliceStable, as the stable insertion sort it uses on its blocks.
 * `leq(a, b)` stands for "b is not less than a" under the caller's less function.
 */
module StableSort {
  import opened Collections

  predicate Comparable<T>(leq: (T, T) -> bool, a: T, b: T) {
    leq(a, b) || leq(b, a)
  }

  predicate Chains<T>(leq: (T, T) -> bool, a: T, b: T, c: T) {
    leq(a, b) && leq(b, c) ==> leq(a, c)
  }

  ghost predicate TotalPreorder<T(!new)>(leq: (T, T) -> bool) {
    && (forall a, b :: Comparable(leq, a, b))
    && (forall a, b, c :: Chains(leq, a, b, c))
  }

  ghost predicate Sorted<T>(s: seq<T>, leq: (T, T) -> bool) {
    forall i, j :: 0 <= i < j < |s| ==> leq(s[i], s[j])
  }

  function Insert<T>(s: seq<T>, x: T, leq: (T, T) -> bool): seq<T> {
    if s == [] then [x]
    else
      var last := s[|s| - 1];
      if leq(last, x) then s + [x] else Insert(s[..|s| - 1], x, leq) + [last]
  }

  function Sort<T>(s: seq<T>, leq: (T, T) -> bool): seq<T> {
    if s == [] then [] else Insert(Sort(s[..|s| - 1], leq), s[|s| - 1], leq)
  }

  /** The elements of s that are neither above nor below t, in their order in s. */
  function Class<T>(s: seq<T>, t: T, leq: (T, T) -> bool): seq<T> {
    if s == [] then []
    else
      var last := s[|s| - 1];
      Class(s[..|s| - 1], t, leq) + (if leq(last, t) && leq(t, last) then [last] else [])
  }

  lemma {:induction false} InsertMembers<T(!new)>(s: seq<T>, x: T, leq: (T, T) -> bool)
    ensures forall y :: y in Insert(s, x, leq) <==> y in s || y == x
  {
    if s != [] && !leq(s[|s| - 1], x) {
      InsertMembers(s[..|s| - 1], x, leq);
      assert s == s[..|s| - 1] + [s[|s| - 1]];
    }
  }

  lemma {:induction false} InsertPermutes<T(!new)>(s: seq<T>, x: T, leq: (T, T) -> bool)
    ensures multiset(Insert(s, x, leq)) == multiset(s) + multiset{x}
  {
    if s != [] {
      assert s == s[..|s| - 1] + [s[|s| - 1]];
      if !leq(s[|s| - 1], x) {
        InsertPermutes(s[..|s| - 1], x, leq);
      }
    }
  }

  lemma {:induction false} InsertSorted<T(!new)>(s: seq<T>, x: T, leq: (T, T) -> bool)
    requires TotalPreorder(leq) && Sorted(s, leq)
    ensures Sorted(Insert(s, x, leq), leq)
  {
    if s != [] {
      var front, last := s[..|s| - 1], s[|s| - 1];
      assert Comparable(leq, last, x);
      if leq(last, x) {
        forall i | 0 <= i < |s| ensures leq(s[i], x) {
          assert Chains(leq, s[i], last, x);
        }
      } else {
        InsertSorted(front, x, leq);
        InsertMembers(front, x, leq);
        var r := Insert(front, x, leq);
        forall i | 0 <= i < |r| ensures leq(r[i], last) {
          assert r[i] in r;
        }
      }
    }
  }

  lemma {:induction false} SortIsSorted<T(!new)>(s: seq<T>, leq: (T, T) -> bool)
    requires TotalPreorder(leq)
    ensures Sorted(Sort(s, leq), leq)
  {
    if s != [] {
      SortIsSorted(s[..|s| - 1], leq);
      InsertSorted(Sort(s[..|s| - 1], leq), s[|s| - 1], leq);
    }
  }

  lemma {:induction false} SortPermutes<T(!new)>(s: seq<T>, leq: (T, T) -> bool)
    ensures multiset(Sort(s, leq)) == multiset(s)
  {
    if s != [] {
      var front, last := s[..|s| - 1], s[|s| - 1];
      SortPermutes(front, leq);
      InsertPermutes(Sort(front, leq), last, leq);
      assert s == front + [last];
    }
  }

  /** Sorting orders the list and only permutes it. */
  lemma SortSorted<T(!new)>(s: seq<T>, leq: (T, T) -> bool)
    requires TotalPreorder(leq)
    ensures Sorted(Sort(s, leq), leq)
    ensures multiset(Sort(s, leq)) == multiset(s)
  {
    SortIsSorted(s, leq);
    SortPermutes(s, leq);
  }

  lemma ClassSnoc<T>(s: seq<T>, x: T, t: T, leq: (T, T) -> bool)
    ensures Class(s + [x], t, leq) == Class(s, t, leq) + (if leq(x, t) && leq(t, x) then [x] else [])
  {
    assert (s + [x])[..|s|] == s;
  }

  lemma {:induction false} InsertStable<T(!new)>(s: seq<T>, x: T, t: T, leq: (T, T) -> bool)
    requires TotalPreorder(leq)
    ensures Class(Insert(s, x, leq), t, leq) == Class(s, t, leq) + (if leq(x, t) && leq(t, x) then [x] else [])
  {
    if s == [] || leq(s[|s| - 1], x) {
      ClassSnoc(s, x, t, leq);
      assert s == [] ==> s + [x] == [x];
    } else {
      assert Chains(leq, s[|s| - 1], t, x);
      var front, last := s[..|s| - 1], s[|s| - 1];
      InsertStable(front, x, t, leq);
      ClassSnoc(Insert(front, x, leq), last, t, leq);
    }
  }

  /** Sorting is stable: equivalent elements keep their order. */
  lemma {:induction false} SortStable<T(!new)>(s: seq<T>, t: T, leq: (T, T) -> bool)
    requires TotalPreorder(leq)
    ensures Class(Sort(s, leq), t, leq) == Class(s, t, leq)
  {
    if s != [] {
      SortStable(s[..|s| - 1], t, leq);
      InsertStable(Sort(s[..|s| - 1], leq), s[|s| - 1], t, leq);
    }
  }

  lemma {:induction false} ClassMembers<T(!new)>(s: seq<T>, t: T, leq: (T, T) -> bool)
    ensures forall x :: x in Class(s, t, leq) <==> x in s && leq(x, t) && leq(t, x)
  {
    if s != [] {
      ClassMembers(s[..|s| - 1], t, leq);
      assert s == s[..|s| - 1] + [s[|s| - 1]];
    }
  }

  lemma NonEmptyTransfers<T(!new)>(a: seq<T>, b: seq<T>, leq: (T, T) -> bool)
    requires TotalPreorder(leq) && a != []
    requires forall t :: Class(a, t, leq) == Class(b, t, leq)
    ensures b != []
  {
    ClassMembers(a, a[0], leq);
    ClassMembers(b, a[0], leq);
    assert Comparable(leq, a[0], a[0]);
    assert a[0] in Class(a, a[0], leq);
  }

  /** The last element of one list is not above the last of another with the same classes. */
  lemma LastBelow<T(!new)>(a: seq<T>, b: seq<T>, leq: (T, T) -> bool)
    requires TotalPreorder(leq) && Sorted(a, leq) && a != [] && b != []
    requires forall t :: Class(a, t, leq) == Class(b, t, leq)
    ensures leq(b[|b| - 1], a[|a| - 1])
  {
    var y := b[|b| - 1];
    assert Comparable(leq, y, y);
    ClassMembers(a, y, leq);
    ClassMembers(b, y, leq);
    assert y in Class(a, y, leq);
  }

  lemma LastOfClass<T(!new)>(s: seq<T>, t: T, leq: (T, T) -> bool)
    requires s != [] && leq(s[|s| - 1], t) && leq(t, s[|s| - 1])
    ensures var c := Class(s, t, leq); c != [] && c[|c| - 1] == s[|s| - 1]
  {
  }

  lemma LastsAgree<T(!new)>(a: seq<T>, b: seq<T>, leq: (T, T) -> bool)
    requires TotalPreorder(leq) && Sorted(a, leq) && Sorted(b, leq) && a != [] && b != []
    requires forall t :: Class(a, t, leq) == Class(b, t, leq)
    ensures a[|a| - 1] == b[|b| - 1]
  {
    var x, y := a[|a| - 1], b[|b| - 1];
    LastBelow(a, b, leq);
    LastBelow(b, a, leq);
    assert Comparable(leq, x, x);
    LastOfClass(a, x, leq);
    LastOfClass(b, x, leq);
  }

  /** A sorted list is determined by its classes, so any correct stable sort returns this one. */
  lemma {:induction false} SortedUnique<T(!new)>(a: seq<T>, b: seq<T>, leq: (T, T) -> bool)
    requires TotalPreorder(leq) && Sorted(a, leq) && Sorted(b, leq)
    requires forall t :: Class(a, t, leq) == Class(b, t, leq)
    ensures a == b
  {
    if a != [] {
      NonEmptyTransfers(a, b, leq);
      LastsAgree(a, b, leq);
      var a', b', x := a[..|a| - 1], b[..|b| - 1], a[|a| - 1];
      assert a == a' + [x] && b == b' + [x];
      forall t ensures Class(a', t, leq) == Class(b', t, leq) {
        ClassSnoc(a', x, t, leq);
        ClassSnoc(b', x, t, leq);
        var tail := if leq(x, t) && leq(t, x) then [x] else [];
        assert Class(a', t, leq) == Class(a, t, leq)[..|Class(a, t, leq)| - |tail|];
      }
      SortedUnique(a', b', leq);
    } else if b != [] {
      NonEmptyTransfers(b, a, leq);
      assert false;
    }
  }

  lemma {:induction false} SortMembers<T(!new)>(s: seq<T>, leq: (T, T) -> bool)
    ensures forall y :: y in Sort(s, leq) <==> y in s
  {
    if s != [] {
      SortMembers(s[..|s| - 1], leq);
      InsertMembers(Sort(s[..|s| - 1], leq), s[|s| - 1], leq);
      assert s == s[..|s| - 1] + [s[|s| - 1]];
    }
  }

  lemma {:induction false} InsertAgrees<T(!new)>(s: seq<T>, x: T, leq: (T, T) -> bool, leq': (T, T) -> bool)
    requires forall y :: y in s ==> leq(y, x) == leq'(y, x)
    ensures Insert(s, x, leq) == Insert(s, x, leq')
  {
    if s != [] {
      assert s[|s| - 1] in s;
      InsertAgrees(s[..|s| - 1], x, leq, leq');
    }
  }

  /**
   * A stable sort only asks whether a later element is less than an earlier one, so relations that
   * agree on these pairs sort the list alike, total preorders or not.
   */
  lemma {:induction false} SortAgrees<T(!new)>(s: seq<T>, leq: (T, T) -> bool, leq': (T, T) -> bool)
    requires forall i, j :: 0 <= i < j < |s| ==> leq(s[i], s[j]) == leq'(s[i], s[j])
    ensures Sort(s, leq) == Sort(s, leq')
  {
    if s != [] {
      var front, last := s[..|s| - 1], s[|s| - 1];
      SortAgrees(front, leq, leq');
      SortMembers(front, leq);
      forall y | y in Sort(front, leq) ensures leq(y, last) == leq'(y, last) {
        var i :| 0 <= i < |front| && front[i] == y;
        assert s[i] == y;
      }
      InsertAgrees(Sort(front, leq), last, leq, leq');
    }
  }

  lemma {:induction false} SelectedSorted<T(!new)>(s: seq<T>, p: T -> bool, leq: (T, T) -> bool)
    requires Sorted(s, leq)
    ensures Sorted(Selected(s, p), leq)
  {
    if s != [] {
      var front, last := s[..|s| - 1], s[|s| - 1];
      SelectedSorted(front, p, leq);
      SelectedMembers(front, p);
      forall x | x in Selected(front, p) ensures leq(x, last) {
        var i :| 0 <= i < |front| && front[i] == x;
        assert s[i] == x;
      }
    }
  }

  lemma {:induction false} ClassSelected<T(!new)>(s: seq<T>, t: T, leq: (T, T) -> bool, p: T -> bool)
    ensures Class(Selected(s, p), t, leq) == Selected(Class(s, t, leq), p)
  {
    if s != [] {
      var front, last := s[..|s| - 1], s[|s| - 1];
      ClassSelected(front, t, leq, p);
      var c := Class(front, t, leq);
      assert (c + [last])[..|c|] == c;
      ClassSnoc(Selected(front, p), last, t, leq);
      assert Selected(front, p) + [] == Selected(front, p) && c + [] == c;
    }
  }

  lemma {:induction false} ClassConcat<T(!new)>(a: seq<T>, b: seq<T>, t: T, leq: (T, T) -> bool)
    ensures Class(a + b, t, leq) == Class(a, t, leq) + Class(b, t, leq)
  {
    if b == [] {
      assert a + b == a;
    } else {
      var front, last := b[..|b| - 1], b[|b| - 1];
      assert a + b == (a + front) + [last];
      ClassConcat(a, front, t, leq);
      ClassSnoc(a + front, last, t, leq);
      ClassSnoc(front, last, t, leq);
      assert front + [last] == b;
    }
  }

  // ---------------------------------------------------------------- what comes before what

  ghost predicate Precedes<T>(s: seq<T>, x: T, y: T) {
    exists i, j :: 0 <= i < j < |s| && s[i] == x && s[j] == y
  }

  lemma PrecedesSnoc<T>(s: seq<T>, z: T, x: T, y: T)
    ensures Precedes(s + [z], x, y) <==> Precedes(s, x, y) || (x in s && z == y)
  {
    var more := s + [z];
    if Precedes(s, x, y) {
      var i, j :| 0 <= i < j < |s| && s[i] == x && s[j] == y;
      assert more[i] == x && more[j] == y;
    }
    if x in s && z == y {
      var i :| 0 <= i < |s| && s[i] == x;
      assert more[i] == x && more[|s|] == y;
    }
    if Precedes(more, x, y) {
      var i, j :| 0 <= i < j < |more| && more[i] == x && more[j] == y;
      assert s[i] == x && (j < |s| ==> s[j] == y);
    }
  }

  lemma {:induction false} ClassPrecedes<T(!new)>(s: seq<T>, t: T, leq: (T, T) -> bool, x: T, y: T)
    requires leq(x, t) && leq(t, x) && leq(y, t) && leq(t, y)
    ensures Precedes(Class(s, t, leq), x, y) <==> Precedes(s, x, y)
  {
    if s != [] {
      var front, last := s[..|s| - 1], s[|s| - 1];
      assert s == front + [last];
      ClassPrecedes(front, t, leq, x, y);
      ClassMembers(front, t, leq);
      PrecedesSnoc(front, last, x, y);
      PrecedesSnoc(Class(front, t, leq), last, x, y);
      assert Class(front, t, leq) + [] == Class(front, t, leq);
    }
  }

  /** In the sorted list x comes before y exactly when it is less, or equivalent and before y in the list. */
  lemma SortOrder<T(!new)>(s: seq<T>, leq: (T, T) -> bool, x: T, y: T)
    requires TotalPreorder(leq)
    ensures Precedes(Sort(s, leq), x, y) <==> x in s && y in s && leq(x, y) && (leq(y, x) ==> Precedes(s, x, y))
  {
    var sorted := Sort(s, leq);
    SortSorted(s, leq);
    SortMembers(s, leq);
    assert Comparable(leq, x, x) && Comparable(leq, y, y);
    if leq(x, y) && leq(y, x) {
      SortStable(s, x, leq);
      ClassPrecedes(s, x, leq, x, y);
      ClassPrecedes(sorted, x, leq, x, y);
      assert Precedes(s, x, y) ==> x in s && y in s;
    } else if x in s && y in s && leq(x, y) {
      assert !leq(y, x);
      var i :| 0 <= i < |sorted| && sorted[i] == x;
      var j :| 0 <= j < |sorted| && sorted[j] == y;
      assert i < j;
    }
  }
}
