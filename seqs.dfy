/** Sequence helpers: insertion-ordered sets (`new Set`, `Set.add`,
    `Array.from`) and the list differences capability reconciliation uses. */
module Seqs {
  predicate NoDup<T(==)>(s: seq<T>) {
    forall i, j :: 0 <= i < j < |s| ==> s[i] != s[j]
  }

  function Count<T(==)>(s: seq<T>, x: T): nat {
    if s == [] then 0 else (if s[0] == x then 1 else 0) + Count(s[1..], x)
  }

  lemma {:induction false} CountNoDup<T>(s: seq<T>, x: T)
    requires NoDup(s)
    ensures Count(s, x) == if x in s then 1 else 0
  {
    if s != [] {
      assert NoDup(s[1..]) by {
        forall i, j | 0 <= i < j < |s[1..]| ensures s[1..][i] != s[1..][j] {
          assert s[1..][i] == s[i + 1] && s[1..][j] == s[j + 1];
        }
      }
      CountNoDup(s[1..], x);
      if s[0] == x {
        assert x !in s[1..] by {
          forall k | 0 <= k < |s[1..]| ensures s[1..][k] != x {
            assert s[1..][k] == s[k + 1];
          }
        }
      } else {
        assert x in s <==> x in s[1..] by {
          assert s == [s[0]] + s[1..];
        }
      }
    }
  }

  /** `set.add(x)` on an insertion-ordered set held as a duplicate-free sequence. */
  function Insert<T(==)>(acc: seq<T>, x: T): seq<T> {
    if x in acc then acc else acc + [x]
  }

  /** `xs.forEach((x) => set.add(x))` */
  function InsertAll<T(==)>(acc: seq<T>, xs: seq<T>): seq<T>
    decreases |xs|
  {
    if xs == [] then acc else InsertAll(Insert(acc, xs[0]), xs[1..])
  }

  lemma {:induction false} InsertAllMembers<T>(acc: seq<T>, xs: seq<T>, x: T)
    ensures x in InsertAll(acc, xs) <==> x in acc || x in xs
    decreases |xs|
  {
    if xs != [] {
      InsertAllMembers(Insert(acc, xs[0]), xs[1..], x);
      assert x in xs <==> x == xs[0] || x in xs[1..] by {
        assert xs == [xs[0]] + xs[1..];
      }
    }
  }

  lemma {:induction false} InsertAllNoDup<T>(acc: seq<T>, xs: seq<T>)
    requires NoDup(acc)
    ensures NoDup(InsertAll(acc, xs))
    decreases |xs|
  {
    if xs != [] {
      var next := Insert(acc, xs[0]);
      assert NoDup(next);
      InsertAllNoDup(next, xs[1..]);
    }
  }

  /** Uniting several groups into one insertion-ordered set. */
  function UnionAll<T(==)>(acc: seq<T>, groups: seq<seq<T>>): seq<T>
    decreases |groups|
  {
    if groups == [] then acc else UnionAll(InsertAll(acc, groups[0]), groups[1..])
  }

  lemma {:induction false} UnionAllMembers<T>(acc: seq<T>, groups: seq<seq<T>>, x: T)
    ensures x in UnionAll(acc, groups) <==> x in acc || exists g :: g in groups && x in g
    decreases |groups|
  {
    if groups != [] {
      InsertAllMembers(acc, groups[0], x);
      UnionAllMembers(InsertAll(acc, groups[0]), groups[1..], x);
      assert forall g :: g in groups <==> g == groups[0] || g in groups[1..] by {
        assert groups == [groups[0]] + groups[1..];
      }
    }
  }

  lemma {:induction false} UnionAllNoDup<T>(acc: seq<T>, groups: seq<seq<T>>)
    requires NoDup(acc)
    ensures NoDup(UnionAll(acc, groups))
    decreases |groups|
  {
    if groups != [] {
      InsertAllNoDup(acc, groups[0]);
      UnionAllNoDup(InsertAll(acc, groups[0]), groups[1..]);
    }
  }

  lemma {:induction false} InsertAllSnoc<T>(acc: seq<T>, xs: seq<T>, x: T)
    ensures InsertAll(acc, xs + [x]) == Insert(InsertAll(acc, xs), x)
    decreases |xs|
  {
    if xs == [] {
      assert [] + [x] == [x] && [x][1..] == [];
    } else {
      assert (xs + [x])[0] == xs[0] && (xs + [x])[1..] == xs[1..] + [x];
      InsertAllSnoc(Insert(acc, xs[0]), xs[1..], x);
    }
  }

  /** Adding elements already present changes nothing. */
  lemma {:induction false} InsertAllPresent<T>(acc: seq<T>, xs: seq<T>)
    requires forall x :: x in xs ==> x in acc
    ensures InsertAll(acc, xs) == acc
    decreases |xs|
  {
    if xs != [] {
      assert forall x :: x in xs[1..] ==> x in xs;
      InsertAllPresent(acc, xs[1..]);
    }
  }

  /** `s` with every occurrence of `x` taken out. */
  function Without<T(==)>(s: seq<T>, x: T): seq<T>
  {
    if s == [] then [] else (if s[0] == x then [] else [s[0]]) + Without(s[1..], x)
  }

  /** The elements of `s` that are in `keep`, in order. */
  function KeepOnly<T(==,!new)>(s: seq<T>, keep: seq<T>): (r: seq<T>)
    ensures forall y :: y in r <==> y in s && y in keep
  {
    if s == [] then [] else (if s[0] in keep then [s[0]] else []) + KeepOnly(s[1..], keep)
  }

  /** The elements of `s` that are not in `other`, in order. */
  function Missing<T(==,!new)>(s: seq<T>, other: seq<T>): (r: seq<T>)
  {
    if s == [] then [] else (if s[0] in other then [] else [s[0]]) + Missing(s[1..], other)
  }

  lemma {:induction false} MissingMembers<T(!new)>(s: seq<T>, other: seq<T>, y: T)
    ensures y in Missing(s, other) <==> y in s && y !in other
  {
    if s != [] {
      MissingMembers(s[1..], other, y);
      assert s == [s[0]] + s[1..];
    }
  }

  lemma {:induction false} MissingSnoc<T(!new)>(s: seq<T>, other: seq<T>, x: T)
    ensures Missing(s + [x], other) == Missing(s, other) + (if x in other then [] else [x])
  {
    if s == [] {
      assert [] + [x] == [x] && [x][1..] == [];
    } else {
      assert (s + [x])[0] == s[0] && (s + [x])[1..] == s[1..] + [x];
      MissingSnoc(s[1..], other, x);
    }
  }

  lemma {:induction false} KeepOnlyAppend<T(!new)>(a: seq<T>, b: seq<T>, keep: seq<T>)
    ensures KeepOnly(a + b, keep) == KeepOnly(a, keep) + KeepOnly(b, keep)
  {
    if a == [] {
      assert [] + b == b;
    } else {
      assert (a + b)[0] == a[0] && (a + b)[1..] == a[1..] + b;
      KeepOnlyAppend(a[1..], b, keep);
    }
  }

  lemma {:induction false} KeepOnlyAll<T(!new)>(s: seq<T>, keep: seq<T>)
    requires forall x :: x in s ==> x in keep
    ensures KeepOnly(s, keep) == s
  {
    if s != [] {
      assert forall x :: x in s[1..] ==> x in s;
      KeepOnlyAll(s[1..], keep);
      assert s == [s[0]] + s[1..];
    }
  }

  lemma {:induction false} MissingNone<T(!new)>(s: seq<T>, other: seq<T>)
    requires forall x :: x in s ==> x in other
    ensures Missing(s, other) == []
  {
    if s != [] {
      assert forall x :: x in s[1..] ==> x in s;
      MissingNone(s[1..], other);
    }
  }

  lemma {:induction false} MissingAppend<T(!new)>(a: seq<T>, b: seq<T>, other: seq<T>)
    ensures Missing(a + b, other) == Missing(a, other) + Missing(b, other)
  {
    if a == [] {
      assert [] + b == b;
    } else {
      assert (a + b)[0] == a[0] && (a + b)[1..] == a[1..] + b;
      MissingAppend(a[1..], b, other);
    }
  }

  lemma {:induction false} KeepOnlyNoDup<T(!new)>(s: seq<T>, keep: seq<T>)
    requires NoDup(s)
    ensures NoDup(KeepOnly(s, keep))
  {
    if s != [] {
      assert NoDup(s[1..]) by {
        forall i, j | 0 <= i < j < |s[1..]| ensures s[1..][i] != s[1..][j] {
          assert s[1..][i] == s[i + 1] && s[1..][j] == s[j + 1];
        }
      }
      KeepOnlyNoDup(s[1..], keep);
      assert s[0] !in s[1..] by {
        forall k | 0 <= k < |s[1..]| ensures s[1..][k] != s[0] {
          assert s[1..][k] == s[k + 1];
        }
      }
    }
  }
}
