/**
 * A JavaScript `Set` as the filter code uses it: an insertion-ordered
 * sequence without duplicates. `new Set(xs)` keeps the first occurrence of
 * each value, `add` appends a new value, `delete` cuts a value out in place.
 */
module JsSet {
  /** No value occurs twice. */
  predicate NoDup<T(==,!new)>(s: seq<T>) {
    forall i, j :: 0 <= i < j < |s| ==> s[i] != s[j]
  }

  /** `new Set(xs)`: the values of `xs`, each once, in order of first occurrence. */
  function FromSeq<T(==,!new)>(xs: seq<T>): (r: seq<T>)
    ensures NoDup(r)
    ensures forall x :: x in r <==> x in xs
    ensures |r| <= |xs|
  {
    if xs == [] then []
    else
      var init := FromSeq(xs[..|xs| - 1]);
      var last := xs[|xs| - 1];
      assert xs == xs[..|xs| - 1] + [last];
      if last in init then init else init + [last]
  }

  /** `set.delete(x)`: every occurrence of `x` is cut out, the rest keeps its order. */
  function Without<T(==,!new)>(s: seq<T>, x: T): (r: seq<T>)
    ensures forall y :: y in r <==> y in s && y != x
    ensures |r| <= |s|
  {
    if s == [] then []
    else if s[0] == x then Without(s[1..], x)
    else [s[0]] + Without(s[1..], x)
  }

  /** The filter toggle: `has(x) ? delete(x) : add(x)`. */
  function Toggle<T(==,!new)>(s: seq<T>, x: T): (r: seq<T>)
    ensures x in r <==> x !in s
    ensures forall y :: y != x ==> (y in r <==> y in s)
  {
    if x in s then Without(s, x) else s + [x]
  }

  /** A sequence that already has no duplicates is its own set. */
  lemma {:induction false} FromSeqOfNoDup<T(!new)>(xs: seq<T>)
    requires NoDup(xs)
    ensures FromSeq(xs) == xs
  {
    if xs != [] {
      var init := xs[..|xs| - 1];
      assert NoDup(init) by {
        forall i, j | 0 <= i < j < |init| ensures init[i] != init[j] {
          assert init[i] == xs[i] && init[j] == xs[j];
        }
      }
      FromSeqOfNoDup(init);
      assert xs[|xs| - 1] !in init by {
        forall i | 0 <= i < |init| ensures init[i] != xs[|xs| - 1] {
          assert init[i] == xs[i];
        }
      }
      assert init + [xs[|xs| - 1]] == xs;
    }
  }

  /** Deleting a value that is absent changes nothing. */
  lemma {:induction false} WithoutAbsent<T(!new)>(s: seq<T>, x: T)
    requires x !in s
    ensures Without(s, x) == s
  {
    if s != [] {
      WithoutAbsent(s[1..], x);
    }
  }

  /** Deleting keeps a sequence free of duplicates. */
  lemma {:induction false} WithoutNoDup<T(!new)>(s: seq<T>, x: T)
    requires NoDup(s)
    ensures NoDup(Without(s, x))
  {
    if s != [] {
      var t := s[1..];
      assert NoDup(t) by {
        forall i, j | 0 <= i < j < |t| ensures t[i] != t[j] {
          assert t[i] == s[i + 1] && t[j] == s[j + 1];
        }
      }
      WithoutNoDup(t, x);
      assert s[0] !in t by {
        forall i | 0 <= i < |t| ensures t[i] != s[0] {
          assert t[i] == s[i + 1];
        }
      }
    }
  }

  /** Toggling keeps a sequence free of duplicates. */
  lemma ToggleNoDup<T(!new)>(s: seq<T>, x: T)
    requires NoDup(s)
    ensures NoDup(Toggle(s, x))
  {
    if x in s {
      WithoutNoDup(s, x);
    }
  }

  /** Toggling a value twice restores the set. When the value was absent the
      sequence itself comes back, order included. */
  lemma ToggleTwice<T(!new)>(s: seq<T>, x: T)
    ensures forall y :: y in Toggle(Toggle(s, x), x) <==> y in s
    ensures x !in s ==> Toggle(Toggle(s, x), x) == s
    ensures x in s ==> Toggle(Toggle(s, x), x) == Without(s, x) + [x]
  {
    if x !in s {
      WithoutAppended(s, x);
    }
  }

  lemma {:induction false} WithoutAppended<T(!new)>(s: seq<T>, x: T)
    requires x !in s
    ensures Without(s + [x], x) == s
  {
    if s == [] {
      assert [x][1..] == [];
    } else {
      assert (s + [x])[1..] == s[1..] + [x];
      WithoutAppended(s[1..], x);
    }
  }
}
