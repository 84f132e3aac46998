/** `java.util.LinkedHashSet<String>` as a duplicate-free sequence whose order
    is the order of first insertion. */
module LinkedSet {

  predicate NoDuplicates<T(==)>(s: seq<T>) {
    forall i, j :: 0 <= i < j < |s| ==> s[i] != s[j]
  }

  /** The set a linked set stands for (what `Set.equals` compares). */
  function Elements<T>(s: seq<T>): set<T> {
    set x | x in s
  }

  /** `add(x)`: appends `x` unless it is already present. */
  function Add<T(==)>(s: seq<T>, x: T): (r: seq<T>)
    ensures Elements(r) == Elements(s) + {x}
    ensures NoDuplicates(s) ==> NoDuplicates(r)
    ensures |s| <= |r| <= |s| + 1 && r[..|s|] == s
    ensures x in s <==> r == s
  {
    if x in s then s else s + [x]
  }

  /** Adds every element of `xs`, left to right, as `addAll` and the copy
      constructor `new LinkedHashSet<>(c)` do. */
  function AddAll<T(==)>(s: seq<T>, xs: seq<T>): (r: seq<T>)
    ensures Elements(r) == Elements(s) + Elements(xs)
    ensures NoDuplicates(s) ==> NoDuplicates(r)
    ensures |s| <= |r| && r[..|s|] == s
    decreases |xs|
  {
    if xs == [] then s else AddAll(Add(s, xs[0]), xs[1..])
  }

  /** `new LinkedHashSet<>(xs)`: a fresh linked set holding the elements of `xs`. */
  function FromSeq<T(==)>(xs: seq<T>): (r: seq<T>)
    ensures NoDuplicates(r)
    ensures Elements(r) == Elements(xs)
    ensures NoDuplicates(xs) ==> r == xs
  {
    CopyOfDistinct(xs);
    AddAll([], xs)
  }

  /** Adding an element that is already there changes nothing. */
  lemma AddIdempotent<T>(s: seq<T>, x: T)
    ensures Add(Add(s, x), x) == Add(s, x)
  {
  }

  /** Copying inserts the elements one after the other: copying `xs + [x]`
      is copying `xs` and then adding `x`. */
  lemma {:induction false} AddAllSnoc<T>(s: seq<T>, xs: seq<T>, x: T)
    ensures AddAll(s, xs + [x]) == Add(AddAll(s, xs), x)
    decreases |xs|
  {
    if xs == [] {
      assert xs + [x] == [x];
      assert [x][1..] == [];
    } else {
      assert (xs + [x])[0] == xs[0];
      assert (xs + [x])[1..] == xs[1..] + [x];
      AddAllSnoc(Add(s, xs[0]), xs[1..], x);
    }
  }

  /** Copying a collection that has no duplicates keeps it exactly, order included. */
  lemma {:induction false} AddAllDistinct<T>(s: seq<T>, xs: seq<T>)
    requires NoDuplicates(s + xs)
    ensures AddAll(s, xs) == s + xs
    decreases |xs|
  {
    if xs != [] {
      assert (s + xs)[|s|] == xs[0];
      assert xs[0] !in s by {
        forall i | 0 <= i < |s| ensures s[i] != xs[0] {
          assert (s + xs)[i] == s[i];
        }
      }
      assert s + [xs[0]] + xs[1..] == s + xs;
      AddAllDistinct(s + [xs[0]], xs[1..]);
    }
  }

  /** A fresh copy of a duplicate-free sequence is that sequence. */
  lemma CopyOfDistinct<T>(xs: seq<T>)
    ensures NoDuplicates(xs) ==> AddAll([], xs) == xs
  {
    if NoDuplicates(xs) {
      assert [] + xs == xs;
      AddAllDistinct([], xs);
    }
  }
}
