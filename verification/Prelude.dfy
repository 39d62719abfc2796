/** Small value types and sequence facts shared by the other modules. */
module Prelude {

  datatype Option<+T> = None | Some(value: T)

  /** No element occurs at two positions. */
  predicate NoDup<T(==)>(s: seq<T>) {
    forall i, j | 0 <= i < j < |s| :: s[i] != s[j]
  }

  function Min(a: int, b: int): int {
    if a <= b then a else b
  }

  function Max(a: int, b: int): int {
    if a <= b then b else a
  }

  /** First occurrences, in order. */
  function Dedupe<T(==)>(found: seq<T>): seq<T> {
    if found == [] then []
    else
      var n := |found| - 1;
      Dedupe(found[..n]) + (if found[n] in found[..n] then [] else [found[n]])
  }

  /** The position of the first occurrence of `x`. */
  function FirstAt<T(==)>(found: seq<T>, x: T): (i: nat)
    requires x in found
    ensures i < |found| && found[i] == x && x !in found[..i]
  {
    if found[0] == x then 0
    else
      var i := 1 + FirstAt(found[1..], x);
      assert found[..i] == [found[0]] + found[1..][..i - 1];
      i
  }

  /** Exactly the elements of `found`, each once, in the order of first occurrence. */
  lemma {:induction false} DedupeKeepsFirst<T>(found: seq<T>)
    ensures NoDup(Dedupe(found))
    ensures (forall x | x in Dedupe(found) :: x in found) && (forall x | x in found :: x in Dedupe(found))
    ensures forall i, j | 0 <= i < j < |Dedupe(found)| ::
              Dedupe(found)[i] in found && Dedupe(found)[j] in found
              && FirstAt(found, Dedupe(found)[i]) < FirstAt(found, Dedupe(found)[j])
  {
    if found != [] {
      var n := |found| - 1;
      var before, kept := found[..n], Dedupe(found);
      DedupeKeepsFirst(before);
      forall x | x in before ensures x in found && FirstAt(found, x) == FirstAt(before, x) {
        FirstAtPrefix(found, n, x);
      }
      assert found == before + [found[n]];
      forall x | x in found ensures x in kept {
        assert x in before || x == found[n];
      }
      forall i, j | 0 <= i < j < |kept|
        ensures kept[i] in found && kept[j] in found && FirstAt(found, kept[i]) < FirstAt(found, kept[j])
      {
        assert kept[i] == Dedupe(before)[i] && Dedupe(before)[i] in Dedupe(before);
        if j < |Dedupe(before)| {
          assert kept[j] == Dedupe(before)[j] && Dedupe(before)[j] in Dedupe(before);
        } else {
          assert FirstAt(found, kept[j]) == n;
        }
      }
    }
  }

  lemma FirstAtPrefix<T>(found: seq<T>, n: nat, x: T)
    requires n <= |found| && x in found[..n]
    ensures x in found && FirstAt(found, x) == FirstAt(found[..n], x)
  {
    var i, j := FirstAt(found[..n], x), FirstAt(found, x);
    assert found[..n][..i] == found[..i];
  }

  function Elements<T(==)>(s: seq<T>): set<T> {
    set x | x in s
  }

  /** A sequence without repetition has as many elements as positions. */
  lemma {:induction false} NoDupSize<T>(s: seq<T>)
    requires NoDup(s)
    ensures |Elements(s)| == |s|
  {
    if s != [] {
      var n := |s| - 1;
      NoDupSize(s[..n]);
      assert Elements(s) == Elements(s[..n]) + {s[n]};
      assert s[n] !in s[..n];
    }
  }
}
