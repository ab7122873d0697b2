/**
 * The list operations the service performs on its four collections, stated
 * once for any element type: `key` projects an element onto its id.
 * `FirstOrDefault(e => key(e) == id)` becomes `Lookup`, `List.Remove` of the
 * element found becomes `RemoveAt` at its index, and `IdsOrdered` is the
 * invariant that ids are positive, strictly increasing in list order and
 * below the next id to be issued.
 */
module Lists {
  import opened Options

  /** Index of the first element whose key is `id`, if there is one. */
  function FindFirst<T>(s: seq<T>, key: T -> int, id: int): (r: Option<nat>)
    ensures r.Some? ==> r.value < |s| && key(s[r.value]) == id
    ensures r.Some? ==> forall j :: 0 <= j < r.value ==> key(s[j]) != id
    ensures r.None? ==> forall j :: 0 <= j < |s| ==> key(s[j]) != id
  {
    if |s| == 0 then None
    else if key(s[0]) == id then Some(0)
    else match FindFirst(s[1..], key, id)
      case None => None
      case Some(i) => Some(i + 1)
  }

  /** The first element whose key is `id`, or None. */
  function Lookup<T>(s: seq<T>, key: T -> int, id: int): (r: Option<T>)
    ensures r.Some? ==> r.value in s && key(r.value) == id
    ensures r.Some? ==> exists i :: 0 <= i < |s| && s[i] == r.value && forall j :: 0 <= j < i ==> key(s[j]) != id
    ensures r.None? <==> forall j :: 0 <= j < |s| ==> key(s[j]) != id
  {
    match FindFirst(s, key, id)
    case None => None
    case Some(i) => Some(s[i])
  }

  /** `s` without its element at index `i`, the others kept in order. */
  function RemoveAt<T>(s: seq<T>, i: nat): (r: seq<T>)
    requires i < |s|
    ensures |r| == |s| - 1
    ensures forall k :: 0 <= k < i ==> r[k] == s[k]
    ensures forall k :: i <= k < |r| ==> r[k] == s[k + 1]
  {
    s[..i] + s[i + 1..]
  }

  ghost predicate IdsOrdered<T>(s: seq<T>, key: T -> int, next: int) {
    (forall i :: 0 <= i < |s| ==> 1 <= key(s[i]) < next) &&
    (forall i, j :: 0 <= i < j < |s| ==> key(s[i]) < key(s[j]))
  }

  /** The first-match index is determined by the two properties that define it. */
  lemma FirstIndex<T>(s: seq<T>, key: T -> int, id: int, m: nat)
    requires m < |s| && key(s[m]) == id
    requires forall j :: 0 <= j < m ==> key(s[j]) != id
    ensures FindFirst(s, key, id) == Some(m)
  {
  }

  /** In an ordered list the id at index `i` is at least `i + 1`. */
  lemma {:induction false} IdAtLeastIndex<T>(s: seq<T>, key: T -> int, next: int, i: nat)
    requires IdsOrdered(s, key, next) && i < |s|
    ensures key(s[i]) >= i + 1
  {
    if i > 0 {
      IdAtLeastIndex(s, key, next, i - 1);
    }
  }

  /** An ordered list never holds more elements than ids issued before `next`. */
  lemma OrderedLength<T>(s: seq<T>, key: T -> int, next: int)
    ensures IdsOrdered(s, key, next) && next >= 1 ==> |s| < next
  {
    if IdsOrdered(s, key, next) && s != [] {
      IdAtLeastIndex(s, key, next, |s| - 1);
    }
  }

  /** In an ordered list every element is found by its own id. */
  lemma LookupOrdered<T>(s: seq<T>, key: T -> int, next: int, i: nat)
    requires IdsOrdered(s, key, next) && i < |s|
    ensures FindFirst(s, key, key(s[i])) == Some(i)
    ensures Lookup(s, key, key(s[i])) == Some(s[i])
  {
    FirstIndex(s, key, key(s[i]), i);
  }

  /** The same, for every element at once. */
  lemma LookupOrderedAll<T>(s: seq<T>, key: T -> int, next: int)
    ensures IdsOrdered(s, key, next) ==>
      forall i :: 0 <= i < |s| ==> Lookup(s, key, key(s[i])) == Some(s[i])
  {
    if IdsOrdered(s, key, next) {
      forall i | 0 <= i < |s| ensures Lookup(s, key, key(s[i])) == Some(s[i]) {
        LookupOrdered(s, key, next, i);
      }
    }
  }

  /** An id not yet issued finds nothing. */
  lemma LookupFresh<T>(s: seq<T>, key: T -> int, next: int)
    requires IdsOrdered(s, key, next)
    ensures Lookup(s, key, next).None?
  {
  }

  /** Appending never hides an earlier match; the new element is found only when nothing before it matches. */
  lemma {:induction false} LookupAppend<T>(s: seq<T>, key: T -> int, x: T, id: int)
    ensures Lookup(s + [x], key, id) ==
      if Lookup(s, key, id).Some? then Lookup(s, key, id)
      else if key(x) == id then Some(x)
      else None
  {
    var t := s + [x];
    match FindFirst(s, key, id)
    case Some(m) =>
      assert forall j :: 0 <= j < m ==> t[j] == s[j];
      FirstIndex(t, key, id, m);
    case None =>
      if key(x) == id {
        assert forall j :: 0 <= j < |s| ==> t[j] == s[j];
        FirstIndex(t, key, id, |s|);
      } else {
        assert forall j :: 0 <= j < |t| ==> key(t[j]) != id by {
          forall j | 0 <= j < |t| ensures key(t[j]) != id {
            if j < |s| { assert t[j] == s[j]; }
          }
        }
      }
  }

  /** Removing an element with another id leaves every lookup of `id` unchanged. */
  lemma {:induction false} LookupRemove<T>(s: seq<T>, key: T -> int, i: nat, id: int)
    requires i < |s| && key(s[i]) != id
    ensures Lookup(RemoveAt(s, i), key, id) == Lookup(s, key, id)
  {
    var r := RemoveAt(s, i);
    match FindFirst(s, key, id)
    case None =>
      assert forall k :: 0 <= k < |r| ==> key(r[k]) != id by {
        forall k | 0 <= k < |r| ensures key(r[k]) != id {
          if k < i { assert r[k] == s[k]; } else { assert r[k] == s[k + 1]; }
        }
      }
    case Some(m) =>
      if m < i {
        FirstIndex(r, key, id, m);
      } else {
        assert m > i;
        forall k | 0 <= k < m - 1 ensures key(r[k]) != id {
          if k < i { assert r[k] == s[k]; } else { assert r[k] == s[k + 1]; }
        }
        assert r[m - 1] == s[m];
        FirstIndex(r, key, id, m - 1);
      }
  }

  /** Removing the element with id `key(s[i])` from an ordered list leaves no element with that id. */
  lemma LookupRemoveOrdered<T>(s: seq<T>, key: T -> int, next: int, i: nat)
    requires IdsOrdered(s, key, next) && i < |s|
    ensures Lookup(RemoveAt(s, i), key, key(s[i])).None?
  {
    var r := RemoveAt(s, i);
    forall k | 0 <= k < |r| ensures key(r[k]) != key(s[i]) {
      if k < i { assert r[k] == s[k]; } else { assert r[k] == s[k + 1]; }
    }
  }

  /**
   * Replacing the first element with a given id by another element with the
   * same id: that id now finds the replacement, every other id finds what it
   * found before.
   */
  lemma {:induction false} LookupReplace<T>(s: seq<T>, key: T -> int, i: nat, x: T, id: int)
    requires i < |s| && key(x) == key(s[i])
    requires FindFirst(s, key, key(s[i])) == Some(i)
    ensures Lookup(s[i := x], key, id) == if id == key(s[i]) then Some(x) else Lookup(s, key, id)
  {
    var r := s[i := x];
    if id == key(s[i]) {
      FirstIndex(r, key, id, i);
    } else {
      match FindFirst(s, key, id)
      case None =>
        assert forall k :: 0 <= k < |r| ==> key(r[k]) != id;
      case Some(m) =>
        assert m != i;
        FirstIndex(r, key, id, m);
    }
  }

  lemma OrderedAppend<T>(s: seq<T>, key: T -> int, next: int, x: T)
    requires IdsOrdered(s, key, next) && key(x) == next && next >= 1
    ensures IdsOrdered(s + [x], key, next + 1)
  {
    var t := s + [x];
    assert forall i :: 0 <= i < |s| ==> t[i] == s[i];
  }

  /** Appending an element under the next id keeps the order and makes it findable by that id. */
  lemma AppendFresh<T>(s: seq<T>, key: T -> int, next: int, x: T)
    requires IdsOrdered(s, key, next) && key(x) == next && next >= 1
    ensures IdsOrdered(s + [x], key, next + 1)
    ensures Lookup(s + [x], key, next) == Some(x)
  {
    OrderedAppend(s, key, next, x);
    LookupFresh(s, key, next);
    LookupAppend(s, key, x, next);
  }

  lemma OrderedTail<T>(s: seq<T>, key: T -> int, next: int)
    requires IdsOrdered(s, key, next) && s != []
    ensures IdsOrdered(s[1..], key, next)
  {
    forall a, b | 0 <= a < b < |s| - 1 ensures key(s[1..][a]) < key(s[1..][b]) {
      assert s[1..][a] == s[a + 1] && s[1..][b] == s[b + 1];
    }
  }

  lemma OrderedCons<T>(x: T, s: seq<T>, key: T -> int, next: int)
    requires IdsOrdered(s, key, next) && 1 <= key(x) < next
    requires forall k :: 0 <= k < |s| ==> key(x) < key(s[k])
    ensures IdsOrdered([x] + s, key, next)
  {
    var r := [x] + s;
    forall a | 0 <= a < |r| ensures 1 <= key(r[a]) < next {
      if a > 0 { assert r[a] == s[a - 1]; }
    }
    forall a, b | 0 <= a < b < |r| ensures key(r[a]) < key(r[b]) {
      assert r[b] == s[b - 1];
      if a > 0 { assert r[a] == s[a - 1]; }
    }
  }

  lemma OrderedRemove<T>(s: seq<T>, key: T -> int, next: int, i: nat)
    requires IdsOrdered(s, key, next) && i < |s|
    ensures IdsOrdered(RemoveAt(s, i), key, next)
  {
    var r := RemoveAt(s, i);
    forall a | 0 <= a < |r| ensures 1 <= key(r[a]) < next {
      if a < i { assert r[a] == s[a]; } else { assert r[a] == s[a + 1]; }
    }
    forall a, b | 0 <= a < b < |r| ensures key(r[a]) < key(r[b]) {
      var a' := if a < i then a else a + 1;
      var b' := if b < i then b else b + 1;
      assert r[a] == s[a'] && r[b] == s[b'] && a' < b';
    }
  }

  lemma OrderedReplace<T>(s: seq<T>, key: T -> int, next: int, i: nat, x: T)
    requires IdsOrdered(s, key, next) && i < |s| && key(x) == key(s[i])
    ensures IdsOrdered(s[i := x], key, next)
  {
  }
}
