/**
  The shorthand ("recently") timeline: the fetched list with its loading
  flag, new entries put at the front, and deletion of a confirmed entry.

  Deletion as written looks the entry up with `indexOf` and splices at the
  result; an entry that is no longer listed gives -1, and `splice(-1, 1)`
  drops the last entry instead. The page keeps the corrected deletion,
  which leaves the list alone in that case.
 */
module Shorthand {
  import opened JsPrims

  datatype Recently = Recently(id: string, content: string, up: int, down: int, created: string)

  /** Deletion as written: `data.splice(data.indexOf(item), 1)`. */
  function RemoveItemAsWritten(data: seq<Recently>, item: Recently): seq<Recently> {
    SpliceOne(data, IndexOf(data, item))
  }

  /** As written, deleting an entry that is no longer listed removes the
      last entry. */
  lemma RemoveAbsentDropsLast(data: seq<Recently>, item: Recently)
    requires item !in data && |data| > 0
    ensures RemoveItemAsWritten(data, item) == data[..|data| - 1]
    ensures |RemoveItemAsWritten(data, item)| == |data| - 1
  {
  }

  /** The concrete case: after `a` has been deleted once, deleting it again
      from `[b, c]` removes `c`. */
  lemma DeleteTwiceDropsAnother(a: Recently, b: Recently, c: Recently)
    requires a != b && a != c && b != c
    ensures RemoveItemAsWritten([a, b, c], a) == [b, c]
    ensures RemoveItemAsWritten(RemoveItemAsWritten([a, b, c], a), a) == [b]
  {
    assert [a, b, c][1..] == [b, c];
  }

  /** Deletion as intended: remove the first occurrence of the entry, and
      leave the list alone when it is not listed. */
  function RemoveItem(data: seq<Recently>, item: Recently): (r: seq<Recently>)
  {
    var k := IndexOf(data, item);
    if k == -1 then data else data[..k] + data[k + 1..]
  }

  /** An entry that is not listed leaves the list alone; a listed one
      shortens it by exactly one. */
  lemma RemoveItemLength(data: seq<Recently>, item: Recently)
    ensures item !in data ==> RemoveItem(data, item) == data
    ensures item in data ==> |RemoveItem(data, item)| == |data| - 1
  {
  }

  /** Deletion removes exactly one copy of a listed entry and nothing else. */
  lemma RemoveItemCount(data: seq<Recently>, item: Recently)
    ensures multiset(RemoveItem(data, item)) == multiset(data) - multiset{item}
  {
    var k := IndexOf(data, item);
    if k != -1 {
      assert data == data[..k] + [item] + data[k + 1..];
    }
  }

  /** The two agree on every listed entry. */
  lemma RemoveItemAgreesWhenListed(data: seq<Recently>, item: Recently)
    requires item in data
    ensures RemoveItemAsWritten(data, item) == RemoveItem(data, item)
  {
  }

  /** Every other entry keeps its relative order: deletion distributes over
      a split of the list before the entry. */
  lemma {:induction false} RemoveItemKeepsOrder(a: seq<Recently>, b: seq<Recently>, item: Recently)
    requires item !in a && item in b
    ensures RemoveItem(a + b, item) == a + RemoveItem(b, item)
  {
    IndexOfAfter(a, b, item);
    RemoveBehindPrefix(a, b, item, IndexOf(b, item));
  }

  /** Deletion at position `|a| + k` of `a + b`, where `k` is the entry's
      position in `b`, is deletion from `b` behind `a`. */
  lemma RemoveBehindPrefix(a: seq<Recently>, b: seq<Recently>, item: Recently, k: nat)
    requires k < |b| && IndexOf(b, item) == k && IndexOf(a + b, item) == |a| + k
    ensures RemoveItem(a + b, item) == a + RemoveItem(b, item)
  {
    var ab := a + b;
    assert RemoveItem(ab, item) == ab[..|a| + k] + ab[|a| + k + 1..];
    assert RemoveItem(b, item) == b[..k] + b[k + 1..];
    CutAfterPrefix(a, b, ab, k);
  }

  /** Cutting position `|a| + k` out of `a + b` is cutting position `k` out
      of `b` behind `a`. */
  lemma CutAfterPrefix(a: seq<Recently>, b: seq<Recently>, ab: seq<Recently>, k: nat)
    requires ab == a + b && k < |b|
    ensures ab[..|a| + k] + ab[|a| + k + 1..] == a + (b[..k] + b[k + 1..])
  {
    assert ab[..|a| + k] == a + b[..k];
    assert ab[|a| + k + 1..] == b[k + 1..];
  }

  /** The page's state. */
  class Timeline {
    var data: seq<Recently>
    var loading: bool

    constructor()
      ensures data == [] && loading
    {
      data, loading := [], true;
    }

    /** The fetched list arrives: it replaces the data and loading ends. */
    method OnFetched(list: seq<Recently>)
      modifies this
      ensures data == list && !loading
    {
      data := list;
      loading := false;
    }

    /** The create dialog resolved with `res`: a created entry goes to the
        front; a falsy result changes nothing. */
    method OnCreated(res: Option<Recently>)
      modifies this
      ensures res.Some? ==> data == [res.value] + old(data) && |data| == |old(data)| + 1
      ensures res.None? ==> data == old(data)
      ensures loading == old(loading)
    {
      if res.Some? {
        data := [res.value] + data;
      }
    }

    /** A confirmed delete, after the server has removed the entry. */
    method OnDeleted(item: Recently)
      modifies this
      ensures data == RemoveItem(old(data), item)
      ensures loading == old(loading)
    {
      var index := IndexOf(data, item);
      if index != -1 {
        data := SpliceOne(data, index);
      }
    }
  }
}
