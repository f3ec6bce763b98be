/** Maps from the keys of list items to the items. */
module Indexing {
  import opened Common

  /** The item is the last one that has the key. */
  ghost predicate IsLast<T>(items: seq<T>, keys: T -> seq<string>, key: string, item: T) {
    exists i :: 0 <= i < |items| && items[i] == item && key in keys(item) && forall j :: i < j < |items| ==> key !in keys(items[j])
  }

  ghost predicate IsIndex<T>(index: map<string, T>, items: seq<T>, keys: T -> seq<string>) {
    && (forall key :: key in index ==> IsLast(items, keys, key, index[key]))
    && (forall i, key :: 0 <= i < |items| && key in keys(items[i]) ==> key in index)
  }

  lemma IndexOfOneMore<T>(index: map<string, T>, index': map<string, T>, items: seq<T>, item: T, keys: T -> seq<string>)
    requires IsIndex(index, items, keys)
    requires forall key :: Lookup(index', key) == if key in keys(item) then Some(item) else Lookup(index, key)
    ensures IsIndex(index', items + [item], keys)
  {
    var all := items + [item];
    forall key | key in index' ensures IsLast(all, keys, key, index'[key]) {
      assert Lookup(index', key) == Some(index'[key]);
      if key in keys(item) {
        assert all[|items|] == item;
      } else {
        assert Lookup(index, key) == Some(index[key]);
        var i :| 0 <= i < |items| && items[i] == index[key] && key in keys(index[key]) &&
                 forall j :: i < j < |items| ==> key !in keys(items[j]);
        assert all[i] == index'[key];
      }
    }
    forall i, key | 0 <= i < |all| && key in keys(all[i]) ensures key in index' {
      assert Lookup(index', key).Some?;
    }
  }

  /** Later items replace earlier ones under the keys that they share. */
  method IndexByKeys<T>(items: seq<T>, keys: T -> seq<string>) returns (index: map<string, T>)
    ensures IsIndex(index, items, keys)
  {
    index := map[];
    for i := 0 to |items|
      invariant IsIndex(index, items[..i], keys)
    {
      var item, own := items[i], keys(items[i]);
      ghost var before := index;
      for j := 0 to |own|
        invariant forall key :: Lookup(index, key) == if key in own[..j] then Some(item) else Lookup(before, key)
      {
        assert own[..j + 1] == own[..j] + [own[j]];
        index := index[own[j] := item];
      }
      assert own[..|own|] == own;
      IndexOfOneMore(before, index, items[..i], item, keys);
      assert items[..i + 1] == items[..i] + [item];
    }
    assert items[..|items|] == items;
  }

  /** Without shared keys, each item is found under all of its keys. */
  lemma FoundUnderItsKeys<T>(index: map<string, T>, items: seq<T>, keys: T -> seq<string>, item: T, key: string)
    requires IsIndex(index, items, keys) && item in items && key in keys(item)
    requires forall other :: other in items && key in keys(other) ==> other == item
    ensures Lookup(index, key) == Some(item)
  {
    assert IsLast(items, keys, key, index[key]);
  }
}
