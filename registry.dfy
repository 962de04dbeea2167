/** The registries of the program (fuel prices, airports, aircraft,
    currencies, stored records) are Python dictionaries filled row by row
    with `d[key(x)] = x`. `KeyBy` is the dictionary such a loop leaves
    behind; its lemmas say which entry each key ends up holding. */
module Registry {

  /** The dictionary obtained by storing each item of `xs` under `key(item)`,
      in order, so that a later item replaces an earlier one with the same key. */
  function KeyBy<T>(xs: seq<T>, key: T -> string): map<string, T>
    decreases |xs|
  {
    if xs == [] then map[]
    else KeyBy(xs[..|xs| - 1], key)[key(xs[|xs| - 1]) := xs[|xs| - 1]]
  }

  /** Every stored entry sits under its own key, and it comes from `xs`. */
  lemma {:induction false} KeyByEntries<T>(xs: seq<T>, key: T -> string)
    ensures forall k :: k in KeyBy(xs, key) ==> key(KeyBy(xs, key)[k]) == k
    ensures forall k :: k in KeyBy(xs, key) ==> KeyBy(xs, key)[k] in xs
    decreases |xs|
  {
    if xs != [] {
      KeyByEntries(xs[..|xs| - 1], key);
      forall k | k in KeyBy(xs, key)
        ensures KeyBy(xs, key)[k] in xs
      {
        if k != key(xs[|xs| - 1]) {
          assert KeyBy(xs, key)[k] in xs[..|xs| - 1];
        }
      }
    }
  }

  /** The keys are exactly the keys of the items. */
  lemma {:induction false} KeyByKeys<T>(xs: seq<T>, key: T -> string, k: string)
    ensures k in KeyBy(xs, key) <==> exists i :: 0 <= i < |xs| && key(xs[i]) == k
    decreases |xs|
  {
    if xs != [] {
      var init := xs[..|xs| - 1];
      KeyByKeys(init, key, k);
      if exists i :: 0 <= i < |init| && key(init[i]) == k {
        var i :| 0 <= i < |init| && key(init[i]) == k;
        assert key(xs[i]) == k;
      }
      if exists i :: 0 <= i < |xs| && key(xs[i]) == k {
        var i :| 0 <= i < |xs| && key(xs[i]) == k;
        if i < |init| {
          assert key(init[i]) == k;
        }
      }
    }
  }

  /** The item stored under a key is the LAST item with that key. */
  lemma {:induction false} KeyByLastWins<T>(xs: seq<T>, key: T -> string, i: nat)
    requires i < |xs|
    requires forall j :: i < j < |xs| ==> key(xs[j]) != key(xs[i])
    ensures key(xs[i]) in KeyBy(xs, key)
    ensures KeyBy(xs, key)[key(xs[i])] == xs[i]
    decreases |xs|
  {
    if i < |xs| - 1 {
      var init := xs[..|xs| - 1];
      KeyByLastWins(init, key, i);
    }
  }

  /** Storing one more item: the registry's update step. */
  lemma KeyBySnoc<T>(xs: seq<T>, x: T, key: T -> string)
    ensures KeyBy(xs + [x], key) == KeyBy(xs, key)[key(x) := x]
  {
    assert (xs + [x])[..|xs|] == xs;
  }

  /** Storing item `i` after the items before it. */
  lemma KeyByPrefix<T>(xs: seq<T>, i: nat, key: T -> string)
    requires i < |xs|
    ensures KeyBy(xs[..i + 1], key) == KeyBy(xs[..i], key)[key(xs[i]) := xs[i]]
  {
    assert xs[..i + 1] == xs[..i] + [xs[i]];
    KeyBySnoc(xs[..i], xs[i], key);
  }
}
