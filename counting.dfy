/**
 * Rank counting: the `numbers_dict` built by `count_same_numbers` (rank to
 * multiplicity) and `reverse_dict` (multiplicity to how many ranks have it),
 * main.py lines 33-40 and 67-72.
 */
module Counting {

  /** One more occurrence of `k`: the `else` and the `if` branch of `reverse_dict`'s loop body. */
  function Bump<K>(m: map<K, nat>, k: K): (r: map<K, nat>)
    ensures r.Keys == m.Keys + {k}
  {
    if k in m then m[k := m[k] + 1] else m[k := 1]
  }

  // ---------------------------------------------------------------------------
  // Sum of the values of a map
  // ---------------------------------------------------------------------------

  lemma NonEmptyHasElement(s: set<int>)
    requires s != {}
    ensures exists x :: x in s
  {
    if forall x :: x !in s {
      assert false;
    }
  }

  ghost function PickKey<K>(m: map<K, nat>): (k: K)
    requires m != map[]
    ensures k in m
  {
    var k :| k in m; k
  }

  /** The sum of all values of `m` (Python's `sum(m.values())`). */
  ghost function SumValues<K>(m: map<K, nat>): nat
    decreases |m|
  {
    if m == map[] then 0
    else
      var k := PickKey(m);
      assert (m - {k}).Keys == m.Keys - {k};
      m[k] + SumValues(m - {k})
  }

  /** The sum does not depend on which key is taken out first. */
  lemma {:induction false} SumValuesRemove<K>(m: map<K, nat>, k: K)
    requires k in m
    ensures SumValues(m) == m[k] + SumValues(m - {k})
    decreases |m|
  {
    var j := PickKey(m);
    if j != k {
      assert (m - {j}).Keys == m.Keys - {j};
      assert (m - {k}).Keys == m.Keys - {k};
      SumValuesRemove(m - {j}, k);
      SumValuesRemove(m - {k}, j);
      assert m - {j} - {k} == m - {k} - {j};
    }
  }

  lemma SumValuesBump<K>(m: map<K, nat>, k: K)
    ensures SumValues(Bump(m, k)) == SumValues(m) + 1
  {
    var b := Bump(m, k);
    SumValuesRemove(b, k);
    assert b - {k} == m - {k};
    if k in m {
      SumValuesRemove(m, k);
    } else {
      assert m - {k} == m;
    }
  }

  // ---------------------------------------------------------------------------
  // count_same_numbers(reverse=False)
  // ---------------------------------------------------------------------------

  /** `{number: numbers.count(number) for number in numbers}` */
  function CountMap(xs: seq<int>): (counts: map<int, nat>)
  {
    map n | n in xs :: multiset(xs)[n]
  }

  /** Appending a number bumps exactly its own count. */
  lemma CountMapAppend(xs: seq<int>, x: int)
    ensures CountMap(xs + [x]) == Bump(CountMap(xs), x)
  {
    var a, b := CountMap(xs + [x]), Bump(CountMap(xs), x);
    assert multiset(xs + [x]) == multiset(xs) + multiset{x};
    assert forall n :: n in xs + [x] <==> n in xs || n == x;
    assert a.Keys == b.Keys;
    forall n | n in a
      ensures a[n] == b[n]
    {
      if n != x {
        assert n in xs;
      }
    }
  }

  /** The counts of `count_same_numbers(cards, reverse=False)` add up to the number of cards. */
  lemma {:induction false} CountsSumToLength(xs: seq<int>)
    ensures SumValues(CountMap(xs)) == |xs|
  {
    if xs == [] {
      assert CountMap(xs) == map[];
    } else {
      var init, last := xs[..|xs| - 1], xs[|xs| - 1];
      assert xs == init + [last];
      CountsSumToLength(init);
      CountMapAppend(init, last);
      SumValuesBump(CountMap(init), last);
    }
  }

  /** The same list of numbers in any order gives the same counts. */
  lemma CountMapPermutation(xs: seq<int>, ys: seq<int>)
    requires multiset(xs) == multiset(ys)
    ensures CountMap(xs) == CountMap(ys)
  {
    assert forall n :: n in xs <==> n in multiset(ys);
  }

  // ---------------------------------------------------------------------------
  // reverse_dict
  // ---------------------------------------------------------------------------

  /** The values `d` takes on the keys `ks`. */
  function Image(d: map<int, nat>, ks: set<int>): set<nat>
    requires ks <= d.Keys
  {
    set k | k in ks :: d[k]
  }

  /** The keys among `ks` whose value in `d` is `v`. */
  function KeysWith(d: map<int, nat>, ks: set<int>, v: nat): set<int>
    requires ks <= d.Keys
  {
    set k | k in ks && d[k] == v
  }

  /** `reverse_dict` after the loop has visited the keys `ks` of `d`. */
  function ReverseOver(d: map<int, nat>, ks: set<int>): map<nat, nat>
    requires ks <= d.Keys
  {
    map v | v in Image(d, ks) :: |KeysWith(d, ks, v)|
  }

  /** `reverse_dict(d)`: each multiplicity to the number of keys that have it. */
  function Reversed(d: map<int, nat>): map<nat, nat>
  {
    ReverseOver(d, d.Keys)
  }

  lemma ImageAdd(d: map<int, nat>, ks: set<int>, k: int)
    requires ks <= d.Keys && k in d
    ensures Image(d, ks + {k}) == Image(d, ks) + {d[k]}
  {
  }

  lemma KeysWithAdd(d: map<int, nat>, ks: set<int>, k: int, v: nat)
    requires ks <= d.Keys && k in d
    ensures KeysWith(d, ks + {k}, v) == if d[k] == v then KeysWith(d, ks, v) + {k} else KeysWith(d, ks, v)
  {
  }

  lemma KeysWithOutsideImage(d: map<int, nat>, ks: set<int>, v: nat)
    requires ks <= d.Keys && v !in Image(d, ks)
    ensures KeysWith(d, ks, v) == {}
  {
    forall j | j in ks
      ensures d[j] != v
    {
      assert d[j] in Image(d, ks);
    }
  }

  /** Visiting one more key bumps the entry of that key's value and nothing else. */
  lemma ReverseOverStep(d: map<int, nat>, ks: set<int>, k: int)
    requires ks <= d.Keys && k in d && k !in ks
    ensures ReverseOver(d, ks + {k}) == Bump(ReverseOver(d, ks), d[k])
  {
    var before, after := ReverseOver(d, ks), ReverseOver(d, ks + {k});
    var bumped := Bump(before, d[k]);
    ImageAdd(d, ks, k);
    assert after.Keys == bumped.Keys;
    forall v | v in after
      ensures after[v] == bumped[v]
    {
      KeysWithAdd(d, ks, k, v);
      if v == d[k] && v !in before {
        KeysWithOutsideImage(d, ks, v);
      }
    }
  }

  /** The entries of the reversed map add up to the number of keys visited. */
  lemma {:induction false} ReverseOverSum(d: map<int, nat>, ks: set<int>)
    requires ks <= d.Keys
    ensures SumValues(ReverseOver(d, ks)) == |ks|
    decreases ks
  {
    if ks == {} {
      assert ReverseOver(d, ks) == map[];
    } else {
      NonEmptyHasElement(ks);
      var k :| k in ks;
      var others := ks - {k};
      ReverseOverSum(d, others);
      assert others + {k} == ks;
      ReverseOverStep(d, others, k);
      SumValuesBump(ReverseOver(d, others), d[k]);
    }
  }

  /** The values of `reverse_dict(d)` add up to the number of keys of `d`. */
  lemma ReversedSumsToKeys(d: map<int, nat>)
    ensures SumValues(Reversed(d)) == |d.Keys|
  {
    ReverseOverSum(d, d.Keys);
  }

  /** A multiplicity is a key of `reverse_dict(d)` exactly when some key of `d` has it. */
  lemma ReversedHas(d: map<int, nat>, v: nat)
    ensures v in Reversed(d) <==> exists k :: k in d && d[k] == v
  {
  }

  predicate NoRepeats(keys: seq<int>)
  {
    forall i, j :: 0 <= i < j < |keys| ==> keys[i] != keys[j]
  }

  /**
   * The keys of `{number: ... for number in numbers}` in the order a Python
   * dictionary keeps them: each number where it first occurs.
   */
  function DictKeys(xs: seq<int>): (keys: seq<int>)
    ensures forall n :: n in keys <==> n in xs
  {
    if xs == [] then []
    else
      var init, last := xs[..|xs| - 1], xs[|xs| - 1];
      assert xs == init + [last];
      var keys := DictKeys(init);
      if last in keys then keys else keys + [last]
  }

  /** No number is a key twice. */
  lemma {:induction false} DictKeysNoRepeats(xs: seq<int>)
    ensures NoRepeats(DictKeys(xs))
  {
    if xs != [] {
      DictKeysNoRepeats(xs[..|xs| - 1]);
    }
  }

  /**
   * `reverse_dict` as Python runs it: over the items in key order, start a
   * value's entry at 1 or add 1 to it.
   */
  function ReverseFold(d: map<int, nat>, keys: seq<int>): map<nat, nat>
    requires forall k :: k in keys ==> k in d
  {
    if keys == [] then map[]
    else
      var init, last := keys[..|keys| - 1], keys[|keys| - 1];
      assert forall k :: k in init ==> k in keys;
      Bump(ReverseFold(d, init), d[last])
  }

  /** Dropping the last of distinct keys leaves distinct keys, none of them the last. */
  lemma NoRepeatsInit(keys: seq<int>)
    requires keys != [] && NoRepeats(keys)
    ensures NoRepeats(keys[..|keys| - 1]) && keys[|keys| - 1] !in keys[..|keys| - 1]
  {
  }

  /** The keys a loop over `keys` has visited. */
  function KeySet(keys: seq<int>): set<int>
  {
    set k | k in keys
  }

  lemma KeySetInit(keys: seq<int>)
    requires keys != []
    ensures KeySet(keys) == KeySet(keys[..|keys| - 1]) + {keys[|keys| - 1]}
  {
    assert keys == keys[..|keys| - 1] + [keys[|keys| - 1]];
  }

  /** Folding over distinct keys gives the reversed map restricted to those keys. */
  lemma {:induction false} ReverseFoldOver(d: map<int, nat>, keys: seq<int>)
    requires forall k :: k in keys ==> k in d
    requires NoRepeats(keys)
    ensures ReverseFold(d, keys) == ReverseOver(d, KeySet(keys))
  {
    if keys != [] {
      var init, last := keys[..|keys| - 1], keys[|keys| - 1];
      NoRepeatsInit(keys);
      KeySetInit(keys);
      hide ReverseOver, Bump, NoRepeats, KeySet;
      assert forall k :: k in init ==> k in keys;
      ReverseFoldOver(d, init);
      ReverseOverStep(d, KeySet(init), last);
    }
  }

  /** Whatever order the loop visits the keys in, the result is `Reversed(d)`. */
  lemma ReverseFoldIsReversed(d: map<int, nat>, keys: seq<int>)
    requires forall k :: k in keys <==> k in d
    requires NoRepeats(keys)
    ensures ReverseFold(d, keys) == Reversed(d)
  {
    ReverseFoldOver(d, keys);
    var visited := KeySet(keys);
    forall k | k in d
      ensures k in visited
    {
    }
    assert visited == d.Keys;
  }

  /** The loop of `reverse_dict`, visiting the keys in any order. */
  method ReverseDict(d: map<int, nat>) returns (reverse: map<nat, nat>)
    ensures reverse == Reversed(d)
  {
    reverse := map[];
    var todo := d.Keys;
    assert ReverseOver(d, d.Keys - todo) == map[];
    while todo != {}
      invariant todo <= d.Keys
      invariant reverse == ReverseOver(d, d.Keys - todo)
      decreases todo
    {
      NonEmptyHasElement(todo);
      var k :| k in todo;
      var v := d[k];
      ReverseOverStep(d, d.Keys - todo, k);
      if v !in reverse {
        reverse := reverse[v := 1];
      } else {
        reverse := reverse[v := reverse[v] + 1];
      }
      assert d.Keys - todo + {k} == d.Keys - (todo - {k});
      todo := todo - {k};
    }
    assert d.Keys - todo == d.Keys;
  }
}
