// Counting dictionaries: the `d.get(k)` / `d.add(k, c + x)` pattern that the
// report code uses to accumulate minutes, seconds and answer counts, and sums
// of such a dictionary over an enumeration of its keys.
module Sums {

  /** The entry of k, or 0 when the dictionary has no entry for it. */
  function Get0<K>(m: map<K, int>, k: K): int
  {
    if k in m then m[k] else 0
  }

  /** Adds x to the entry of k, starting from 0 when k is new. */
  function Bump<K>(m: map<K, int>, k: K, x: int): (r: map<K, int>)
    ensures r.Keys == m.Keys + {k}
    ensures Get0(r, k) == Get0(m, k) + x
  {
    m[k := Get0(m, k) + x]
  }

  /** The dictionary built by bumping each key of ps, in order, by its weight. */
  function Tally<K>(ps: seq<(K, int)>): map<K, int>
  {
    if ps == [] then map[]
    else
      var last := ps[|ps| - 1];
      Bump(Tally(ps[..|ps| - 1]), last.0, last.1)
  }

  /** The total weight that ps carries for key k. */
  function Weight<K(==)>(ps: seq<(K, int)>, k: K): int
  {
    if ps == [] then 0
    else
      var last := ps[|ps| - 1];
      Weight(ps[..|ps| - 1], k) + (if last.0 == k then last.1 else 0)
  }

  /** The total weight of ps. */
  function Total<K>(ps: seq<(K, int)>): int
  {
    if ps == [] then 0 else Total(ps[..|ps| - 1]) + ps[|ps| - 1].1
  }

  function KeysOf<K>(ps: seq<(K, int)>): set<K>
  {
    set i | 0 <= i < |ps| :: ps[i].0
  }

  predicate Distinct<T(==)>(s: seq<T>)
  {
    forall i, j :: 0 <= i < j < |s| ==> s[i] != s[j]
  }

  /** The entries of m summed over keys, in that order. */
  function SumOver<K>(m: map<K, int>, keys: seq<K>): int
  {
    if keys == [] then 0 else Get0(m, keys[0]) + SumOver(m, keys[1..])
  }

  /** Each entry of a tally is the total weight of its key. */
  lemma {:induction false} TallyIsWeight<K>(ps: seq<(K, int)>, k: K)
    ensures Get0(Tally(ps), k) == Weight(ps, k)
  {
    if ps != [] {
      TallyIsWeight(ps[..|ps| - 1], k);
    }
  }

  /** A tally has an entry exactly for the keys that occur in ps. */
  lemma {:induction false} TallyKeys<K>(ps: seq<(K, int)>)
    ensures Tally(ps).Keys == KeysOf(ps)
  {
    if ps != [] {
      var init := ps[..|ps| - 1];
      TallyKeys(init);
      assert KeysOf(ps) == KeysOf(init) + {ps[|ps| - 1].0} by {
        forall k | k in KeysOf(ps) ensures k in KeysOf(init) + {ps[|ps| - 1].0} {
          var i :| 0 <= i < |ps| && ps[i].0 == k;
          if i < |ps| - 1 {
            assert init[i] == ps[i];
          }
        }
        forall k | k in KeysOf(init) ensures k in KeysOf(ps) {
          var i :| 0 <= i < |init| && init[i].0 == k;
          assert ps[i] == init[i];
        }
      }
    }
  }

  /** With positive weights every entry of the tally is at least 1. */
  lemma {:induction false} TallyPositive<K>(ps: seq<(K, int)>)
    requires forall i :: 0 <= i < |ps| ==> ps[i].1 >= 1
    ensures forall k :: k in Tally(ps) ==> Tally(ps)[k] >= 1
  {
    if ps != [] {
      var init := ps[..|ps| - 1];
      assert forall i :: 0 <= i < |init| ==> init[i] == ps[i];
      TallyPositive(init);
    }
  }

  lemma {:induction false} SumOverAppend<K>(m: map<K, int>, a: seq<K>, b: seq<K>)
    ensures SumOver(m, a + b) == SumOver(m, a) + SumOver(m, b)
  {
    if a != [] {
      assert (a + b)[0] == a[0] && (a + b)[1..] == a[1..] + b;
      SumOverAppend(m, a[1..], b);
    } else {
      assert a + b == b;
    }
  }

  /** Bumping one key changes a sum over distinct keys by x exactly when the key is summed. */
  lemma {:induction false} SumOverBump<K>(m: map<K, int>, keys: seq<K>, k: K, x: int)
    requires Distinct(keys)
    ensures SumOver(Bump(m, k, x), keys) == SumOver(m, keys) + (if k in keys then x else 0)
  {
    if keys != [] {
      assert Distinct(keys[1..]) by {
        forall i, j | 0 <= i < j < |keys[1..]| ensures keys[1..][i] != keys[1..][j] {
          assert keys[1..][i] == keys[i + 1] && keys[1..][j] == keys[j + 1];
        }
      }
      SumOverBump(m, keys[1..], k, x);
      assert k in keys <==> k == keys[0] || k in keys[1..] by {
        assert keys == [keys[0]] + keys[1..];
      }
      if k == keys[0] {
        assert keys[0] !in keys[1..] by {
          forall i | 0 <= i < |keys[1..]| ensures keys[1..][i] != keys[0] {
            assert keys[1..][i] == keys[i + 1];
          }
        }
      }
    }
  }

  /**
   * Conservation: summing a tally over any duplicate-free enumeration of its
   * keys gives the total weight of everything that was added.
   */
  lemma {:induction false} TallySum<K>(ps: seq<(K, int)>, keys: seq<K>)
    requires Distinct(keys)
    requires forall k :: k in KeysOf(ps) ==> k in keys
    ensures SumOver(Tally(ps), keys) == Total(ps)
  {
    if ps == [] {
      SumOverZero(keys);
    } else {
      var init := ps[..|ps| - 1];
      var last := ps[|ps| - 1];
      assert forall k :: k in KeysOf(init) ==> k in KeysOf(ps) by {
        forall k | k in KeysOf(init) ensures k in KeysOf(ps) {
          var i :| 0 <= i < |init| && init[i].0 == k;
          assert ps[i] == init[i];
        }
      }
      TallySum(init, keys);
      assert last.0 in KeysOf(ps);
      SumOverBump(Tally(init), keys, last.0, last.1);
    }
  }

  lemma {:induction false} SumOverZero<K>(keys: seq<K>)
    ensures SumOver(map[], keys) == 0
  {
    if keys != [] {
      SumOverZero(keys[1..]);
    }
  }
}
