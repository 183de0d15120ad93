/** Building a map by inserting key/value pairs one after another, the way
    `HashMap::insert` in a loop does: a later duplicate key overwrites. */
module MapBuild {

  /** Index `i` is the last of the first `n` positions holding its key, so
      its value is the one that survives. */
  predicate LastOf<K(==)>(keys: seq<K>, n: nat, i: nat)
    requires n <= |keys|
  {
    i < n && forall j :: i < j < n ==> keys[j] != keys[i]
  }

  /** The keys among the first `n` positions. */
  function KeysUpTo<K>(keys: seq<K>, n: nat): set<K>
    requires n <= |keys|
  {
    set i | 0 <= i < n :: keys[i]
  }

  lemma KeysUpToStep<K>(keys: seq<K>, n: nat)
    requires 0 < n <= |keys|
    ensures KeysUpTo(keys, n) == KeysUpTo(keys, n - 1) + {keys[n - 1]}
  {
    var a, b := KeysUpTo(keys, n), KeysUpTo(keys, n - 1) + {keys[n - 1]};
    forall k | k in a ensures k in b {
      var i :| 0 <= i < n && keys[i] == k;
      if i < n - 1 {
        assert keys[i] in KeysUpTo(keys, n - 1);
      }
    }
    forall k | k in b ensures k in a {
      if k != keys[n - 1] {
        var i :| 0 <= i < n - 1 && keys[i] == k;
        assert keys[i] in a;
      } else {
        assert keys[n - 1] in a;
      }
    }
  }

  /** A position that is last among the first `n` and is not the `n`-th is
      last among the first `n - 1`, with a key other than the `n`-th. */
  lemma LastOfStep<K>(keys: seq<K>, n: nat, i: nat)
    requires 0 < n <= |keys| && i < n - 1 && LastOf(keys, n, i)
    ensures LastOf(keys, n - 1, i) && keys[i] != keys[n - 1]
  {
  }

  /** Insert `(keys[i], vals[i])` for `i` from `0` up to `n - 1`. */
  function Insertions<K(==), V>(keys: seq<K>, vals: seq<V>, n: nat): (m: map<K, V>)
    requires n <= |keys| && n <= |vals|
    ensures m.Keys == KeysUpTo(keys, n)
    ensures forall i :: 0 <= i < n && LastOf(keys, n, i) ==> m[keys[i]] == vals[i]
  {
    if n == 0 then map[]
    else
      var m := Insertions(keys, vals, n - 1);
      KeysUpToStep(keys, n);
      forall i | 0 <= i < n - 1 && LastOf(keys, n, i)
        ensures LastOf(keys, n - 1, i) && keys[i] != keys[n - 1]
      {
        LastOfStep(keys, n, i);
      }
      m[keys[n - 1] := vals[n - 1]]
  }

  predicate Distinct<K(==)>(keys: seq<K>) {
    forall i, j :: 0 <= i < j < |keys| ==> keys[i] != keys[j]
  }

  /** With distinct keys nothing is overwritten: every pair survives. */
  lemma DistinctAllSurvive<K, V>(keys: seq<K>, vals: seq<V>)
    requires |keys| == |vals| && Distinct(keys)
    ensures forall i :: 0 <= i < |keys| ==> Insertions(keys, vals, |keys|)[keys[i]] == vals[i]
  {
    forall i | 0 <= i < |keys|
      ensures LastOf(keys, |keys|, i)
    {
    }
  }
}
