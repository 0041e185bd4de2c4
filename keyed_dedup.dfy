/**
 * First-wins de-duplication by key, as done by filling a `Map` keyed by an
 * identifier only when the key is not there yet and then reading
 * `map.values()` in insertion order. Elements failing `keep` are skipped.
 */
module KeyedDedup {

  /** The keys of the elements of `s`. */
  function Keys<T, K>(s: seq<T>, key: T -> K): set<K> {
    set i | 0 <= i < |s| :: key(s[i])
  }

  /** Keys pairwise distinct. */
  predicate DistinctKeys<T, K(==)>(s: seq<T>, key: T -> K) {
    forall i, j :: 0 <= i < j < |s| ==> key(s[i]) != key(s[j])
  }

  /** `r` lists some of the elements of `s`, in the order of `s`. */
  predicate IsSubseq<T(==)>(r: seq<T>, s: seq<T>)
    decreases |s|
  {
    if r == [] then true
    else if s == [] then false
    else (r[0] == s[0] && IsSubseq(r[1..], s[1..])) || IsSubseq(r, s[1..])
  }

  /** The map's values after visiting `s` with the keys `seen` already present. */
  function DedupFrom<T, K(==)>(s: seq<T>, key: T -> K, keep: T -> bool, seen: set<K>): seq<T> {
    if s == [] then []
    else if keep(s[0]) && key(s[0]) !in seen then
      [s[0]] + DedupFrom(s[1..], key, keep, seen + {key(s[0])})
    else DedupFrom(s[1..], key, keep, seen)
  }

  function Dedup<T, K(==)>(s: seq<T>, key: T -> K, keep: T -> bool): seq<T> {
    DedupFrom(s, key, keep, {})
  }

  /** One visit of the loop: the element at `i` is stored iff it passes `keep` and its key is new. */
  lemma DedupStep<T, K>(s: seq<T>, i: nat, key: T -> K, keep: T -> bool, seen: set<K>)
    requires i < |s|
    ensures DedupFrom(s[i..], key, keep, seen)
         == if keep(s[i]) && key(s[i]) !in seen
            then [s[i]] + DedupFrom(s[i + 1..], key, keep, seen + {key(s[i])})
            else DedupFrom(s[i + 1..], key, keep, seen)
  {
    assert s[i..][1..] == s[i + 1..];
  }

  /**
   * One visit of a loop that has stored `values` so far: the element at `i`
   * is appended iff it passes `keep` and its key is new.
   */
  lemma DedupLoopStep<T, K>(values: seq<T>, s: seq<T>, i: nat, key: T -> K, keep: T -> bool, seen: set<K>)
    requires i < |s|
    ensures keep(s[i]) && key(s[i]) !in seen ==>
              values + DedupFrom(s[i..], key, keep, seen)
              == (values + [s[i]]) + DedupFrom(s[i + 1..], key, keep, seen + {key(s[i])})
    ensures !(keep(s[i]) && key(s[i]) !in seen) ==>
              values + DedupFrom(s[i..], key, keep, seen) == values + DedupFrom(s[i + 1..], key, keep, seen)
  {
    DedupStep(s, i, key, keep, seen);
    var rest := DedupFrom(s[i + 1..], key, keep, seen + {key(s[i])});
    assert values + ([s[i]] + rest) == (values + [s[i]]) + rest;
  }

  /** Every stored element passes `keep`, has a key not seen before, and the keys are distinct. */
  lemma {:induction false} DedupDistinct<T, K>(s: seq<T>, key: T -> K, keep: T -> bool, seen: set<K>)
    ensures var r := DedupFrom(s, key, keep, seen);
            DistinctKeys(r, key)
            && (forall i :: 0 <= i < |r| ==> keep(r[i]) && key(r[i]) !in seen)
  {
    if s != [] {
      var s' := s[1..];
      if keep(s[0]) && key(s[0]) !in seen {
        var seen' := seen + {key(s[0])};
        DedupDistinct(s', key, keep, seen');
        var t := DedupFrom(s', key, keep, seen');
        var r := [s[0]] + t;
        forall i, j | 0 <= i < j < |r| ensures key(r[i]) != key(r[j]) {
          assert r[j] == t[j - 1];
          if i > 0 { assert r[i] == t[i - 1]; }
        }
        forall i | 0 <= i < |r| ensures keep(r[i]) && key(r[i]) !in seen {
          if i > 0 { assert r[i] == t[i - 1]; }
        }
      } else {
        DedupDistinct(s', key, keep, seen);
      }
    }
  }

  /** The stored keys are exactly the keys of the kept elements that were not seen before. */
  lemma {:induction false} DedupKeys<T, K>(s: seq<T>, key: T -> K, keep: T -> bool, seen: set<K>)
    ensures Keys(DedupFrom(s, key, keep, seen), key)
         == (set i | 0 <= i < |s| && keep(s[i]) :: key(s[i])) - seen
  {
    if s != [] {
      var s' := s[1..];
      var seen' := if keep(s[0]) && key(s[0]) !in seen then seen + {key(s[0])} else seen;
      DedupKeys(s', key, keep, seen');
      var t := DedupFrom(s', key, keep, seen');
      var r := DedupFrom(s, key, keep, seen);
      var all := set i | 0 <= i < |s| && keep(s[i]) :: key(s[i]);
      var rest := set i | 0 <= i < |s'| && keep(s'[i]) :: key(s'[i]);
      assert all == rest + (if keep(s[0]) then {key(s[0])} else {}) by {
        forall k | k in all ensures k in rest + (if keep(s[0]) then {key(s[0])} else {}) {
          var i :| 0 <= i < |s| && keep(s[i]) && key(s[i]) == k;
          if i > 0 { assert s'[i - 1] == s[i]; }
        }
        forall k | k in rest ensures k in all {
          var i :| 0 <= i < |s'| && keep(s'[i]) && key(s'[i]) == k;
          assert s[i + 1] == s'[i];
        }
      }
      if keep(s[0]) && key(s[0]) !in seen {
        assert r == [s[0]] + t;
        assert Keys(r, key) == {key(s[0])} + Keys(t, key) by {
          forall k | k in Keys(r, key) ensures k in {key(s[0])} + Keys(t, key) {
            var i :| 0 <= i < |r| && key(r[i]) == k;
            if i > 0 { assert r[i] == t[i - 1]; }
          }
          forall k | k in Keys(t, key) ensures k in Keys(r, key) {
            var i :| 0 <= i < |t| && key(t[i]) == k;
            assert r[i + 1] == t[i];
          }
          assert key(r[0]) in Keys(r, key);
        }
      }
    }
  }

  /**
   * First occurrence wins: a stored element appears in `s` no later than any
   * other kept element with the same key.
   */
  lemma {:induction false} DedupFirst<T, K>(s: seq<T>, key: T -> K, keep: T -> bool, seen: set<K>)
    ensures var r := DedupFrom(s, key, keep, seen);
            forall i, j :: 0 <= i < |r| && 0 <= j < |s| && keep(s[j]) && key(s[j]) == key(r[i]) ==>
              exists j0 :: 0 <= j0 <= j && s[j0] == r[i]
  {
    var r := DedupFrom(s, key, keep, seen);
    forall i, j | 0 <= i < |r| && 0 <= j < |s| && keep(s[j]) && key(s[j]) == key(r[i])
      ensures exists j0 :: 0 <= j0 <= j && s[j0] == r[i]
    {
      DedupFirstAt(s, key, keep, seen, i, j);
    }
  }

  /** `DedupFirst` for one stored element `i` and one kept element `j`. */
  lemma {:induction false} DedupFirstAt<T, K>(s: seq<T>, key: T -> K, keep: T -> bool, seen: set<K>, i: nat, j: nat)
    requires i < |DedupFrom(s, key, keep, seen)| && j < |s| && keep(s[j])
    requires key(s[j]) == key(DedupFrom(s, key, keep, seen)[i])
    ensures exists j0 :: 0 <= j0 <= j && s[j0] == DedupFrom(s, key, keep, seen)[i]
  {
    var s' := s[1..];
    var r := DedupFrom(s, key, keep, seen);
    if keep(s[0]) && key(s[0]) !in seen {
      var seen' := seen + {key(s[0])};
      var t := DedupFrom(s', key, keep, seen');
      assert r == [s[0]] + t;
      if i == 0 {
        assert s[0] == r[i];
      } else {
        // r[i]'s key is outside seen', so it is not s[0]'s key and j > 0
        DedupDistinct(s', key, keep, seen');
        assert r[i] == t[i - 1] && key(t[i - 1]) !in seen';
        assert s'[j - 1] == s[j];
        DedupFirstAt(s', key, keep, seen', i - 1, j - 1);
        var j0 :| 0 <= j0 <= j - 1 && s'[j0] == t[i - 1];
        assert s[j0 + 1] == r[i];
      }
    } else {
      var t := DedupFrom(s', key, keep, seen);
      assert r == t;
      // s[0] is skipped or its key was seen, while stored keys never were: so j > 0
      DedupDistinct(s', key, keep, seen);
      assert key(t[i]) !in seen;
      assert s'[j - 1] == s[j];
      DedupFirstAt(s', key, keep, seen, i, j - 1);
      var j0 :| 0 <= j0 <= j - 1 && s'[j0] == t[i];
      assert s[j0 + 1] == r[i];
    }
  }

  /**
   * The whole de-duplication contract: distinct keys, only kept elements,
   * first occurrence wins, the order of `s`, and every kept key present.
   */
  lemma DedupSpec<T, K>(s: seq<T>, key: T -> K, keep: T -> bool)
    ensures var u := Dedup(s, key, keep);
            DistinctKeys(u, key)
            && (forall i :: 0 <= i < |u| ==> keep(u[i]))
            && (forall i, j :: 0 <= i < |u| && 0 <= j < |s| && keep(s[j]) && key(s[j]) == key(u[i]) ==>
                  exists j0 :: 0 <= j0 <= j && s[j0] == u[i])
            && IsSubseq(u, s)
            && Keys(u, key) == set i | 0 <= i < |s| && keep(s[i]) :: key(s[i])
  {
    DedupDistinct(s, key, keep, {});
    DedupFirst(s, key, keep, {});
    DedupSubseq(s, key, keep, {});
    DedupKeys(s, key, keep, {});
    var kept := set i | 0 <= i < |s| && keep(s[i]) :: key(s[i]);
    assert kept - {} == kept;
  }

  /** The stored elements keep the order in which they were visited. */
  lemma {:induction false} DedupSubseq<T, K>(s: seq<T>, key: T -> K, keep: T -> bool, seen: set<K>)
    ensures IsSubseq(DedupFrom(s, key, keep, seen), s)
  {
    if s != [] {
      var s' := s[1..];
      if keep(s[0]) && key(s[0]) !in seen {
        DedupSubseq(s', key, keep, seen + {key(s[0])});
        var t := DedupFrom(s', key, keep, seen + {key(s[0])});
        assert ([s[0]] + t)[1..] == t;
      } else {
        DedupSubseq(s', key, keep, seen);
        var t := DedupFrom(s', key, keep, seen);
        if t != [] {
          assert IsSubseq(t, s);
        }
      }
    }
  }
}
