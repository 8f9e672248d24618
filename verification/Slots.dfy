/** In-flight slots, as both limiters count them: a counter per key, and one
    release per slot that may be called any number of times. */
module Slots {

  function Held<K>(inflight: map<K, int>, k: K): int {
    if k in inflight then inflight[k] else 0
  }

  function Taken<K>(inflight: map<K, int>, k: K): map<K, int> {
    inflight[k := Held(inflight, k) + 1]
  }

  /** The body of a release: decrement if positive, forget the key at zero. */
  function Returned<K>(inflight: map<K, int>, k: K): map<K, int> {
    var held := if Held(inflight, k) > 0 then Held(inflight, k) - 1 else Held(inflight, k);
    if held == 0 then inflight - {k} else inflight[k := held]
  }

  /** A release runs at most once per slot. */
  function Release<K>(inflight: map<K, int>, outstanding: map<nat, K>, slot: nat): map<K, int> {
    if slot in outstanding then Returned(inflight, outstanding[slot]) else inflight
  }

  function Holders<K(==)>(outstanding: map<nat, K>, k: K): set<nat> {
    set slot | slot in outstanding && outstanding[slot] == k
  }

  /** The counters are the granted slots not yet released; no zero is stored. */
  ghost predicate Conserved<K(!new)>(inflight: map<K, int>, outstanding: map<nat, K>) {
    forall k :: Held(inflight, k) == |Holders(outstanding, k)| && (k in inflight ==> inflight[k] > 0)
  }

  lemma HoldersTaken<K>(outstanding: map<nat, K>, k: K, slot: nat, j: K)
    requires slot !in outstanding
    ensures |Holders(outstanding[slot := k], j)| == |Holders(outstanding, j)| + (if j == k then 1 else 0)
  {
    assert Holders(outstanding[slot := k], j)
        == if j == k then Holders(outstanding, j) + {slot} else Holders(outstanding, j);
  }

  lemma TakenConserved<K(!new)>(inflight: map<K, int>, outstanding: map<nat, K>, k: K, slot: nat)
    requires Conserved(inflight, outstanding) && slot !in outstanding
    ensures Conserved(Taken(inflight, k), outstanding[slot := k])
  {
    hide Holders;
    forall j ensures Held(Taken(inflight, k), j) == |Holders(outstanding[slot := k], j)| {
      HoldersTaken(outstanding, k, slot, j);
    }
  }

  lemma ReleaseConserved<K(!new)>(inflight: map<K, int>, outstanding: map<nat, K>, slot: nat)
    requires Conserved(inflight, outstanding)
    ensures Conserved(Release(inflight, outstanding, slot), outstanding - {slot})
    ensures forall j :: Held(Release(inflight, outstanding, slot), j)
                        == Held(inflight, j) - (if slot in outstanding && outstanding[slot] == j then 1 else 0)
  {
    if slot !in outstanding {
      assert outstanding - {slot} == outstanding;
    } else {
      var k := outstanding[slot];
      assert slot in Holders(outstanding, k);
      forall j ensures Held(Returned(inflight, k), j) == |Holders(outstanding - {slot}, j)|
        ensures |Holders(outstanding - {slot}, j)| == |Holders(outstanding, j)| - (if j == k then 1 else 0) {
        assert Holders(outstanding - {slot}, j)
            == if j == k then Holders(outstanding, j) - {slot} else Holders(outstanding, j);
      }
    }
  }

  /** The keys holding slots are those of the slots not released. */
  lemma HeldKeys<K(!new)>(inflight: map<K, int>, outstanding: map<nat, K>)
    requires Conserved(inflight, outstanding)
    ensures inflight.Keys == outstanding.Values
  {
    forall k ensures k in inflight <==> k in outstanding.Values {
      assert Held(inflight, k) == |Holders(outstanding, k)|;
      if k in inflight {
        assert Holders(outstanding, k) != {};
        var slot :| slot in Holders(outstanding, k);
      }
      if k in outstanding.Values {
        var slot :| slot in outstanding && outstanding[slot] == k;
        assert slot in Holders(outstanding, k);
      }
    }
  }

  // ------------------------------------------- keys tracked in two maps

  lemma SubsetSize<K>(a: set<K>, b: set<K>)
    requires a <= b
    ensures |a| <= |b|
  {
    assert b == a + (b - a);
  }

  /** Adding a key that one set holds already, or that there is room for, keeps
      the number of distinct keys under the cap. */
  lemma AddedKey<K>(a: set<K>, b: set<K>, key: K, cap: int)
    requires |a + b| <= cap
    ensures key in a || |a| + |b| < cap ==> |(a + {key}) + b| <= cap && |a + (b + {key})| <= cap
  {
    assert (a + {key}) + b == (a + b) + {key};
    assert a + (b + {key}) == (a + b) + {key};
    assert |a + b| == |a| + |b| - |a * b|;
    if key in a { assert (a + b) + {key} == a + b; }
  }
}
