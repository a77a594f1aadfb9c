/**
 * The entity table of sim/simulation.py: `entities`, a dictionary keyed by
 * `id(e)`, seen as the sequence of its keys in insertion order (the order in
 * which `update` ticks them), and the two queue drains of
 * `_flush_entity_queue`.
 */
module Registry {
  import opened Wrappers

  /** No key occurs twice: a dictionary's keys. */
  predicate Distinct<K(==)>(s: seq<K>) {
    forall i, j :: 0 <= i < j < |s| ==> s[i] != s[j]
  }

  /** The keys of the table, as a set. */
  function Keys<K(==)>(s: seq<K>): set<K> {
    set x | x in s
  }

  /** `entities[id(e)] = e`: a new key goes last, an existing key keeps its place. */
  function Insert<K(==)>(live: seq<K>, k: K): (r: seq<K>)
    ensures k in live ==> r == live
    ensures k !in live ==> r == live + [k]
  {
    if k in live then live else live + [k]
  }

  /** `s` with every occurrence of `k` taken out, the others in their order. */
  function Without<K(==)>(s: seq<K>, k: K): (r: seq<K>)
    ensures Keys(r) == Keys(s) - {k}
    ensures |r| <= |s|
    ensures r == Keep(s, [k])
    decreases |s|
  {
    if s == [] then []
    else
      KeysOfCons(s[0], s[1..]);
      assert s == [s[0]] + s[1..];
      var rest := Without(s[1..], k);
      if s[0] == k then rest
      else KeysOfCons(s[0], rest); [s[0]] + rest
  }

  /** The elements of `s` that are not in `out`, in their order in `s`. */
  function Keep<K(==)>(s: seq<K>, out: seq<K>): seq<K>
    decreases |s|
  {
    if s == [] then []
    else if s[0] in out then Keep(s[1..], out)
    else [s[0]] + Keep(s[1..], out)
  }

  /** Taking a key out of a table is cutting it out at its place: the other keys keep their order. */
  lemma {:induction false} WithoutAt<K>(s: seq<K>, k: K, i: nat)
    requires Distinct(s) && i < |s| && s[i] == k
    ensures Without(s, k) == s[..i] + s[i + 1..]
    decreases |s|
  {
    assert s == [s[0]] + s[1..];
    if i == 0 {
      assert k !in s[1..] by {
        forall j | 0 <= j < |s[1..]| ensures s[1..][j] != k {
          assert s[1..][j] == s[j + 1];
        }
      }
      WithoutAbsent(s[1..], k);
    } else {
      assert Distinct(s[1..]) by {
        forall a, b | 0 <= a < b < |s[1..]| ensures s[1..][a] != s[1..][b] {
          assert s[1..][a] == s[a + 1] && s[1..][b] == s[b + 1];
        }
      }
      assert s[0] != k;
      WithoutAt(s[1..], k, i - 1);
      assert s[1..][..i - 1] + s[1..][i..] == s[1..i] + s[i + 1..];
      assert [s[0]] + s[1..i] == s[..i];
    }
  }

  lemma {:induction false} WithoutAbsent<K>(s: seq<K>, k: K)
    requires k !in s
    ensures Without(s, k) == s
    decreases |s|
  {
    if s != [] {
      assert s == [s[0]] + s[1..];
      WithoutAbsent(s[1..], k);
    }
  }

  /** Popping `k` and then keeping what `out` does not name keeps what `[k] + out` does not name. */
  lemma {:induction false} KeepWithout<K>(s: seq<K>, k: K, out: seq<K>)
    ensures Keep(Without(s, k), out) == Keep(s, [k] + out)
    decreases |s|
  {
    if s != [] {
      assert s == [s[0]] + s[1..];
      KeepWithout(s[1..], k, out);
      assert s[0] in [k] + out <==> s[0] == k || s[0] in out;
      if s[0] != k {
        var w := [s[0]] + Without(s[1..], k);
        assert w[0] == s[0] && w[1..] == Without(s[1..], k);
      }
    }
  }

  lemma InKeys<K>(x: K, s: seq<K>)
    ensures x in Keys(s) <==> x in s
  {
  }

  lemma KeysOfCons<K>(x: K, s: seq<K>)
    ensures Keys([x] + s) == {x} + Keys(s)
  {
  }

  /** `entities.pop(id(e))`: a KeyError (None) when the key is absent. */
  function Remove<K(==)>(live: seq<K>, k: K): (r: Option<seq<K>>)
    ensures r.Some? <==> k in live
    ensures r.Some? ==> Keys(r.value) == Keys(live) - {k} && r.value == Keep(live, [k])
  {
    if k in live then Some(Without(live, k)) else None
  }

  /** The first loop of `_flush_entity_queue`: the add queue inserted front to back. */
  function InsertAll<K(==)>(live: seq<K>, adds: seq<K>): seq<K>
    decreases |adds|
  {
    if adds == [] then live else InsertAll(Insert(live, adds[0]), adds[1..])
  }

  /** How the removal loop ends: the queue drained, or a KeyError on `key` with `rest` still queued. */
  datatype Drain<K(==)> = Drained(live: seq<K>) | Missing(live: seq<K>, key: K, rest: seq<K>)

  /** The second loop of `_flush_entity_queue`: the removal queue popped front to back. */
  function RemoveAll<K(==)>(live: seq<K>, removals: seq<K>): Drain<K>
    decreases |removals|
  {
    if removals == [] then Drained(live)
    else match Remove(live, removals[0])
      case None => Missing(live, removals[0], removals[1..])
      case Some(l) => RemoveAll(l, removals[1..])
  }

  lemma {:induction false} WithoutKeepsDistinct<K>(s: seq<K>, k: K)
    requires Distinct(s)
    ensures Distinct(Without(s, k))
    ensures k in s ==> |Without(s, k)| == |s| - 1
    ensures k !in s ==> Without(s, k) == s
    decreases |s|
  {
    if s != [] {
      assert Distinct(s[1..]) by {
        forall i, j | 0 <= i < j < |s[1..]| ensures s[1..][i] != s[1..][j] {
          assert s[1..][i] == s[i + 1] && s[1..][j] == s[j + 1];
        }
      }
      WithoutKeepsDistinct(s[1..], k);
      assert s[0] !in s[1..] by {
        forall i | 0 <= i < |s[1..]| ensures s[1..][i] != s[0] {
          assert s[1..][i] == s[i + 1];
        }
      }
      if s[0] != k {
        var r := [s[0]] + Without(s[1..], k);
        InKeys(s[0], Without(s[1..], k));
        InKeys(s[0], s[1..]);
        assert s[0] !in Without(s[1..], k);
        forall i, j | 0 <= i < j < |r| ensures r[i] != r[j] {
          if i == 0 {
            assert r[j] in Without(s[1..], k);
          } else {
            assert r[i] == Without(s[1..], k)[i - 1] && r[j] == Without(s[1..], k)[j - 1];
          }
        }
        if k !in s {
          assert s == [s[0]] + s[1..];
        }
      }
    }
  }

  lemma InsertKeepsDistinct<K>(live: seq<K>, k: K)
    requires Distinct(live)
    ensures Distinct(Insert(live, k))
  {
    if k !in live {
      var r := live + [k];
      forall i, j | 0 <= i < j < |r| ensures r[i] != r[j] {
        if j == |live| {
          assert r[i] == live[i];
        } else {
          assert r[i] == live[i] && r[j] == live[j];
        }
      }
    }
  }

  /**
   * Flushing the add queue: the table stays a table, keeps its old keys in
   * their old order, and holds exactly the old keys and the queued ones.
   */
  lemma {:induction false} InsertAllSpec<K>(live: seq<K>, adds: seq<K>)
    requires Distinct(live)
    ensures var r := InsertAll(live, adds);
            |live| <= |r| <= |live| + |adds| && r[..|live|] == live && Distinct(r)
            && forall x :: x in r <==> x in live || x in adds
    decreases |adds|
  {
    if adds != [] {
      var next := Insert(live, adds[0]);
      InsertKeepsDistinct(live, adds[0]);
      InsertAllSpec(next, adds[1..]);
      var r := InsertAll(live, adds);
      assert r[..|next|][..|live|] == r[..|live|];
      assert next[..|live|] == live;
      forall x ensures x in r <==> x in live || x in adds {
        assert x in adds <==> x == adds[0] || x in adds[1..] by {
          assert adds == [adds[0]] + adds[1..];
        }
      }
    }
  }

  /** Adding keys that are all new appends them in queue order. */
  lemma {:induction false} InsertAllFresh<K>(live: seq<K>, adds: seq<K>)
    requires Distinct(adds)
    requires forall x :: x in adds ==> x !in live
    ensures InsertAll(live, adds) == live + adds
    decreases |adds|
  {
    if adds != [] {
      assert adds[0] !in live;
      forall x | x in adds[1..] ensures x !in live + [adds[0]] {
        var i :| 0 <= i < |adds[1..]| && adds[1..][i] == x;
        assert adds[i + 1] == x;
        assert x != adds[0];
      }
      assert Distinct(adds[1..]) by {
        forall i, j | 0 <= i < j < |adds[1..]| ensures adds[1..][i] != adds[1..][j] {
          assert adds[1..][i] == adds[i + 1] && adds[1..][j] == adds[j + 1];
        }
      }
      InsertAllFresh(live + [adds[0]], adds[1..]);
      assert live + [adds[0]] + adds[1..] == live + adds;
    }
  }

  /**
   * The removal loop drains the queue exactly when the queued entities are
   * all in the table and none is queued twice; it then leaves exactly the
   * table's other keys, still without repeats.
   */
  lemma {:induction false} RemoveAllSpec<K>(live: seq<K>, removals: seq<K>)
    requires Distinct(live)
    ensures RemoveAll(live, removals).Drained? <==> Distinct(removals) && forall x :: x in removals ==> x in live
    ensures var d := RemoveAll(live, removals);
            d.Drained? ==> Distinct(d.live) && |d.live| == |live| - |removals|
                           && (forall x :: x in d.live <==> x in live && x !in removals)
                           && d.live == Keep(live, removals)
    decreases |removals|
  {
    if removals == [] {
      KeepNone(live);
    } else {
      var k := removals[0];
      var tail := removals[1..];
      assert removals == [k] + tail;
      if k in live {
        var l := Without(live, k);
        WithoutKeepsDistinct(live, k);
        RemoveAllSpec(l, tail);
        KeepWithout(live, k, tail);
        assert RemoveAll(live, removals) == RemoveAll(l, tail);
        if RemoveAll(l, tail).Drained? {
          forall x ensures x in l <==> x in live && x != k {
            InKeys(x, l);
            InKeys(x, live);
          }
          assert Distinct(removals) by {
            forall i, j | 0 <= i < j < |removals| ensures removals[i] != removals[j] {
              if i == 0 {
                assert removals[j] == tail[j - 1];
                assert tail[j - 1] in l;
              } else {
                assert removals[i] == tail[i - 1] && removals[j] == tail[j - 1];
              }
            }
          }
          assert forall x :: x in removals <==> x == k || x in tail;
        } else {
          if Distinct(removals) && forall x :: x in removals ==> x in live {
            assert Distinct(tail) by {
              forall i, j | 0 <= i < j < |tail| ensures tail[i] != tail[j] {
                assert tail[i] == removals[i + 1] && tail[j] == removals[j + 1];
              }
            }
            forall x | x in tail ensures x in l {
              var i :| 0 <= i < |tail| && tail[i] == x;
              assert removals[i + 1] == x;
              assert x != k;
              assert x in Keys(live) - {k};
            }
            assert false;
          }
        }
      } else {
        assert RemoveAll(live, removals) == Missing(live, k, tail);
      }
    }
  }

  lemma {:induction false} KeepNone<K>(s: seq<K>)
    ensures Keep(s, []) == s
    decreases |s|
  {
    if s != [] {
      KeepNone(s[1..]);
      assert s == [s[0]] + s[1..];
    }
  }

  /** Removing an entity twice fails on the second pop. */
  lemma DoubleRemoveFails<K>(live: seq<K>, k: K)
    requires Distinct(live)
    ensures !RemoveAll(live, [k, k]).Drained?
  {
    RemoveAllSpec(live, [k, k]);
    assert [k, k][0] == [k, k][1];
  }

  /**
   * An entity that is added and removed before the same flush is created and
   * then taken out again: the add loop runs first, so the pop finds it.
   */
  lemma AddThenRemove<K>(live: seq<K>, k: K)
    requires Distinct(live) && k !in live
    ensures RemoveAll(InsertAll(live, [k]), [k]) == Drained(live)
  {
    assert InsertAll(live, [k]) == InsertAll(live + [k], []);
    WithoutKeepsDistinct(live + [k], k);
    WithoutLast(live, k);
  }

  lemma {:induction false} WithoutLast<K>(s: seq<K>, k: K)
    requires k !in s
    ensures Without(s + [k], k) == s
    decreases |s|
  {
    if s == [] {
      assert [k][1..] == [];
    } else {
      assert (s + [k])[1..] == s[1..] + [k];
      WithoutLast(s[1..], k);
      assert s == [s[0]] + s[1..];
    }
  }
}
