/** The shape shared by every `post_*` operation: a loop over the requested
    platform names that, for each name, makes some provider calls and perhaps
    stores one entry in a Python dict under that name.  A dict keeps its keys
    in insertion order; storing under a key already present replaces the value
    in place. */
module FanOut {
  import opened Outcomes

  /** A Python dict with string keys, in insertion order. */
  type Dict<V> = seq<(string, V)>

  function Keys<V>(d: Dict<V>): seq<string> {
    if d == [] then [] else [d[0].0] + Keys(d[1..])
  }

  predicate Distinct(ks: seq<string>) {
    forall i, j :: 0 <= i < j < |ks| ==> ks[i] != ks[j]
  }

  /** `d.get(k)`. */
  function Get<V>(d: Dict<V>, k: string): Option<V> {
    if d == [] then None else if d[0].0 == k then Some(d[0].1) else Get(d[1..], k)
  }

  /** The key order after storing under `k`: unchanged if `k` is present, else `k` last. */
  function AddKey(ks: seq<string>, k: string): seq<string> {
    if k in ks then ks else ks + [k]
  }

  lemma {:induction false} GetSomeIffKey<V>(d: Dict<V>, k: string)
    ensures Get(d, k).Some? <==> k in Keys(d)
  {
    if d != [] {
      GetSomeIffKey(d[1..], k);
    }
  }

  /** `d[k] = v`. */
  function Put<V>(d: Dict<V>, k: string, v: V): Dict<V> {
    if d == [] then [(k, v)]
    else if d[0].0 == k then [(k, v)] + d[1..]
    else [d[0]] + Put(d[1..], k, v)
  }

  /** After `d[k] = v`, `k` maps to `v`, every other key keeps its value, and
      the key order only gains `k` at the end when it was absent. */
  lemma {:induction false} PutLookup<V>(d: Dict<V>, k: string, v: V)
    ensures Get(Put(d, k, v), k) == Some(v)
    ensures forall k' :: k' != k ==> Get(Put(d, k, v), k') == Get(d, k')
    ensures Keys(Put(d, k, v)) == AddKey(Keys(d), k)
    ensures Distinct(Keys(d)) ==> Distinct(Keys(Put(d, k, v)))
  {
    if d != [] {
      if d[0].0 == k {
        assert Keys([(k, v)] + d[1..]) == [k] + Keys(d[1..]);
      } else {
        PutLookup(d[1..], k, v);
        var tail := Put(d[1..], k, v);
        assert Keys([d[0]] + tail) == [d[0].0] + Keys(tail);
      }
    }
  }

  /** What one iteration of a fan-out loop did for one requested platform name:
      the entry it stored under that name (None: it stored nothing) and the
      provider calls it made, in order. */
  datatype Step<V, C> = Step(platform: string, entry: Option<V>, calls: seq<C>)

  /** The result dict after running `steps` in order from an empty dict. */
  function Fill<V, C>(steps: seq<Step<V, C>>): Dict<V> {
    if steps == [] then []
    else
      var last := steps[|steps| - 1];
      var d := Fill(steps[..|steps| - 1]);
      if last.entry.Some? then Put(d, last.platform, last.entry.value) else d
  }

  /** Every provider call the loop made, in the order it made them. */
  function Trace<V, C>(steps: seq<Step<V, C>>): seq<C> {
    if steps == [] then [] else Trace(steps[..|steps| - 1]) + steps[|steps| - 1].calls
  }

  /** Reference definition of a lookup in the result dict: the entry of the
      last step for `k` that stored one. */
  function LastEntry<V, C>(steps: seq<Step<V, C>>, k: string): Option<V> {
    if steps == [] then None
    else
      var last := steps[|steps| - 1];
      if last.platform == k && last.entry.Some? then last.entry
      else LastEntry(steps[..|steps| - 1], k)
  }

  /** The result dict has no repeated key, and the value under `k` is the
      entry of the last step for `k` that stored one: later iterations for the
      same name overwrite earlier ones, and no other name interferes. */
  lemma {:induction false} FillLookup<V, C>(steps: seq<Step<V, C>>)
    ensures Distinct(Keys(Fill(steps)))
    ensures forall k :: Get(Fill(steps), k) == LastEntry(steps, k)
  {
    if steps != [] {
      var last := steps[|steps| - 1];
      FillLookup(steps[..|steps| - 1]);
      if last.entry.Some? {
        PutLookup(Fill(steps[..|steps| - 1]), last.platform, last.entry.value);
      }
    }
  }

  lemma {:induction false} LastEntrySomeIff<V, C>(steps: seq<Step<V, C>>, k: string)
    ensures LastEntry(steps, k).Some? <==>
            exists i :: 0 <= i < |steps| && steps[i].platform == k && steps[i].entry.Some?
  {
    if steps != [] {
      var init := steps[..|steps| - 1];
      LastEntrySomeIff(init, k);
      if LastEntry(init, k).Some? {
        var i :| 0 <= i < |init| && init[i].platform == k && init[i].entry.Some?;
        assert steps[i] == init[i];
      }
      if exists i :: 0 <= i < |steps| && steps[i].platform == k && steps[i].entry.Some? {
        var i :| 0 <= i < |steps| && steps[i].platform == k && steps[i].entry.Some?;
        if i < |init| {
          assert init[i] == steps[i];
        }
      }
    }
  }

  /** The keys of the result dict are exactly the names of the steps that
      stored an entry; in particular they are among the requested names. */
  lemma FillKeys<V, C>(steps: seq<Step<V, C>>)
    ensures forall k :: k in Keys(Fill(steps)) <==>
                        exists i :: 0 <= i < |steps| && steps[i].platform == k && steps[i].entry.Some?
  {
    FillLookup(steps);
    forall k ensures k in Keys(Fill(steps)) <==>
                     exists i :: 0 <= i < |steps| && steps[i].platform == k && steps[i].entry.Some?
    {
      GetSomeIffKey(Fill(steps), k);
      LastEntrySomeIff(steps, k);
    }
  }

  /** Whether a step stores an entry depends only on its platform name: it
      stores one exactly when the name is one of `names`. */
  predicate StoresExactly<V, C>(steps: seq<Step<V, C>>, names: set<string>) {
    forall i :: 0 <= i < |steps| ==> (steps[i].entry.Some? <==> steps[i].platform in names)
  }

  /** When only the names in `names` store entries, the keys of the result dict
      are exactly the requested names that belong to `names`; any other name
      silently produces nothing. */
  lemma KeysAreRequestedKnownNames<V, C>(steps: seq<Step<V, C>>, names: set<string>, k: string)
    requires StoresExactly(steps, names)
    ensures k in Keys(Fill(steps)) <==> k in names && exists i :: 0 <= i < |steps| && steps[i].platform == k
  {
    FillKeys(steps);
  }

  lemma {:induction false} LastEntryIsolation<V, C>(steps: seq<Step<V, C>>, i: nat, s: Step<V, C>, k: string)
    requires i < |steps| && s.platform == steps[i].platform && k != s.platform
    ensures LastEntry(steps[i := s], k) == LastEntry(steps, k)
  {
    var n := |steps|;
    var steps' := steps[i := s];
    if i == n - 1 {
      assert steps'[..n - 1] == steps[..n - 1];
    } else {
      assert steps'[..n - 1] == steps[..n - 1][i := s];
      LastEntryIsolation(steps[..n - 1], i, s, k);
    }
  }

  /** Failure isolation: replacing what happened for the `i`-th requested
      platform (an exception instead of a response, say) changes nothing that
      the result dict holds under any other name. */
  lemma FillIsolation<V, C>(steps: seq<Step<V, C>>, i: nat, s: Step<V, C>, k: string)
    requires i < |steps| && s.platform == steps[i].platform && k != s.platform
    ensures Get(Fill(steps[i := s]), k) == Get(Fill(steps), k)
  {
    FillLookup(steps);
    FillLookup(steps[i := s]);
    LastEntryIsolation(steps, i, s, k);
  }

  lemma {:induction false} TraceAppend<V, C>(a: seq<Step<V, C>>, b: seq<Step<V, C>>)
    ensures Trace(a + b) == Trace(a) + Trace(b)
  {
    if b != [] {
      assert (a + b)[..|a + b| - 1] == a + b[..|b| - 1];
      TraceAppend(a, b[..|b| - 1]);
    } else {
      assert a + b == a;
    }
  }

  /** Every iteration runs, whatever happened before it: the calls of step `i`
      are issued right after those of the earlier steps and before those of
      the later ones. */
  lemma {:induction false} TraceSplit<V, C>(steps: seq<Step<V, C>>, i: nat)
    requires i < |steps|
    ensures Trace(steps) == Trace(steps[..i]) + steps[i].calls + Trace(steps[i + 1..])
  {
    var one := [steps[i]];
    assert Trace(one) == steps[i].calls by {
      assert one[..0] == [];
    }
    TraceAppend(steps[..i], one);
    TraceAppend(steps[..i] + one, steps[i + 1..]);
    assert steps == steps[..i] + one + steps[i + 1..];
  }

  /** A property of every call issued, read off the calls of each step. */
  lemma {:induction false} TraceEvery<V, C>(steps: seq<Step<V, C>>, p: C -> bool)
    requires forall i, j :: 0 <= i < |steps| && 0 <= j < |steps[i].calls| ==> p(steps[i].calls[j])
    ensures forall j :: 0 <= j < |Trace(steps)| ==> p(Trace(steps)[j])
  {
    if steps != [] {
      var init := steps[..|steps| - 1];
      TraceEvery(init, p);
    }
  }

  /** When every step for `k` stores the same entry `e` and at least one step
      is for `k`, the result dict holds `e` under `k`. */
  lemma {:induction false} FillUniform<V, C>(steps: seq<Step<V, C>>, k: string, e: V)
    requires exists i :: 0 <= i < |steps| && steps[i].platform == k
    requires forall i :: 0 <= i < |steps| && steps[i].platform == k ==> steps[i].entry == Some(e)
    ensures Get(Fill(steps), k) == Some(e)
  {
    FillLookup(steps);
    LastEntrySomeIff(steps, k);
    LastEntryIn(steps, k);
  }

  lemma {:induction false} LastEntryIn<V, C>(steps: seq<Step<V, C>>, k: string)
    ensures LastEntry(steps, k).Some? ==>
            exists i :: 0 <= i < |steps| && steps[i].platform == k && steps[i].entry == LastEntry(steps, k)
  {
    if steps != [] {
      var init := steps[..|steps| - 1];
      LastEntryIn(init, k);
      if LastEntry(steps, k) == LastEntry(init, k) && LastEntry(init, k).Some? {
        var i :| 0 <= i < |init| && init[i].platform == k && init[i].entry == LastEntry(init, k);
        assert steps[i] == init[i];
      }
    }
  }

  /** A key's value in a dict stands at some index with that key. */
  lemma {:induction false} GetIndex<V>(d: Dict<V>, k: string)
    requires Get(d, k).Some?
    ensures exists i :: 0 <= i < |d| && d[i].0 == k && d[i].1 == Get(d, k).value
  {
    if d[0].0 != k {
      GetIndex(d[1..], k);
      var i :| 0 <= i < |d[1..]| && d[1..][i].0 == k && d[1..][i].1 == Get(d[1..], k).value;
      assert d[i + 1] == d[1..][i];
    }
  }

  /** The key list lists the keys at their indices. */
  lemma {:induction false} KeysIndex<V>(d: Dict<V>, i: nat)
    requires i < |d|
    ensures |Keys(d)| == |d| && Keys(d)[i] == d[i].0
  {
    if i > 0 {
      KeysIndex(d[1..], i - 1);
    } else {
      KeysLength(d);
    }
  }

  lemma {:induction false} KeysLength<V>(d: Dict<V>)
    ensures |Keys(d)| == |d|
  {
    if d != [] {
      KeysLength(d[1..]);
    }
  }

  /** One more iteration: the dict and the calls after step `i` follow from
      those before it. */
  lemma FillSnoc<V, C>(steps: seq<Step<V, C>>, i: nat)
    requires i < |steps|
    ensures Fill(steps[..i + 1]) == if steps[i].entry.Some? then Put(Fill(steps[..i]), steps[i].platform, steps[i].entry.value)
                                    else Fill(steps[..i])
    ensures Trace(steps[..i + 1]) == Trace(steps[..i]) + steps[i].calls
  {
    assert steps[..i + 1][..i] == steps[..i];
  }
}
