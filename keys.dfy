/**
 * The credential pool of the analyzer: the list of API keys read from the
 * key file, how a key is retired, and which key each pending article of a
 * dispatch round is given.
 */
module Keys {
  import Text
  import Stages

  /** At most this many keys are read from the key file, and at most this many worker processes run. */
  const MaxKeys: nat := 50

  function Min(a: nat, b: nat): nat {
    if a <= b then a else b
  }

  /** `[line.strip() for line in lines[:50]]`: the active keys after loading the key file. */
  function LoadKeys(lines: seq<string>): (keys: seq<string>)
    ensures |keys| == Min(|lines|, MaxKeys)
    ensures forall i :: 0 <= i < |keys| ==> keys[i] == Text.Strip(lines[i])
  {
    var n := Min(|lines|, MaxKeys);
    seq(n, i requires 0 <= i < n => Text.Strip(lines[i]))
  }

  /** Index of the first occurrence of `k` in `keys`. */
  function FirstIndex(keys: seq<string>, k: string): (i: nat)
    requires k in keys
    ensures i < |keys| && keys[i] == k
    ensures forall j :: 0 <= j < i ==> keys[j] != k
  {
    if keys[0] == k then 0 else 1 + FirstIndex(keys[1..], k)
  }

  /**
   * Python's `keys.remove(k)` guarded by `k in keys`: the first occurrence of
   * `k` is dropped and every other key keeps its place; an absent key changes nothing.
   */
  function RemoveFirst(keys: seq<string>, k: string): (r: seq<string>)
    ensures k !in keys ==> r == keys
    ensures k in keys ==> |r| == |keys| - 1
  {
    if keys == [] then []
    else if keys[0] == k then keys[1..]
    else [keys[0]] + RemoveFirst(keys[1..], k)
  }

  /** The keys before the first `k` keep their places; the keys after it move up by one. */
  lemma {:induction false} RemoveFirstElements(keys: seq<string>, k: string)
    requires k in keys
    ensures forall j :: 0 <= j < FirstIndex(keys, k) ==> RemoveFirst(keys, k)[j] == keys[j]
    ensures forall j :: FirstIndex(keys, k) <= j < |RemoveFirst(keys, k)| ==> RemoveFirst(keys, k)[j] == keys[j + 1]
  {
    if keys[0] != k {
      RemoveFirstElements(keys[1..], k);
    }
  }

  /** `RemoveFirst` as slices: everything before the first `k`, then everything after it. */
  lemma RemoveFirstSlices(keys: seq<string>, k: string)
    requires k in keys
    ensures RemoveFirst(keys, k) == keys[..FirstIndex(keys, k)] + keys[FirstIndex(keys, k) + 1..]
  {
    RemoveFirstElements(keys, k);
  }

  /** Retiring a present key removes exactly one copy of it and nothing else. */
  lemma RemoveFirstMultiset(keys: seq<string>, k: string)
    requires k in keys
    ensures multiset(RemoveFirst(keys, k)) == multiset(keys) - multiset{k}
  {
    var i := FirstIndex(keys, k);
    RemoveFirstSlices(keys, k);
    assert keys == keys[..i] + [k] + keys[i + 1..];
    assert multiset(keys) == multiset(keys[..i]) + multiset{k} + multiset(keys[i + 1..]);
  }

  /** No key occurs twice. */
  predicate Distinct(keys: seq<string>) {
    forall i, j :: 0 <= i < j < |keys| ==> keys[i] != keys[j]
  }

  /** On a key list without repetitions, retiring a key twice is the same as retiring it once. */
  lemma {:induction false} RemoveFirstIdempotent(keys: seq<string>, k: string)
    requires Distinct(keys)
    ensures RemoveFirst(RemoveFirst(keys, k), k) == RemoveFirst(keys, k)
  {
    if k in keys {
      var i := FirstIndex(keys, k);
      var r := RemoveFirst(keys, k);
      RemoveFirstElements(keys, k);
      forall j | 0 <= j < |r|
        ensures r[j] != k
      {
        if j < i {
          assert r[j] == keys[j];
        } else {
          assert r[j] == keys[j + 1];
        }
      }
    }
  }

  /**
   * With a repeated key, a second retirement removes the second copy:
   * the pool is not idempotent under retirement unless the key file has no repetitions.
   */
  lemma RemoveFirstTwiceWithRepeatedKey()
    ensures RemoveFirst(RemoveFirst(["a", "b", "a"], "a"), "a") != RemoveFirst(["a", "b", "a"], "a")
  {
    assert RemoveFirst(["a", "b", "a"], "a") == ["b", "a"];
    assert RemoveFirst(["b", "a"], "a") == ["b"];
  }

  /** Number of worker processes of a round: `min(len(apikeys), 50)`; zero makes the pool fail. */
  function PoolSize(keyCount: nat): (n: nat)
    ensures n <= MaxKeys && n <= keyCount
    ensures n == 0 <==> keyCount == 0
    ensures keyCount <= MaxKeys ==> n == keyCount
  {
    Min(keyCount, MaxKeys)
  }

  /**
   * The key given to the `i`-th of `pendingCount` articles of a round:
   * round-robin, unless there are more keys than articles, when the
   * `random.choice` stands for an arbitrary member (`choice` picks it).
   */
  function AssignedKey(keys: seq<string>, i: nat, pendingCount: nat, choice: nat): (k: string)
    requires |keys| > 0
    ensures k in keys
    ensures |keys| <= pendingCount ==> k == keys[i % |keys|]
    ensures |keys| > pendingCount ==> k == keys[choice % |keys|]
  {
    var k := keys[i % |keys|];
    if |keys| > pendingCount then keys[choice % |keys|] else k
  }

  /** The pool after retiring `retired` one after the other, each with `RemoveFirst`. */
  function Retire(keys: seq<string>, retired: seq<string>): (pool: seq<string>)
    ensures |pool| <= |keys|
    ensures RetiresPresent(keys, retired) ==> |pool| + |retired| == |keys|
    decreases retired
  {
    if retired == [] then keys else Retire(RemoveFirst(keys, retired[0]), retired[1..])
  }

  /** Every key of `retired` was still in the pool when its turn came. */
  predicate RetiresPresent(keys: seq<string>, retired: seq<string>)
    decreases retired
  {
    retired == [] || (retired[0] in keys && RetiresPresent(RemoveFirst(keys, retired[0]), retired[1..]))
  }

  /** Retiring `a` and then `b` is retiring `a + b`. */
  lemma {:induction false} RetireAppend(keys: seq<string>, a: seq<string>, b: seq<string>)
    ensures Retire(keys, a + b) == Retire(Retire(keys, a), b)
    ensures RetiresPresent(keys, a) && RetiresPresent(Retire(keys, a), b) ==> RetiresPresent(keys, a + b)
    decreases a
  {
    if a == [] {
      assert a + b == b;
    } else {
      assert (a + b)[0] == a[0];
      assert (a + b)[1..] == a[1..] + b;
      RetireAppend(RemoveFirst(keys, a[0]), a[1..], b);
    }
  }

  lemma RetireOne(keys: seq<string>, k: string)
    ensures Retire(keys, [k]) == RemoveFirst(keys, k)
    ensures k in keys ==> RetiresPresent(keys, [k])
  {
    assert [k][1..] == [];
  }

  /**
   * Keys are never lost: the retired keys and the keys left in the pool are
   * together exactly the keys the pool started with.
   */
  lemma {:induction false} RetireMultiset(keys: seq<string>, retired: seq<string>)
    requires RetiresPresent(keys, retired)
    ensures multiset(keys) == multiset(Retire(keys, retired)) + multiset(retired)
    decreases retired
  {
    if retired != [] {
      var k := retired[0];
      RemoveFirstMultiset(keys, k);
      assert k in multiset(keys);
      assert multiset(keys) == multiset(RemoveFirst(keys, k)) + multiset{k};
      RetireMultiset(RemoveFirst(keys, k), retired[1..]);
      assert retired == [k] + retired[1..];
      assert multiset(retired) == multiset{k} + multiset(retired[1..]);
    }
  }

  /** A stripped key read back from its own line is the key again. */
  lemma StripTerminated(k: string)
    requires Text.Strip(k) == k
    ensures Text.Strip(k + "\n") == k
  {
    var t := k + "\n";
    if k == [] {
      assert t == "\n";
      assert Text.LeadingSpaces(t) == 1 by {
        assert t[1..] == [];
      }
    } else {
      assert !Text.IsSpace(k[0]) && !Text.IsSpace(k[|k| - 1]);
      Text.LeadingSpacesOfNonSpace(t);
      assert t[0..] == t;
      assert t[..|t| - 1] == k;
      Text.TrailingStartOfNonSpace(k);
      assert t[..|k|] == k;
    }
  }

  /**
   * The key file rewritten after a retirement loads back as the same pool:
   * its lines are the keys, each with its newline, and loading strips them.
   */
  lemma ReloadKeys(keys: seq<string>)
    requires |keys| <= MaxKeys
    requires forall i :: 0 <= i < |keys| ==> Text.Strip(keys[i]) == keys[i]
    ensures LoadKeys(Stages.Terminated(keys)) == keys
  {
    forall i | 0 <= i < |keys| ensures Text.Strip(Stages.Terminated(keys)[i]) == keys[i] {
      StripTerminated(keys[i]);
    }
  }

  /** Loaded keys are stripped, and retiring keeps only loaded keys. */
  lemma {:induction false} RetireKeepsStripped(keys: seq<string>, retired: seq<string>)
    requires forall i :: 0 <= i < |keys| ==> Text.Strip(keys[i]) == keys[i]
    ensures |Retire(keys, retired)| <= |keys|
    ensures forall i :: 0 <= i < |Retire(keys, retired)| ==> Text.Strip(Retire(keys, retired)[i]) == Retire(keys, retired)[i]
    decreases retired
  {
    if retired != [] {
      var next := RemoveFirst(keys, retired[0]);
      forall i | 0 <= i < |next| ensures Text.Strip(next[i]) == next[i] {
        if retired[0] in keys {
          RemoveFirstElements(keys, retired[0]);
          if i >= FirstIndex(keys, retired[0]) {
            assert next[i] == keys[i + 1];
          }
        }
      }
      RetireKeepsStripped(next, retired[1..]);
    }
  }

  /** Every loaded key is stripped. */
  lemma LoadKeysStripped(lines: seq<string>)
    ensures forall i :: 0 <= i < |LoadKeys(lines)| ==> Text.Strip(LoadKeys(lines)[i]) == LoadKeys(lines)[i]
  {
    forall i | 0 <= i < |LoadKeys(lines)| ensures Text.Strip(LoadKeys(lines)[i]) == LoadKeys(lines)[i] {
      Text.StripIdempotent(lines[i]);
    }
  }
}
