/** An insertion-ordered counter: the JavaScript idiom
    `counts[k] = (counts[k] || 0) + 1` on a plain object, whose
    `Object.keys` lists the keys in the order they were first set. The
    parser's `senderCounts` and the statistics' `messagesBySender` and
    `messagesByDate` are tallies. */
module Tallies {

  datatype Tally = Tally(keys: seq<string>, count: map<string, nat>)

  /** The keys are listed once each, exactly the keys of the map, and every
      listed key has been counted at least once. */
  ghost predicate Valid(t: Tally)
  {
    && Distinct(t.keys)
    && (forall k :: k in t.count <==> k in t.keys)
    && (forall k :: k in t.count ==> t.count[k] >= 1)
  }

  ghost predicate Distinct(ks: seq<string>)
  {
    forall i, j :: 0 <= i < j < |ks| ==> ks[i] != ks[j]
  }

  const Empty: Tally := Tally([], map[])

  /** `counts[k] || 0`. */
  function Get(t: Tally, k: string): nat
  {
    if k in t.count then t.count[k] else 0
  }

  /** `counts[k] = (counts[k] || 0) + 1`: a new key goes to the end of the
      key order. */
  function Bump(t: Tally, k: string): (r: Tally)
    requires Valid(t)
    ensures Valid(r)
    ensures Get(r, k) == Get(t, k) + 1
    ensures forall k' :: k' != k ==> Get(r, k') == Get(t, k')
    ensures r.keys == if k in t.count then t.keys else t.keys + [k]
  {
    if k in t.count then Tally(t.keys, t.count[k := t.count[k] + 1])
    else Tally(t.keys + [k], t.count[k := 1])
  }

  /** The tally obtained by bumping the keys of `ks` in order. */
  function TallyOf(ks: seq<string>): (t: Tally)
    ensures Valid(t)
  {
    if ks == [] then Empty else Bump(TallyOf(ks[..|ks| - 1]), ks[|ks| - 1])
  }

  /** The sum of the counts, taken over the listed keys. */
  function Total(t: Tally): nat
  {
    SumOver(t.keys, t.count)
  }

  function SumOver(keys: seq<string>, count: map<string, nat>): nat
  {
    if keys == [] then 0
    else (if keys[0] in count then count[keys[0]] else 0) + SumOver(keys[1..], count)
  }

  function ToSet(ks: seq<string>): set<string>
  {
    set k | k in ks
  }

  // ---------------------------------------------------------------------
  // Properties

  /** Counting one more key is one more bump. */
  lemma TallyOfSnoc(ks: seq<string>, k: string)
    ensures TallyOf(ks + [k]) == Bump(TallyOf(ks), k)
  {
    assert (ks + [k])[..|ks|] == ks;
  }

  /** Each key's count is the number of times it occurs in the sequence. */
  lemma {:induction false} TallyOfCounts(ks: seq<string>, k: string)
    ensures Get(TallyOf(ks), k) == multiset(ks)[k]
  {
    if ks != [] {
      var init, x := ks[..|ks| - 1], ks[|ks| - 1];
      TallyOfCounts(init, k);
      assert ks == init + [x];
      assert multiset(ks) == multiset(init) + multiset{x};
      assert Get(TallyOf(ks), k) == Get(TallyOf(init), k) + (if k == x then 1 else 0);
    }
  }

  /** The keys are exactly the distinct elements of the sequence. */
  lemma {:induction false} TallyOfKeys(ks: seq<string>)
    ensures ToSet(TallyOf(ks).keys) == ToSet(ks)
    ensures |TallyOf(ks).keys| == |ToSet(ks)|
  {
    if ks != [] {
      var init := ks[..|ks| - 1];
      TallyOfKeys(init);
      assert ks == init + [ks[|ks| - 1]];
      assert ToSet(ks) == ToSet(init) + {ks[|ks| - 1]};
    }
    DistinctCard(TallyOf(ks).keys);
  }

  /** The counts add up to the length of the sequence. */
  lemma {:induction false} TallyOfTotal(ks: seq<string>)
    ensures Total(TallyOf(ks)) == |ks|
  {
    if ks != [] {
      var init := ks[..|ks| - 1];
      TallyOfTotal(init);
      BumpTotal(TallyOf(init), ks[|ks| - 1]);
    }
  }

  /** One bump adds exactly one to the total. */
  lemma BumpTotal(t: Tally, k: string)
    requires Valid(t)
    ensures Total(Bump(t, k)) == Total(t) + 1
  {
    if k in t.count {
      SumOverUpdateOnce(t.keys, t.count, k, t.count[k] + 1);
    } else {
      SumOverAppend(t.keys, k, t.count[k := 1]);
      SumOverUpdateAbsent(t.keys, t.count, k, 1);
    }
  }

  lemma {:induction false} SumOverAppend(keys: seq<string>, x: string, count: map<string, nat>)
    ensures SumOver(keys + [x], count) == SumOver(keys, count) + (if x in count then count[x] else 0)
  {
    if keys != [] {
      assert (keys + [x])[1..] == keys[1..] + [x];
      SumOverAppend(keys[1..], x, count);
    }
  }

  lemma {:induction false} SumOverUpdateAbsent(keys: seq<string>, count: map<string, nat>, k: string, v: nat)
    requires k !in keys
    ensures SumOver(keys, count[k := v]) == SumOver(keys, count)
  {
    if keys != [] {
      SumOverUpdateAbsent(keys[1..], count, k, v);
    }
  }

  lemma {:induction false} SumOverUpdateOnce(keys: seq<string>, count: map<string, nat>, k: string, v: nat)
    requires Distinct(keys) && k in keys && k in count
    ensures SumOver(keys, count[k := v]) + count[k] == SumOver(keys, count) + v
  {
    if keys[0] == k {
      assert k !in keys[1..];
      SumOverUpdateAbsent(keys[1..], count, k, v);
    } else {
      SumOverUpdateOnce(keys[1..], count, k, v);
    }
  }

  lemma {:induction false} DistinctCard(ks: seq<string>)
    requires Distinct(ks)
    ensures |ToSet(ks)| == |ks|
  {
    if ks != [] {
      DistinctCard(ks[1..]);
      assert ToSet(ks) == ToSet(ks[1..]) + {ks[0]};
      assert ks[0] !in ToSet(ks[1..]);
    }
  }
}
