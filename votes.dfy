/**
 The `votesPerCandidate` object of the pay modal: a JavaScript object from
 candidate id to a vote counter.

 A JavaScript object lists its string keys that are not array indices in
 insertion order, and `Object.values` lists the values in that order, so an
 object is modelled as the list of its keys plus a map from key to value
 (candidate ids are taken not to be array-index strings such as "7", which
 JavaScript would list first, in numeric order; the sum does not depend on
 the order, see `SumOrderIndependent`). A counter is a
 JavaScript number; reading a key the object lacks gives `undefined`, and
 `undefined` plus or minus a number is `NaN`, which every later `+` keeps.
 Candidate ids are also taken not to name a property of `Object.prototype`
 (such as "constructor" or "__proto__"), which an object inherits or whose
 assignment goes through a setter instead of creating a key.
 */
module Votes {

  type CandidateId = string

  /** A counter value: an integer, or NaN once `undefined` entered the arithmetic. */
  datatype Num = Int(value: int) | NaN

  /** JavaScript `+` on two counter values: NaN on either side gives NaN, two integers their sum. */
  function Add(a: Num, b: Num): (r: Num)
    ensures r == NaN <==> a == NaN || b == NaN
    ensures r.Int? ==> r.value == a.value + b.value
  {
    if a.Int? && b.Int? then Int(a.value + b.value) else NaN
  }

  /** JavaScript `+` on counters: 0 is its identity, and it is commutative and associative, NaN included. */
  lemma AddLaws(a: Num, b: Num, d: Num)
    ensures Add(Int(0), a) == a && Add(a, Int(0)) == a
    ensures Add(a, b) == Add(b, a)
    ensures Add(Add(a, b), d) == Add(a, Add(b, d))
  {
  }

  /** No id occurs twice. */
  predicate Distinct(s: seq<CandidateId>)
  {
    forall i, j :: 0 <= i < j < |s| ==> s[i] != s[j]
  }

  /** A JavaScript object from candidate id to counter: its keys in insertion order, and its entries. */
  datatype Tally = Tally(keys: seq<CandidateId>, counts: map<CandidateId, Num>)
  {
    /** Each key is listed once, and exactly the keys of the object are listed. */
    ghost predicate Valid()
    {
      Distinct(keys) && forall k :: k in counts <==> k in keys
    }
  }

  /** The object literal `{}`: no key, and its values sum to 0. */
  function Empty(): (r: Tally)
    ensures r.Valid() && r.counts == map[] && Total(r.keys, r.counts) == Int(0)
  {
    Tally([], map[])
  }

  /** `obj[id]` used in arithmetic: a missing key reads as `undefined`, which turns into NaN. */
  function Get(t: Tally, id: CandidateId): (r: Num)
    ensures id in t.counts ==> r == t.counts[id]
    ensures r.Int? ==> id in t.counts
  {
    if id in t.counts then t.counts[id] else NaN
  }

  /**
   `{ ...t, [id]: v }`: a key already present keeps its place in the key order,
   a new key goes last; every other entry is copied unchanged.
   */
  function Put(t: Tally, id: CandidateId, v: Num): (r: Tally)
    requires t.Valid()
    ensures r.Valid()
    ensures r.counts == t.counts[id := v]
    ensures r.keys == if id in t.counts then t.keys else t.keys + [id]
  {
    Tally(if id in t.counts then t.keys else t.keys + [id], t.counts[id := v])
  }

  /** Reading back after `{ ...t, [id]: v }`: `id` reads as `v`, every other key as before. */
  lemma GetPut(t: Tally, id: CandidateId, v: Num, k: CandidateId)
    requires t.Valid()
    ensures Get(Put(t, id, v), id) == v
    ensures k != id ==> Get(Put(t, id, v), k) == Get(t, k)
  {
  }

  /** `prev => ({ ...prev, [id]: prev[id] + delta })`, the updater behind the + and - buttons. */
  function Adjust(t: Tally, id: CandidateId, delta: int): (r: Tally)
    requires t.Valid()
    ensures r.Valid() && id in r.counts
    ensures forall k :: k != id ==> (k in r.counts <==> k in t.counts)
    ensures forall k :: k != id && k in t.counts ==> r.counts[k] == t.counts[k]
    ensures id in t.counts && t.counts[id].Int? ==> r.counts[id] == Int(t.counts[id].value + delta)
    ensures id !in t.counts || t.counts[id].NaN? ==> r.counts[id] == NaN
  {
    Put(t, id, Add(Get(t, id), Int(delta)))
  }

  /**
   Left fold of `+`, starting from 0, over the values of `m` at the keys `ks`,
   in order: an integer when every folded value is one, NaN as soon as one of
   them is NaN.
   */
  function Total(ks: seq<CandidateId>, m: map<CandidateId, Num>): (r: Num)
    requires forall k :: k in ks ==> k in m
    ensures (forall k :: k in ks ==> m[k].Int?) ==> r.Int?
    ensures (exists k :: k in ks && m[k].NaN?) ==> r == NaN
  {
    if ks == [] then Int(0)
    else
      var init, last := ks[..|ks| - 1], ks[|ks| - 1];
      assert forall k :: k in ks <==> k in init || k == last by {
        assert ks == init + [last];
      }
      Add(Total(init, m), m[last])
  }

  /**
   `Object.values(t).reduce((acc, curr) => acc + curr, 0)`: 0 for `{}`, an
   integer when every counter is one, NaN when some counter is NaN.
   */
  function Sum(t: Tally): (r: Num)
    requires t.Valid()
    ensures t.keys == [] ==> r == Int(0)
    ensures Integral(t) ==> r.Int?
    ensures Poisoned(t) ==> r == NaN
  {
    Total(t.keys, t.counts)
  }

  /** Every counter holds an integer. */
  predicate Integral(t: Tally)
  {
    forall k :: k in t.counts ==> t.counts[k].Int?
  }

  /** Some counter holds NaN. */
  predicate Poisoned(t: Tally)
  {
    exists k :: k in t.counts && t.counts[k].NaN?
  }

  /** Changing an entry whose key is not folded over leaves the fold unchanged. */
  lemma {:induction false} TotalFrame(ks: seq<CandidateId>, m: map<CandidateId, Num>, id: CandidateId, v: Num)
    requires forall k :: k in ks ==> k in m
    requires id !in ks
    ensures Total(ks, m[id := v]) == Total(ks, m)
  {
    if ks != [] {
      var init := ks[..|ks| - 1];
      assert forall k :: k in init ==> k in ks;
      TotalFrame(init, m, id, v);
    }
  }

  /**
   Replacing the value of one key that occurs once among `ks` replaces its
   summand: the new total plus the old value equals the old total plus the
   new value (NaN on either side included).
   */
  lemma {:induction false} TotalUpdate(ks: seq<CandidateId>, m: map<CandidateId, Num>, id: CandidateId, v: Num)
    requires forall k :: k in ks ==> k in m
    requires Distinct(ks) && id in ks
    ensures Add(Total(ks, m[id := v]), m[id]) == Add(Total(ks, m), v)
  {
    var n := |ks|;
    var init, last := ks[..n - 1], ks[n - 1];
    assert forall k :: k in init ==> k in ks;
    assert Distinct(init) by {
      forall i, j | 0 <= i < j < |init| ensures init[i] != init[j] {
        assert init[i] == ks[i] && init[j] == ks[j];
      }
    }
    if last == id {
      assert id !in init by {
        forall i | 0 <= i < |init| ensures init[i] != id {
          assert init[i] == ks[i];
        }
      }
      TotalFrame(init, m, id, v);
    } else {
      assert id in init by {
        assert ks == init + [last];
      }
      TotalUpdate(init, m, id, v);
    }
  }

  /** `s` with position `i` cut out. */
  function RemoveAt(s: seq<CandidateId>, i: nat): seq<CandidateId>
    requires i < |s|
  {
    s[..i] + s[i + 1..]
  }

  /** Cutting position `i` out of a list without duplicates leaves exactly the other ids, without duplicates. */
  lemma RemoveAtDistinct(s: seq<CandidateId>, i: nat)
    requires Distinct(s) && i < |s|
    ensures Distinct(RemoveAt(s, i))
    ensures forall k :: k in RemoveAt(s, i) <==> k in s && k != s[i]
  {
  }

  /** The fold over `ks` is the fold without position `i`, plus the value at position `i`. */
  lemma {:induction false} TotalRemoveAt(ks: seq<CandidateId>, m: map<CandidateId, Num>, i: nat)
    requires forall k :: k in ks ==> k in m
    requires i < |ks|
    ensures forall k :: k in RemoveAt(ks, i) ==> k in m
    ensures Total(ks, m) == Add(Total(RemoveAt(ks, i), m), m[ks[i]])
  {
    var n := |ks|;
    var init, last := ks[..n - 1], ks[n - 1];
    assert ks == init + [last];
    if i == n - 1 {
      assert RemoveAt(ks, i) == init;
    } else {
      var rest := RemoveAt(init, i);
      assert init[i] == ks[i];
      TotalRemoveAt(init, m, i);
      assert RemoveAt(ks, i) == rest + [last];
      assert RemoveAt(ks, i)[..n - 2] == rest;
      AddLaws(Total(rest, m), m[ks[i]], m[last]);
      AddLaws(Total(rest, m), m[last], m[ks[i]]);
      AddLaws(m[ks[i]], m[last], Int(0));
    }
  }

  /**
   Two duplicate-free lists of the same keys fold to the same total: the
   order in which `Object.values` lists the counters does not change the sum.
   */
  lemma {:induction false} TotalReorder(ks: seq<CandidateId>, ls: seq<CandidateId>, m: map<CandidateId, Num>)
    requires forall k :: k in ks ==> k in m
    requires Distinct(ks) && Distinct(ls) && forall k :: k in ks <==> k in ls
    ensures forall k :: k in ls ==> k in m
    ensures Total(ks, m) == Total(ls, m)
    decreases |ks|
  {
    if ks != [] {
      var n := |ks|;
      var init, last := ks[..n - 1], ks[n - 1];
      assert ks == init + [last];
      RemoveAtDistinct(ks, n - 1);
      assert RemoveAt(ks, n - 1) == init;
      assert last in ks && last in ls;
      var j :| 0 <= j < |ls| && ls[j] == last;
      RemoveAtDistinct(ls, j);
      TotalRemoveAt(ls, m, j);
      TotalReorder(init, RemoveAt(ls, j), m);
    }
  }

  /** Two objects with the same entries have the same sum, whatever the order of their keys. */
  lemma SumOrderIndependent(t: Tally, u: Tally)
    requires t.Valid() && u.Valid() && t.counts == u.counts
    ensures Sum(t) == Sum(u)
  {
    TotalReorder(t.keys, u.keys, t.counts);
  }

  /** Folding over zeros only gives zero. */
  lemma {:induction false} TotalZero(ks: seq<CandidateId>, m: map<CandidateId, Num>)
    requires forall k :: k in ks ==> k in m && m[k] == Int(0)
    ensures Total(ks, m) == Int(0)
  {
    if ks != [] {
      var init := ks[..|ks| - 1];
      assert forall k :: k in init ==> k in ks;
      TotalZero(init, m);
    }
  }

  /** The sum after `{ ...t, [id]: v }`, in terms of the sum before. */
  lemma SumPut(t: Tally, id: CandidateId, v: Num)
    requires t.Valid()
    ensures id in t.counts ==> Add(Sum(Put(t, id, v)), t.counts[id]) == Add(Sum(t), v)
    ensures id !in t.counts ==> Sum(Put(t, id, v)) == Add(Sum(t), v)
  {
    var r := Put(t, id, v);
    if id in t.counts {
      TotalUpdate(t.keys, t.counts, id, v);
    } else {
      assert r.keys[..|r.keys| - 1] == t.keys;
      TotalFrame(t.keys, t.counts, id, v);
    }
  }

  /** When every counter is 0, the sum is 0. */
  lemma SumZero(t: Tally)
    requires t.Valid()
    requires forall k :: k in t.counts ==> t.counts[k] == Int(0)
    ensures Sum(t) == Int(0)
  {
    TotalZero(t.keys, t.counts);
  }

  /**
   Adding `delta` to an existing integer counter of an all-integer object
   keeps it all-integer and adds exactly `delta` to the sum.
   */
  lemma SumAdjust(t: Tally, id: CandidateId, delta: int)
    requires t.Valid() && Integral(t) && id in t.counts
    ensures Integral(Adjust(t, id, delta))
    ensures Sum(t).Int? && Sum(Adjust(t, id, delta)) == Int(Sum(t).value + delta)
  {
    SumPut(t, id, Add(Get(t, id), Int(delta)));
  }

  /**
   Adjusting a key the object lacks stores NaN under it, and a NaN counter
   stays NaN under every later adjustment of any key: once poisoned, the sum
   is NaN for good.
   */
  lemma AdjustPoisons(t: Tally, id: CandidateId, delta: int)
    requires t.Valid()
    requires id !in t.counts || Poisoned(t)
    ensures Poisoned(Adjust(t, id, delta))
    ensures Sum(Adjust(t, id, delta)) == NaN
  {
    var r := Adjust(t, id, delta);
    if id !in t.counts {
      assert r.counts[id].NaN?;
    } else {
      var k :| k in t.counts && t.counts[k].NaN?;
      assert r.counts[k].NaN?;
    }
  }

  /** `initialVotes[id] = 0` for each id of `ids` in order, starting from `{}`. */
  function ZeroTally(ids: seq<CandidateId>): (r: Tally)
    ensures r.Valid()
    ensures forall k :: k in r.counts <==> k in ids
    ensures forall k :: k in r.counts ==> r.counts[k] == Int(0)
  {
    if ids == [] then Empty() else Put(ZeroTally(ids[..|ids| - 1]), ids[|ids| - 1], Int(0))
  }
}
