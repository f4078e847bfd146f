/**
 The vote-allocation state of the pay modal: the user picks up to
 `eligibleCandidateCounts` candidates, spreads the coupon's `votes` over the
 counters with + and - buttons, and may confirm once no vote is left and the
 candidate list is long enough.
 */
module PayModal {
  import opened Votes

  datatype PaymentMethod = Esewa | Stripe

  /** The coupon fields the allocation logic reads: the vote budget and the number of candidates to pick. */
  datatype Coupon = Coupon(votes: int, eligibleCandidateCounts: int)

  function Max(a: int, b: int): int
  {
    if a < b then b else a
  }

  /**
   `cands.slice(0, n)`: by the ECMAScript rule for `Array.prototype.slice`, a
   negative end counts back from the length, and the end is clamped to
   `0 .. |cands|`.
   */
  function FirstN(cands: seq<CandidateId>, n: int): (r: seq<CandidateId>)
    ensures r <= cands
    ensures 0 <= n ==> |r| == if n < |cands| then n else |cands|
    ensures n < 0 ==> |r| == Max(|cands| + n, 0)
  {
    var end := if n < 0 then Max(|cands| + n, 0) else if n < |cands| then n else |cands|;
    cands[..end]
  }

  /** The tail of a list without duplicates has none, and does not hold the head. */
  lemma DistinctTail(s: seq<CandidateId>)
    requires s != []
    ensures Distinct(s) ==> Distinct(s[1..]) && s[0] !in s[1..]
  {
  }

  /** `s.filter(x => x !== id)`. */
  function Without(s: seq<CandidateId>, id: CandidateId): (r: seq<CandidateId>)
    ensures |r| <= |s|
    ensures forall x :: x in r <==> x in s && x != id
    ensures Distinct(s) ==> Distinct(r)
  {
    if s == [] then []
    else if s[0] == id then Without(s[1..], id)
    else
      DistinctTail(s);
      [s[0]] + Without(s[1..], id)
  }

  /** Filtering out an id that is not there changes nothing. */
  lemma {:induction false} WithoutAbsent(s: seq<CandidateId>, id: CandidateId)
    requires id !in s
    ensures Without(s, id) == s
  {
    if s != [] {
      WithoutAbsent(s[1..], id);
    }
  }

  /** In a list without duplicates, filtering out `s[i]` cuts out position `i` and keeps the rest in order. */
  lemma {:induction false} WithoutRemovesOne(s: seq<CandidateId>, i: nat)
    requires Distinct(s) && i < |s|
    ensures Without(s, s[i]) == s[..i] + s[i + 1..]
  {
    var tail := s[1..];
    DistinctTail(s);
    if i == 0 {
      WithoutAbsent(tail, s[0]);
    } else {
      assert tail[i - 1] == s[i];
      WithoutRemovesOne(tail, i - 1);
      assert s[..i] + s[i + 1..] == [s[0]] + (tail[..i - 1] + tail[i..]);
    }
  }

  /**
   `handleCandidateSelect(id)`: an id already selected is removed; otherwise it
   is appended if fewer than `cap` ids are selected, and ignored if not.
   */
  function Toggled(s: seq<CandidateId>, id: CandidateId, cap: int): (r: seq<CandidateId>)
    ensures id in r <==> id !in s && |s| < cap
    ensures forall x :: x != id ==> (x in r <==> x in s)
    ensures Distinct(s) ==> Distinct(r)
    ensures |r| <= |s| || |r| <= cap
    ensures id !in s && |s| < cap ==> r == s + [id]
    ensures id !in s && cap <= |s| ==> r == s
  {
    if id in s then Without(s, id)
    else if |s| < cap then s + [id]
    else s
  }

  /** Deselecting a selected id cuts it out and keeps the other ids in their order. */
  lemma ToggleRemovesInPlace(s: seq<CandidateId>, i: nat, cap: int)
    requires Distinct(s) && i < |s|
    ensures Toggled(s, s[i], cap) == s[..i] + s[i + 1..]
  {
    WithoutRemovesOne(s, i);
  }

  /** The selection after the user clicks the checkboxes of `ids`, in order. */
  function ToggleAll(s: seq<CandidateId>, ids: seq<CandidateId>, cap: int): seq<CandidateId>
    decreases |ids|
  {
    if ids == [] then s else ToggleAll(Toggled(s, ids[0], cap), ids[1..], cap)
  }

  /**
   No sequence of clicks makes the selection hold a duplicate or more than
   `cap` ids (none at all when `cap` is negative); in particular, starting
   from the empty selection.
   */
  lemma {:induction false} TogglesKeepSelectionBounded(s: seq<CandidateId>, ids: seq<CandidateId>, cap: int)
    requires Distinct(s) && |s| <= Max(cap, 0)
    ensures Distinct(ToggleAll(s, ids, cap)) && |ToggleAll(s, ids, cap)| <= Max(cap, 0)
    decreases |ids|
  {
    if ids != [] {
      TogglesKeepSelectionBounded(Toggled(s, ids[0], cap), ids[1..], cap);
    }
  }

  /**
   `remainingVotes`: the budget minus the sum of the counters, so that what
   remains and what is allocated add up to the budget; NaN if the sum is NaN.
   */
  function RemainingVotes(c: Coupon, t: Tally): (r: Num)
    requires t.Valid()
    ensures r.Int? <==> Sum(t).Int?
    ensures r.Int? ==> r.value + Sum(t).value == c.votes
    ensures Integral(t) ==> r.Int?
    ensures Poisoned(t) ==> r == NaN
  {
    match Sum(t)
    case Int(s) => Int(c.votes - s)
    case NaN => NaN
  }

  /**
   The + button is enabled unless `remainingVotes <= 0`. A comparison with NaN
   is false, so + is enabled exactly when fewer votes than the budget are
   allocated, or the sum is NaN.
   */
  function CanIncrement(c: Coupon, t: Tally): (enabled: bool)
    requires t.Valid()
    ensures enabled <==> Sum(t) == NaN || Sum(t).value < c.votes
  {
    var remaining := RemainingVotes(c, t);
    !(remaining.Int? && remaining.value <= 0)
  }

  /**
   The - button is enabled unless `remainingVotes === coupon.votes`. NaN equals
   nothing, so - is enabled exactly when the allocated sum is not 0: some
   vote is allocated (or taken away), or the sum is NaN.
   */
  function CanDecrement(c: Coupon, t: Tally): (enabled: bool)
    requires t.Valid()
    ensures enabled <==> Sum(t) != Int(0)
  {
    var remaining := RemainingVotes(c, t);
    !(remaining.Int? && remaining.value == c.votes)
  }

  /**
   The `isDisabled` flag of the confirm button: some vote is left, or the
   first-`eligibleCandidateCounts` slice of the candidate list is shorter than
   `eligibleCandidateCounts`. The user's selection is not an argument:
   confirm is enabled exactly when the counters add up to the whole budget and
   the candidate list has at least `eligibleCandidateCounts` entries.
   */
  function ConfirmDisabled(c: Coupon, cands: seq<CandidateId>, t: Tally): (disabled: bool)
    requires t.Valid()
    ensures !disabled <==> Sum(t) == Int(c.votes) && 0 <= c.eligibleCandidateCounts <= |cands|
  {
    RemainingVotes(c, t) != Int(0) || |FirstN(cands, c.eligibleCandidateCounts)| != c.eligibleCandidateCounts
  }

  /** Every counter is an integer and `0 <= remainingVotes <= coupon.votes`. */
  ghost predicate WithinBudget(c: Coupon, t: Tally)
  {
    t.Valid() && Integral(t) && RemainingVotes(c, t).Int? && 0 <= RemainingVotes(c, t).value <= c.votes
  }

  /**
   The initialisation effect gives each of the first `eligibleCandidateCounts`
   candidates a counter of 0 and no one else a counter, so the whole budget
   remains.
   */
  lemma InitialVotes(c: Coupon, cands: seq<CandidateId>)
    ensures var t := ZeroTally(FirstN(cands, c.eligibleCandidateCounts));
      && (forall id :: id in t.counts <==> id in FirstN(cands, c.eligibleCandidateCounts))
      && (forall id :: id in t.counts ==> t.counts[id] == Int(0))
      && RemainingVotes(c, t) == Int(c.votes)
      && (0 <= c.votes ==> WithinBudget(c, t))
  {
    var t := ZeroTally(FirstN(cands, c.eligibleCandidateCounts));
    SumZero(t);
  }

  /**
   An enabled + on a candidate that has a counter adds exactly one vote to it,
   leaves every other counter alone and keeps `0 <= remainingVotes <= coupon.votes`.
   */
  lemma IncrementWithinBudget(c: Coupon, t: Tally, id: CandidateId)
    requires WithinBudget(c, t) && id in t.counts
    requires CanIncrement(c, t)
    ensures WithinBudget(c, Adjust(t, id, 1))
    ensures RemainingVotes(c, Adjust(t, id, 1)) == Int(RemainingVotes(c, t).value - 1)
    ensures Adjust(t, id, 1).counts == t.counts[id := Int(t.counts[id].value + 1)]
  {
    SumAdjust(t, id, 1);
  }

  /**
   An enabled - on a candidate that has a counter takes exactly one vote off
   the total, so `0 <= remainingVotes <= coupon.votes` still holds; it says
   nothing about that candidate's own counter (see DecrementCanGoNegative).
   */
  lemma DecrementWithinBudget(c: Coupon, t: Tally, id: CandidateId)
    requires WithinBudget(c, t) && id in t.counts
    requires CanDecrement(c, t)
    ensures WithinBudget(c, Adjust(t, id, -1))
    ensures RemainingVotes(c, Adjust(t, id, -1)) == Int(RemainingVotes(c, t).value + 1)
    ensures Adjust(t, id, -1).counts == t.counts[id := Int(t.counts[id].value - 1)]
  {
    SumAdjust(t, id, -1);
  }

  /**
   The - guard looks at the total, not at the candidate's own counter: within
   budget, with the button enabled, a counter of 0 can go to -1.
   */
  lemma DecrementCanGoNegative(a: CandidateId, b: CandidateId)
    requires a != b
    ensures var c, t := Coupon(1, 2), Adjust(ZeroTally([a, b]), b, 1);
      && WithinBudget(c, t) && t.counts[a] == Int(0)
      && CanDecrement(c, t)
      && Adjust(t, a, -1).counts[a] == Int(-1)
  {
    var c, t0 := Coupon(1, 2), ZeroTally([a, b]);
    assert a in t0.counts && b in t0.counts;
    SumZero(t0);
    IncrementWithinBudget(c, t0, b);
  }

  /**
   A + or - on a candidate without a counter (one outside the first
   `eligibleCandidateCounts`), or on any candidate once some counter is NaN,
   leaves a NaN counter behind (`AdjustPoisons`): `remainingVotes` is NaN,
   both buttons stay enabled, and confirm is disabled.
   */
  lemma CounterOutsideTallyBlocksConfirm(c: Coupon, cands: seq<CandidateId>, t: Tally, id: CandidateId, delta: int)
    requires t.Valid() && (id !in t.counts || Poisoned(t))
    ensures RemainingVotes(c, Adjust(t, id, delta)) == NaN
    ensures CanIncrement(c, Adjust(t, id, delta))
    ensures CanDecrement(c, Adjust(t, id, delta))
    ensures ConfirmDisabled(c, cands, Adjust(t, id, delta))
  {
    AdjustPoisons(t, id, delta);
  }

  /** A click on the + or the - of a candidate's counter. */
  datatype CounterClick = Plus(id: CandidateId) | Minus(id: CandidateId)

  /**
   The counters after one click: an enabled + adds one vote, an enabled -
   takes one off, a disabled button changes nothing.
   */
  function ClickCounter(c: Coupon, t: Tally, k: CounterClick): (r: Tally)
    requires t.Valid()
    ensures r.Valid()
    ensures k.Plus? && CanIncrement(c, t) ==> r == Adjust(t, k.id, 1)
    ensures k.Minus? && CanDecrement(c, t) ==> r == Adjust(t, k.id, -1)
    ensures k.Plus? && !CanIncrement(c, t) ==> r == t
    ensures k.Minus? && !CanDecrement(c, t) ==> r == t
  {
    match k
    case Plus(id) => if CanIncrement(c, t) then Adjust(t, id, 1) else t
    case Minus(id) => if CanDecrement(c, t) then Adjust(t, id, -1) else t
  }

  /** The counters after the clicks `ks`, in order. */
  function ClickCounters(c: Coupon, t: Tally, ks: seq<CounterClick>): (r: Tally)
    requires t.Valid()
    ensures r.Valid()
    decreases |ks|
  {
    if ks == [] then t else ClickCounters(c, ClickCounter(c, t, ks[0]), ks[1..])
  }

  /**
   One click keeps the counters either within budget (all integers, with
   `0 <= remainingVotes <= coupon.votes`) or poisoned by a NaN.
   */
  lemma ClickKeepsBudgetOrPoison(c: Coupon, t: Tally, k: CounterClick)
    requires t.Valid() && (WithinBudget(c, t) || Poisoned(t))
    ensures WithinBudget(c, ClickCounter(c, t, k)) || Poisoned(ClickCounter(c, t, k))
  {
    var r := ClickCounter(c, t, k);
    if r != t {
      if k.id !in t.counts || Poisoned(t) {
        AdjustPoisons(t, k.id, if k.Plus? then 1 else -1);
      } else if k.Plus? {
        IncrementWithinBudget(c, t, k.id);
      } else {
        DecrementWithinBudget(c, t, k.id);
      }
    }
  }

  /**
   Over any sequence of + and - clicks, on any candidates, the counters stay
   within budget or poisoned; a state within budget never leaves it without a
   click on a candidate that has no counter.
   */
  lemma {:induction false} ClicksKeepBudgetOrPoison(c: Coupon, t: Tally, ks: seq<CounterClick>)
    requires t.Valid() && (WithinBudget(c, t) || Poisoned(t))
    ensures WithinBudget(c, ClickCounters(c, t, ks)) || Poisoned(ClickCounters(c, t, ks))
    decreases |ks|
  {
    if ks != [] {
      ClickKeepsBudgetOrPoison(c, t, ks[0]);
      ClicksKeepBudgetOrPoison(c, ClickCounter(c, t, ks[0]), ks[1..]);
    }
  }

  /** The modal's component state, updated in place by its event handlers. */
  class PayModalState {
    const coupon: Coupon
    const candidates: seq<CandidateId>
    var paymentMethod: PaymentMethod
    var selectedCandidateIds: seq<CandidateId>
    var votesPerCandidate: Tally

    /**
     The votes object is well formed; the selection holds only listed
     candidates (a checkbox is rendered for each of them and no other), has
     no duplicate and at most `eligibleCandidateCounts` ids.
     */
    ghost predicate Valid()
      reads this
    {
      && votesPerCandidate.Valid()
      && (forall x :: x in selectedCandidateIds ==> x in candidates)
      && Distinct(selectedCandidateIds)
      && |selectedCandidateIds| <= Max(coupon.eligibleCandidateCounts, 0)
    }

    /** The state when the modal is mounted: eSewa, nothing selected, an empty votes object. */
    constructor (coupon: Coupon, candidates: seq<CandidateId>)
      ensures Valid()
      ensures this.coupon == coupon && this.candidates == candidates
      ensures paymentMethod == Esewa && selectedCandidateIds == [] && votesPerCandidate == Empty()
    {
      this.coupon := coupon;
      this.candidates := candidates;
      paymentMethod := Esewa;
      selectedCandidateIds := [];
      votesPerCandidate := Empty();
    }

    /** The initialisation effect: if the votes object has no key, build one with a 0 for each of the first `eligibleCandidateCounts` candidates. */
    method InitialiseVotes()
      requires Valid()
      modifies this`votesPerCandidate
      ensures Valid()
      ensures votesPerCandidate ==
        if old(votesPerCandidate).keys == [] then ZeroTally(FirstN(candidates, coupon.eligibleCandidateCounts))
        else old(votesPerCandidate)
    {
      if |votesPerCandidate.keys| == 0 {
        var selectedCandidates := FirstN(candidates, coupon.eligibleCandidateCounts);
        var initialVotes := Empty();
        for i := 0 to |selectedCandidates|
          invariant initialVotes == ZeroTally(selectedCandidates[..i])
        {
          ghost var prefix := selectedCandidates[..i + 1];
          assert prefix[..i] == selectedCandidates[..i] && prefix[i] == selectedCandidates[i];
          assert ZeroTally(prefix) == Put(ZeroTally(prefix[..i]), prefix[i], Int(0));
          initialVotes := Put(initialVotes, selectedCandidates[i], Int(0));
        }
        assert selectedCandidates[..|selectedCandidates|] == selectedCandidates;
        votesPerCandidate := initialVotes;
      }
    }

    /** `handleCandidateSelect`, fired by the checkbox of a listed candidate: toggles `id` in the selection; the votes are not touched. */
    method HandleCandidateSelect(id: CandidateId)
      requires Valid() && id in candidates
      modifies this`selectedCandidateIds
      ensures Valid()
      ensures selectedCandidateIds == Toggled(old(selectedCandidateIds), id, coupon.eligibleCandidateCounts)
    {
      if id in selectedCandidateIds {
        selectedCandidateIds := Without(selectedCandidateIds, id);
      } else if |selectedCandidateIds| < coupon.eligibleCandidateCounts {
        selectedCandidateIds := selectedCandidateIds + [id];
      }
    }

    /**
     A click on the + of candidate `id`. The button exists only for a selected
     candidate and is disabled when `remainingVotes <= 0`; `clicked` says
     whether the click reached the handler.
     */
    method IncrementVotes(id: CandidateId) returns (clicked: bool)
      requires Valid()
      modifies this`votesPerCandidate
      ensures Valid()
      ensures clicked == (id in selectedCandidateIds && CanIncrement(coupon, old(votesPerCandidate)))
      ensures votesPerCandidate == if clicked then Adjust(old(votesPerCandidate), id, 1) else old(votesPerCandidate)
      ensures id in selectedCandidateIds ==> votesPerCandidate == ClickCounter(coupon, old(votesPerCandidate), Plus(id))
    {
      clicked := id in selectedCandidateIds && CanIncrement(coupon, votesPerCandidate);
      if clicked {
        votesPerCandidate := Adjust(votesPerCandidate, id, 1);
      }
    }

    /**
     A click on the - of candidate `id`. The button exists only for a selected
     candidate and is disabled when `remainingVotes === coupon.votes`.
     */
    method DecrementVotes(id: CandidateId) returns (clicked: bool)
      requires Valid()
      modifies this`votesPerCandidate
      ensures Valid()
      ensures clicked == (id in selectedCandidateIds && CanDecrement(coupon, old(votesPerCandidate)))
      ensures votesPerCandidate == if clicked then Adjust(old(votesPerCandidate), id, -1) else old(votesPerCandidate)
      ensures id in selectedCandidateIds ==> votesPerCandidate == ClickCounter(coupon, old(votesPerCandidate), Minus(id))
    {
      clicked := id in selectedCandidateIds && CanDecrement(coupon, votesPerCandidate);
      if clicked {
        votesPerCandidate := Adjust(votesPerCandidate, id, -1);
      }
    }

    /** A click on one of the two payment radio buttons. */
    method SelectPaymentMethod(m: PaymentMethod)
      requires Valid()
      modifies this`paymentMethod
      ensures Valid()
      ensures paymentMethod == m
    {
      paymentMethod := m;
    }
  }
}
