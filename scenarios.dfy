/**
 Client runs of the pay modal state, proved from the contracts of
 `PayModalState` and the lemmas of `PayModal` alone. Each method opens the
 modal on candidates "A", "B" (and "C"), runs the initialisation effect, and
 then replays a sequence of clicks.
 */
module PayModalScenarios {
  import opened Votes
  import opened PayModal

  /** Opens the modal and runs the initialisation effect: "A" and "B" get a counter of 0. */
  method OpenModal(coupon: Coupon, cands: seq<CandidateId>) returns (m: PayModalState)
    requires coupon.votes >= 0 && coupon.eligibleCandidateCounts == 2
    requires |cands| >= 2 && cands[0] == "A" && cands[1] == "B"
    ensures fresh(m) && m.Valid()
    ensures m.coupon == coupon && m.candidates == cands && m.selectedCandidateIds == []
    ensures m.votesPerCandidate.counts == map["A" := Int(0), "B" := Int(0)]
    ensures WithinBudget(coupon, m.votesPerCandidate) && RemainingVotes(coupon, m.votesPerCandidate) == Int(coupon.votes)
  {
    m := new PayModalState(coupon, cands);
    m.InitialiseVotes();
    InitialVotes(coupon, cands);
    ghost var slice := FirstN(cands, 2);
    assert |slice| == 2 && slice[0] == cands[0] && slice[1] == cands[1];
    assert slice == ["A", "B"];
  }

  /** Clicks the + of `id` `n` times while at least `n` votes remain. */
  method ClickPlus(m: PayModalState, id: CandidateId, n: nat)
    requires m.Valid() && WithinBudget(m.coupon, m.votesPerCandidate)
    requires id in m.selectedCandidateIds && id in m.votesPerCandidate.counts
    requires RemainingVotes(m.coupon, m.votesPerCandidate).value >= n
    modifies m
    ensures m.Valid() && WithinBudget(m.coupon, m.votesPerCandidate)
    ensures m.selectedCandidateIds == old(m.selectedCandidateIds)
    ensures id in m.votesPerCandidate.counts
    ensures m.votesPerCandidate.counts ==
      old(m.votesPerCandidate.counts)[id := Int(old(m.votesPerCandidate.counts[id]).value + n)]
    ensures RemainingVotes(m.coupon, m.votesPerCandidate) == Int(old(RemainingVotes(m.coupon, m.votesPerCandidate)).value - n)
  {
    var i := 0;
    while i < n
      invariant 0 <= i <= n
      invariant m.Valid() && WithinBudget(m.coupon, m.votesPerCandidate)
      invariant m.selectedCandidateIds == old(m.selectedCandidateIds)
      invariant id in m.votesPerCandidate.counts
      invariant m.votesPerCandidate.counts ==
        old(m.votesPerCandidate.counts)[id := Int(old(m.votesPerCandidate.counts[id]).value + i)]
      invariant RemainingVotes(m.coupon, m.votesPerCandidate) == Int(old(RemainingVotes(m.coupon, m.votesPerCandidate)).value - i)
    {
      IncrementWithinBudget(m.coupon, m.votesPerCandidate, id);
      var clicked := m.IncrementVotes(id);
      assert clicked;
      i := i + 1;
    }
  }

  /** Ten votes over two candidates, five each: nothing remains and confirm is enabled. */
  method SplitEvenly()
  {
    var coupon := Coupon(10, 2);
    var m := OpenModal(coupon, ["A", "B"]);
    m.HandleCandidateSelect("A");
    m.HandleCandidateSelect("B");
    assert m.selectedCandidateIds == ["A", "B"];
    ClickPlus(m, "A", 5);
    ClickPlus(m, "B", 5);
    assert RemainingVotes(coupon, m.votesPerCandidate) == Int(0);
    assert !ConfirmDisabled(coupon, m.candidates, m.votesPerCandidate);

    // An eleventh + finds the button disabled and changes nothing.
    var clicked := m.IncrementVotes("A");
    assert !clicked;
  }

  /**
   Only "A" selected, all ten votes on it: confirm is nevertheless enabled,
   because the gate counts the first two candidates of the list, not the
   selection.
   */
  method OneOfTwoSelected()
  {
    var coupon := Coupon(10, 2);
    var m := OpenModal(coupon, ["A", "B"]);
    m.HandleCandidateSelect("A");
    ClickPlus(m, "A", 10);
    assert |m.selectedCandidateIds| == 1;
    assert !ConfirmDisabled(coupon, m.candidates, m.votesPerCandidate);
  }

  /** Votes stay with a deselected candidate, and confirm is enabled with nothing selected. */
  method DeselectAfterVoting()
  {
    var coupon := Coupon(2, 2);
    var m := OpenModal(coupon, ["A", "B"]);
    m.HandleCandidateSelect("A");
    ClickPlus(m, "A", 2);
    m.HandleCandidateSelect("A");
    assert m.selectedCandidateIds == [];
    assert m.votesPerCandidate.counts["A"] == Int(2);
    assert !ConfirmDisabled(coupon, m.candidates, m.votesPerCandidate);
  }

  /** With two candidates selected, a third click on an unselected one is ignored. */
  method ThirdSelectionIgnored()
  {
    var coupon := Coupon(10, 2);
    var m := OpenModal(coupon, ["A", "B", "C"]);
    m.HandleCandidateSelect("A");
    m.HandleCandidateSelect("B");
    m.HandleCandidateSelect("C");
    assert m.selectedCandidateIds == ["A", "B"];
  }

  /** A vote on "B" enables every -, so "A" can be taken from 0 to -1. */
  method CounterBelowZero()
  {
    var coupon := Coupon(10, 2);
    var m := OpenModal(coupon, ["A", "B"]);
    m.HandleCandidateSelect("A");
    m.HandleCandidateSelect("B");
    ClickPlus(m, "B", 1);
    DecrementWithinBudget(coupon, m.votesPerCandidate, "A");
    var clicked := m.DecrementVotes("A");
    assert clicked;
    assert m.votesPerCandidate.counts["A"] == Int(-1);
    assert WithinBudget(coupon, m.votesPerCandidate);
  }

  /** Opens the modal with one eligible candidate: only "A" gets a counter. */
  method OpenModalForOne(coupon: Coupon, cands: seq<CandidateId>) returns (m: PayModalState)
    requires coupon.votes >= 0 && coupon.eligibleCandidateCounts == 1
    requires |cands| >= 1 && cands[0] == "A"
    ensures fresh(m) && m.Valid()
    ensures m.coupon == coupon && m.candidates == cands && m.selectedCandidateIds == []
    ensures m.votesPerCandidate.counts == map["A" := Int(0)]
    ensures RemainingVotes(coupon, m.votesPerCandidate) == Int(coupon.votes)
  {
    ghost var slice := FirstN(cands, 1);
    assert |slice| == 1 && slice[0] == cands[0];
    assert slice == ["A"];
    m := new PayModalState(coupon, cands);
    m.InitialiseVotes();
    ghost var t := m.votesPerCandidate;
    assert t == ZeroTally(slice);
    assert t.counts.Keys == {"A"} by {
      assert forall id :: id in t.counts <==> id in slice;
    }
    SumZero(t);
  }

  /**
   With one eligible candidate, selecting "B" (which got no counter) and
   clicking its + stores NaN: confirm stays disabled whatever follows.
   */
  method VoteForCandidateWithoutCounter()
  {
    var coupon := Coupon(1, 1);
    var m := OpenModalForOne(coupon, ["A", "B"]);
    assert "B" !in m.votesPerCandidate.counts;
    m.HandleCandidateSelect("B");
    ghost var before := m.votesPerCandidate;
    CounterOutsideTallyBlocksConfirm(coupon, m.candidates, before, "B", 1);
    var clicked := m.IncrementVotes("B");
    assert clicked;
    assert RemainingVotes(coupon, m.votesPerCandidate) == NaN;
    assert ConfirmDisabled(coupon, m.candidates, m.votesPerCandidate);
  }
}
