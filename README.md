# Pay modal vote allocation, modelled in Dafny

The pay modal of the voting site lets a user buy a coupon. The coupon carries
a vote budget (`votes`) and a number of candidates to vote for
(`eligibleCandidateCounts`). Before paying, the user ticks candidates and
spreads the budget over them with + and - counters. The modal keeps three
pieces of component state: the list of ticked candidate ids, an object from
candidate id to vote counter, and the payment method (eSewa or Stripe). Two
values are derived from that state: `remainingVotes` and the disabled flag of
the confirm button.

The project has three modules:

- `Votes` (`votes.dfy`) models the `votesPerCandidate` object with JavaScript semantics.
  - A JavaScript object lists its string keys that are not array indices in insertion order; keys that are array indices, such as "7", come first in numeric order. The object is modelled as a `Tally`: the key list, in insertion order, plus a map from key to value.
  - The spread update `{ ...prev, [id]: v }` keeps an existing key in place and appends a new key at the end.
  - A counter is an integer or NaN (`Num`). Reading a missing key gives `undefined` (for ids that are not `Object.prototype` property names), and `undefined + 1` is NaN.
  - `Object.values(...).reduce(+, 0)` is the left fold `Total`. The lemmas relate the fold before and after an update.
- `PayModal` (`pay_modal.dfy`) holds the rest of the modal's logic.
  - Pure parts: the coupon, `Array.prototype.slice(0, n)` with its negative-end rule, the selection toggle, `remainingVotes`, the button guards and the confirm flag.
  - The lemmas state what the transitions keep.
  - The class `PayModalState` holds the component state. Its methods are the event handlers and the initialisation effect, and they update the fields in place.
- `PayModalScenarios` (`scenarios.dfy`) replays click sequences on `PayModalState`. They are proved from the class contracts and the lemmas alone:
  - five votes each for two candidates, after which an eleventh + is ignored;
  - a third selection past a cap of two, which is ignored;
  - confirm enabled with only one of two candidates selected, and with nothing selected after voting;
  - a counter driven to -1;
  - a + on a candidate without a counter, which leaves confirm disabled for good.

Every event handler fires only for a control that is rendered and enabled:

- A checkbox exists for each listed candidate and no other, so `HandleCandidateSelect` takes a listed id.
- The + and - buttons exist only for a ticked candidate.
- + is disabled when `remainingVotes <= 0`.
- - is disabled when `remainingVotes === coupon.votes`.

`IncrementVotes` and `DecrementVotes` therefore return whether the click reached the handler, and do nothing otherwise. They need no precondition beyond `Valid()`.

The model follows the code, including these behaviours a reader may not expect:

- The confirm gate compares `eligibleCandidateCounts` with the length of `candidates.slice(0, eligibleCandidateCounts)`, not with the number of ticked candidates (`ConfirmDisabled`). With two candidates listed, confirm is enabled even when only one, or none, is ticked (`OneOfTwoSelected`, `DeselectAfterVoting`).
- The - guard checks the total, not the candidate's own counter. So a single counter can go below zero (`DecrementCanGoNegative`, `CounterBelowZero`). Only the total stays within `0 .. votes`: over any click sequence the counters stay within budget unless a NaN counter has appeared (`ClicksKeepBudgetOrPoison`).
- The controls appear for every ticked candidate. Only the first `eligibleCandidateCounts` candidates get a counter. A + on any other ticked candidate stores NaN, and confirm then stays disabled (`CounterOutsideTallyBlocksConfirm`). The model keeps this NaN behaviour instead of requiring that the id be a key.
- The selection is an ordered list (toggled off with `filter`, appended at the end), not a set.

## Model

| member | source | states |
|---|---|---|
| `Votes.AddLaws` | src/helpers/ui/PayModal.tsx:43 | JavaScript `+` on counters, NaN included, has 0 as identity and is commutative and associative |
| `Votes.Empty` | src/helpers/ui/PayModal.tsx:20 | the literal `{}` is a well-formed object with no entry whose values sum to 0 |
| `Votes.GetPut` | src/helpers/ui/PayModal.tsx:118-122 | after `{ ...prev, [id]: v }`, reading `id` gives `v` and reading any other key gives what it gave before |
| `Votes.Put` | src/helpers/ui/PayModal.tsx:118-122 | the spread update keeps the object well formed (keys distinct and matching the entries); it sets only `id`, keeps an existing key's position and appends a new key last |
| `Votes.Adjust` | src/helpers/ui/PayModal.tsx:118-122 | the +/- updater adds `delta` to an integer counter, makes a missing or NaN counter NaN, and leaves every other entry and key unchanged |
| `Votes.Total` | src/helpers/ui/PayModal.tsx:43 | the left fold of `+` from 0 over the values is an integer when every folded value is one, and NaN as soon as one of them is NaN |
| `Votes.Sum` | src/helpers/ui/PayModal.tsx:43 | `Object.values(...).reduce((acc, curr) => acc + curr, 0)` is 0 for `{}`, an integer when every counter is one, and NaN when some counter is NaN |
| `Votes.TotalRemoveAt` | src/helpers/ui/PayModal.tsx:43 | the fold equals the fold with one position cut out, plus the value at that position |
| `Votes.TotalReorder` | src/helpers/ui/PayModal.tsx:43 | two duplicate-free key lists holding the same keys fold to the same total |
| `Votes.SumOrderIndependent` | src/helpers/ui/PayModal.tsx:43 | two objects with the same entries have the same `reduce` sum, whatever order `Object.values` lists them in |
| `Votes.TotalUpdate` | src/helpers/ui/PayModal.tsx:43 | in the ordered sum over distinct keys, replacing one value changes only its summand: new total + old value = old total + new value, NaN included |
| `Votes.SumPut` | src/helpers/ui/PayModal.tsx:43 | `Object.values(...).reduce` after a spread update: for an existing key the summand is replaced; for a new key the value is added |
| `Votes.SumAdjust` | src/helpers/ui/PayModal.tsx:43 | with every counter an integer, adding `delta` to an existing counter keeps all counters integers and adds exactly `delta` to the sum |
| `Votes.SumZero` | src/helpers/ui/PayModal.tsx:43 | an object whose counters are all 0 sums to 0 |
| `Votes.AdjustPoisons` | src/helpers/ui/PayModal.tsx:118-122 | adjusting a missing key, or any key once some counter is NaN, leaves a NaN counter and a NaN sum |
| `Votes.ZeroTally` | src/helpers/ui/PayModal.tsx:25-28 | the `forEach` that fills `initialVotes` yields a well-formed object whose keys are exactly the given ids, each mapped to 0 |
| `PayModal.FirstN` | src/helpers/ui/PayModal.tsx:15 | `slice(0, n)` is a prefix of the candidate list; its length is min(n, length) for n >= 0 and max(length + n, 0) for n < 0 |
| `PayModal.Without` | src/helpers/ui/PayModal.tsx:35 | `filter(id => id !== candidateId)` keeps exactly the other ids, is no longer than its input and keeps a duplicate-free list duplicate-free |
| `PayModal.WithoutRemovesOne` | src/helpers/ui/PayModal.tsx:35 | on a duplicate-free list, filtering out the id at position i cuts out that position and keeps the others in order |
| `PayModal.Toggled` | src/helpers/ui/PayModal.tsx:33-41 | the toggle holds `id` afterwards iff it was absent and fewer than `cap` ids were selected; other ids keep their membership; no duplicate appears; the length stays within the old length or `cap`; a new id is appended last; at capacity an absent id leaves the list unchanged |
| `PayModal.ToggleRemovesInPlace` | src/helpers/ui/PayModal.tsx:34-35 | toggling a selected id removes it and keeps the other ids in their order |
| `PayModal.TogglesKeepSelectionBounded` | src/helpers/ui/PayModal.tsx:33-41 | from any duplicate-free selection of at most max(cap, 0) ids, including the initial empty one, no sequence of toggles creates a duplicate or exceeds max(cap, 0) ids |
| `PayModal.RemainingVotes` | src/helpers/ui/PayModal.tsx:43 | `remainingVotes` plus the allocated sum is exactly `coupon.votes`; it is an integer iff the sum is, so always when every counter is an integer, and NaN once a counter is NaN |
| `PayModal.CanIncrement` | src/helpers/ui/PayModal.tsx:121-122 | + is enabled iff the allocated sum is NaN (every comparison with NaN is false) or below `coupon.votes` |
| `PayModal.CanDecrement` | src/helpers/ui/PayModal.tsx:118-119 | - is enabled iff the allocated sum is not 0: NaN (which equals nothing) or any non-zero integer |
| `PayModal.ConfirmDisabled` | src/helpers/ui/PayModal.tsx:143 | confirm is enabled iff the counters sum to `coupon.votes` and 0 <= `eligibleCandidateCounts` <= number of candidates; the selection is not an input |
| `PayModal.InitialVotes` | src/helpers/ui/PayModal.tsx:22-31 | after initialisation the keys are exactly the first `eligibleCandidateCounts` candidates, all 0; `remainingVotes == coupon.votes`; within budget when the budget is non-negative |
| `PayModal.IncrementWithinBudget` | src/helpers/ui/PayModal.tsx:121-122 | an enabled + on a candidate with a counter adds 1 to that counter only, lowers `remainingVotes` by 1 and keeps 0 <= `remainingVotes` <= `coupon.votes` |
| `PayModal.DecrementWithinBudget` | src/helpers/ui/PayModal.tsx:118-119 | an enabled - on a candidate with a counter subtracts 1 from that counter only, raises `remainingVotes` by 1 and keeps 0 <= `remainingVotes` <= `coupon.votes` |
| `PayModal.DecrementCanGoNegative` | src/helpers/ui/PayModal.tsx:118-119 | with a budget of 1 over two candidates, after initialisation and one + on the second, the state is within budget, - is enabled on the first candidate's counter of 0 and takes it to -1 |
| `PayModal.CounterOutsideTallyBlocksConfirm` | src/helpers/ui/PayModal.tsx:116-122 | a +/- on a ticked candidate without a counter, or on any candidate once a counter is NaN, makes `remainingVotes` NaN; both buttons stay enabled and confirm is disabled |
| `PayModal.ClickCounter` | src/helpers/ui/PayModal.tsx:118-122 | one click keeps the object well formed; an enabled + (per `CanIncrement`) applies the updater with +1, an enabled - (per `CanDecrement`) the updater with -1, and a disabled button changes nothing |
| `PayModal.ClickCounters` | src/helpers/ui/PayModal.tsx:118-122 | any sequence of +/- clicks keeps the object well formed |
| `PayModal.ClickKeepsBudgetOrPoison` | src/helpers/ui/PayModal.tsx:116-122 | from a state within budget or holding a NaN counter, one click leads again to a state within budget (all integers, 0 <= `remainingVotes` <= `coupon.votes`) or holding a NaN counter |
| `PayModal.ClicksKeepBudgetOrPoison` | src/helpers/ui/PayModal.tsx:116-122 | the same for every sequence of +/- clicks on any candidates |
| `PayModal.PayModalState.constructor` | src/helpers/ui/PayModal.tsx:11-20 | initial state: payment method eSewa, empty selection, empty votes object |
| `PayModal.PayModalState.InitialiseVotes` | src/helpers/ui/PayModal.tsx:22-31 | if the votes object has no key it becomes the zero object over `candidates.slice(0, eligibleCandidateCounts)`; otherwise nothing changes; the loop keeps the partial object equal to the zero object over the prefix done |
| `PayModal.PayModalState.HandleCandidateSelect` | src/helpers/ui/PayModal.tsx:33-41 | for the checkbox of a listed candidate, the selection becomes `Toggled(old selection, id, eligibleCandidateCounts)`; the votes are untouched; the state invariant (only listed candidates, no duplicate, at most max(cap, 0) ids) is kept |
| `PayModal.PayModalState.IncrementVotes` | src/helpers/ui/PayModal.tsx:116-122 | the click takes effect iff `id` is ticked and not `remainingVotes <= 0`; then the votes object becomes `Adjust(old, id, 1)`, otherwise it is unchanged; for a ticked id this is `ClickCounter` on `Plus(id)` |
| `PayModal.PayModalState.DecrementVotes` | src/helpers/ui/PayModal.tsx:116-119 | the click takes effect iff `id` is ticked and not `remainingVotes === coupon.votes`; then the votes object becomes `Adjust(old, id, -1)`, otherwise it is unchanged; for a ticked id this is `ClickCounter` on `Minus(id)` |
| `PayModal.PayModalState.SelectPaymentMethod` | src/helpers/ui/PayModal.tsx:76-91 | a click on a payment radio sets the payment method to that radio's value and keeps the state invariant |

## Left out

- Rendering: the JSX markup, CSS class choices, images, the NextUI `Modal` and `useDisclosure` open/close state, and the displayed texts. These are presentation.
- The Redux store read through `useAppSelector`. The candidate list is a constructor argument holding the candidate ids, taken as already loaded; names, nationalities and pictures are display data.
- The `Confirm` component and the payment behind it. `ConfirmModal` is not part of this model; only its `isDisabled` input is modelled.
- The coupon's `pricing` and `name`: they are only displayed.
- React scheduling. The effect is one explicit step (`InitialiseVotes`), and the state updates of one click are applied at once. The model does not capture the effect running again after every render. Once the votes object has a key, those runs do nothing. With an empty slice, each run sets a fresh `{}`, and the renders repeat without end.
- JavaScript numbers are IEEE doubles. The model uses unbounded integers, so precision loss beyond 2^53 and fractional or NaN coupon fields are not modelled.
- Key order of array-index ids: candidate ids are taken not to be array-index strings such as "7", which JavaScript lists before the other keys, in numeric order. Nothing computed here depends on the key order: the sum is the same in any order (`SumOrderIndependent`).
- `Object.prototype` property names as ids: candidate ids are taken not to be names such as "constructor" or "__proto__". In JavaScript, `prev["constructor"] + 1` reads an inherited function and gives a string, and `initialVotes["__proto__"] = 0` goes through the prototype setter and creates no key; the model gives such an id a counter like any other.
- `Footer.tsx` and `SkeletonBanner.tsx`: static markup with no behaviour.
