/** Topping up the stage-A actor wallets from one deployer balance, most important role first. */
module TopUp {
  import opened Numbers
  import opened Wrappers

  datatype Role = Admin | Keeper | Reporter | MarketOperator | Pauser | Canary | Matcher

  /** Position in the funding order: keeper, canary, matcher, reporter, market operator, pauser, admin. */
  function Priority(role: Role): nat {
    match role
    case Keeper => 0
    case Canary => 1
    case Matcher => 2
    case Reporter => 3
    case MarketOperator => 4
    case Pauser => 5
    case Admin => 6
  }

  const FUNDING_PRIORITY: seq<Role> := [Keeper, Canary, Matcher, Reporter, MarketOperator, Pauser, Admin]

  /** A role's position in the funding order, which names every role. */
  lemma PriorityIsPosition(role: Role, k: nat)
    requires k < |FUNDING_PRIORITY|
    ensures Priority(role) == k <==> FUNDING_PRIORITY[k] == role
    ensures Priority(role) < |FUNDING_PRIORITY|
  {
  }

  datatype Target = Target(role: Role, amount: nat)

  datatype Transfer = Transfer(role: Role, current: nat, target: nat, delta: nat)

  datatype Payment = Payment(role: Role, value: nat)

  /** The transfer a target calls for, given the actor's balance: only a shortfall calls for one. */
  function Needed(target: Target, current: nat): seq<Transfer> {
    if current < target.amount then [Transfer(target.role, current, target.amount, target.amount - current)] else []
  }

  function Shortfalls(targets: seq<Target>, balances: map<Role, nat>): seq<Transfer>
    requires forall i :: 0 <= i < |targets| ==> targets[i].role in balances
  {
    if targets == [] then []
    else
      var last := targets[|targets| - 1];
      Shortfalls(targets[..|targets| - 1], balances) + Needed(last, balances[last.role])
  }

  // ---------------------------------------------------------------------------------------------
  // Sorting by priority

  predicate Sorted(transfers: seq<Transfer>) {
    forall i, j :: 0 <= i < j < |transfers| ==> Priority(transfers[i].role) <= Priority(transfers[j].role)
  }

  /** Behind every transfer of the same or a higher priority, as a stable sort places it. */
  function Insert(sorted: seq<Transfer>, t: Transfer): seq<Transfer> {
    if sorted == [] || Priority(sorted[|sorted| - 1].role) <= Priority(t.role) then sorted + [t]
    else Insert(sorted[..|sorted| - 1], t) + [sorted[|sorted| - 1]]
  }

  function SortByPriority(transfers: seq<Transfer>): seq<Transfer> {
    if transfers == [] then []
    else Insert(SortByPriority(transfers[..|transfers| - 1]), transfers[|transfers| - 1])
  }

  lemma {:induction false} InsertBounded(sorted: seq<Transfer>, t: Transfer, bound: nat)
    requires Priority(t.role) <= bound
    requires forall k :: 0 <= k < |sorted| ==> Priority(sorted[k].role) <= bound
    ensures forall k :: 0 <= k < |Insert(sorted, t)| ==> Priority(Insert(sorted, t)[k].role) <= bound
  {
    if !(sorted == [] || Priority(sorted[|sorted| - 1].role) <= Priority(t.role)) {
      InsertBounded(sorted[..|sorted| - 1], t, bound);
    }
  }

  lemma {:induction false} InsertSorts(sorted: seq<Transfer>, t: Transfer)
    requires Sorted(sorted)
    ensures Sorted(Insert(sorted, t))
  {
    if !(sorted == [] || Priority(sorted[|sorted| - 1].role) <= Priority(t.role)) {
      var n := |sorted| - 1;
      hide Priority;
      InsertSorts(sorted[..n], t);
      InsertBounded(sorted[..n], t, Priority(sorted[n].role));
    } else if sorted != [] {
      hide Priority;
      LastIsGreatest(sorted);
    }
  }

  lemma LastIsGreatest(sorted: seq<Transfer>)
    requires Sorted(sorted) && sorted != []
    ensures forall k :: 0 <= k < |sorted| ==> Priority(sorted[k].role) <= Priority(sorted[|sorted| - 1].role)
  {
  }

  lemma {:induction false} InsertPermutes(sorted: seq<Transfer>, t: Transfer)
    ensures multiset(Insert(sorted, t)) == multiset(sorted) + multiset{t}
  {
    if !(sorted == [] || Priority(sorted[|sorted| - 1].role) <= Priority(t.role)) {
      var n := |sorted| - 1;
      InsertPermutes(sorted[..n], t);
      assert sorted == sorted[..n] + [sorted[n]];
    }
  }

  /** Sorting orders the transfers by priority and neither loses nor invents one. */
  lemma {:induction false} SortIsSortedPermutation(transfers: seq<Transfer>)
    ensures Sorted(SortByPriority(transfers))
    ensures multiset(SortByPriority(transfers)) == multiset(transfers)
  {
    if transfers != [] {
      hide Sorted, Insert;
      var n := |transfers| - 1;
      SortIsSortedPermutation(transfers[..n]);
      InsertSorts(SortByPriority(transfers[..n]), transfers[n]);
      InsertPermutes(SortByPriority(transfers[..n]), transfers[n]);
      assert transfers == transfers[..n] + [transfers[n]];
    }
  }

  // ---------------------------------------------------------------------------------------------
  // The waterfall

  function DeltaSum(transfers: seq<Transfer>, k: nat): nat
    requires k <= |transfers|
  {
    if k == 0 then 0 else DeltaSum(transfers, k - 1) + transfers[k - 1].delta
  }

  /** What transfer i receives: its shortfall, as far as what the earlier ones asked for leaves it. */
  function Share(transfers: seq<Transfer>, available: nat, i: nat): nat
    requires i < |transfers|
  {
    Min(transfers[i].delta, Max(0, available - DeltaSum(transfers, i)))
  }

  function ShareSum(transfers: seq<Transfer>, available: nat, k: nat): nat
    requires k <= |transfers|
  {
    if k == 0 then 0 else ShareSum(transfers, available, k - 1) + Share(transfers, available, k - 1)
  }

  /** The first k shares use up what the first k transfers ask for, or everything there is. */
  lemma {:induction false} SharesSumUp(transfers: seq<Transfer>, available: nat, k: nat)
    requires k <= |transfers|
    ensures ShareSum(transfers, available, k) == Min(available, DeltaSum(transfers, k))
  {
    if k > 0 {
      SharesSumUp(transfers, available, k - 1);
    }
  }

  lemma {:induction false} DeltaSumGrows(transfers: seq<Transfer>, i: nat, j: nat)
    requires i <= j <= |transfers|
    ensures DeltaSum(transfers, i) <= DeltaSum(transfers, j)
  {
    if i < j {
      DeltaSumGrows(transfers, i, j - 1);
    }
  }

  /** A role that is not fully funded takes all there is left: every role after it gets nothing. */
  lemma ShortRoleEndsFunding(transfers: seq<Transfer>, available: nat, i: nat, j: nat)
    requires i < j < |transfers|
    requires Share(transfers, available, i) < transfers[i].delta
    ensures Share(transfers, available, j) == 0
  {
    DeltaSumGrows(transfers, i + 1, j);
  }

  function PrefixSum(amounts: seq<nat>, k: nat): nat
    requires k <= |amounts|
  {
    if k == 0 then 0 else PrefixSum(amounts, k - 1) + amounts[k - 1]
  }

  lemma {:induction false} PrefixSumBounds(transfers: seq<Transfer>, amounts: seq<nat>, k: nat)
    requires |amounts| == |transfers| && k <= |amounts|
    requires forall i :: 0 <= i < |amounts| ==> amounts[i] <= transfers[i].delta
    ensures PrefixSum(amounts, k) <= DeltaSum(transfers, k)
  {
    if k > 0 {
      PrefixSumBounds(transfers, amounts, k - 1);
    }
  }

  lemma {:induction false} PrefixSumGrows(amounts: seq<nat>, i: nat, j: nat)
    requires i <= j <= |amounts|
    ensures PrefixSum(amounts, i) <= PrefixSum(amounts, j)
  {
    if i < j {
      PrefixSumGrows(amounts, i, j - 1);
    }
  }

  /** No other way of spending the balance without overshooting a target gives any leading group of roles more. */
  lemma WaterfallIsBest(transfers: seq<Transfer>, available: nat, amounts: seq<nat>, k: nat)
    requires |amounts| == |transfers| && k <= |transfers|
    requires forall i :: 0 <= i < |amounts| ==> amounts[i] <= transfers[i].delta
    requires PrefixSum(amounts, |amounts|) <= available
    ensures PrefixSum(amounts, k) <= ShareSum(transfers, available, k)
  {
    SharesSumUp(transfers, available, k);
    PrefixSumBounds(transfers, amounts, k);
    PrefixSumGrows(amounts, k, |amounts|);
  }

  /** The payments of a waterfall: the funded transfers in order, up to the first that gets nothing. */
  function Payments(transfers: seq<Transfer>, available: nat, k: nat): seq<Payment>
    requires k <= |transfers|
  {
    if k == 0 then []
    else
      Payments(transfers, available, k - 1)
      + if Share(transfers, available, k - 1) > 0
        then [Payment(transfers[k - 1].role, Share(transfers, available, k - 1))] else []
  }

  function TotalPaid(payments: seq<Payment>): nat {
    if payments == [] then 0 else TotalPaid(payments[..|payments| - 1]) + payments[|payments| - 1].value
  }

  lemma {:induction false} PaymentsTotal(transfers: seq<Transfer>, available: nat, k: nat)
    requires k <= |transfers|
    ensures TotalPaid(Payments(transfers, available, k)) == ShareSum(transfers, available, k)
  {
    if k > 0 {
      PaymentsTotal(transfers, available, k - 1);
      var earlier, all := Payments(transfers, available, k - 1), Payments(transfers, available, k);
      if Share(transfers, available, k - 1) > 0 {
        assert all[..|all| - 1] == earlier;
      } else {
        assert all == earlier;
      }
    }
  }

  // ---------------------------------------------------------------------------------------------
  // What the roles end up with, in targets and balances alone

  predicate AllKnown(targets: seq<Target>, balances: map<Role, nat>) {
    forall i :: 0 <= i < |targets| ==> targets[i].role in balances
  }

  /** What a role lacks, over all targets set for it. */
  function MissingOf(targets: seq<Target>, balances: map<Role, nat>, role: Role): nat
    requires AllKnown(targets, balances)
  {
    if targets == [] then 0
    else
      var last := targets[|targets| - 1];
      MissingOf(targets[..|targets| - 1], balances, role)
      + if last.role == role then Max(0, last.amount - balances[role]) else 0
  }

  /** What all roles lack together. */
  function MissingTotal(targets: seq<Target>, balances: map<Role, nat>): nat
    requires AllKnown(targets, balances)
  {
    if targets == [] then 0
    else
      var last := targets[|targets| - 1];
      MissingTotal(targets[..|targets| - 1], balances) + Max(0, last.amount - balances[last.role])
  }

  /** What a role is paid. */
  function Received(payments: seq<Payment>, role: Role): nat {
    if payments == [] then 0
    else
      var last := payments[|payments| - 1];
      Received(payments[..|payments| - 1], role) + if last.role == role then last.value else 0
  }

  function DeltaOf(transfers: seq<Transfer>, k: nat, role: Role): nat
    requires k <= |transfers|
  {
    if k == 0 then 0
    else DeltaOf(transfers, k - 1, role) + if transfers[k - 1].role == role then transfers[k - 1].delta else 0
  }

  function ShareOf(transfers: seq<Transfer>, available: nat, k: nat, role: Role): nat
    requires k <= |transfers|
  {
    if k == 0 then 0
    else
      ShareOf(transfers, available, k - 1, role)
      + if transfers[k - 1].role == role then Share(transfers, available, k - 1) else 0
  }

  lemma {:induction false} SumsOfPrefix(transfers: seq<Transfer>, longer: seq<Transfer>, k: nat, role: Role)
    requires k <= |transfers| && transfers <= longer
    ensures DeltaOf(transfers, k, role) == DeltaOf(longer, k, role) && DeltaSum(transfers, k) == DeltaSum(longer, k)
  {
    if k > 0 {
      SumsOfPrefix(transfers, longer, k - 1, role);
    }
  }

  lemma SumsOneMore(transfers: seq<Transfer>, t: Transfer, role: Role)
    ensures
      var longer := transfers + [t];
      && DeltaOf(longer, |longer|, role) == DeltaOf(transfers, |transfers|, role) + (if t.role == role then t.delta else 0)
      && DeltaSum(longer, |longer|) == DeltaSum(transfers, |transfers|) + t.delta
  {
    SumsOfPrefix(transfers, transfers + [t], |transfers|, role);
  }

  lemma {:induction false} InsertKeepsSums(sorted: seq<Transfer>, t: Transfer, role: Role)
    ensures
      var all := Insert(sorted, t);
      && DeltaOf(all, |all|, role) == DeltaOf(sorted, |sorted|, role) + (if t.role == role then t.delta else 0)
      && DeltaSum(all, |all|) == DeltaSum(sorted, |sorted|) + t.delta
  {
    if sorted == [] || Priority(sorted[|sorted| - 1].role) <= Priority(t.role) {
      SumsOneMore(sorted, t, role);
    } else {
      var earlier, last := sorted[..|sorted| - 1], sorted[|sorted| - 1];
      InsertKeepsSums(earlier, t, role);
      SumsOneMore(Insert(earlier, t), last, role);
      SumsOneMore(earlier, last, role);
      assert sorted == earlier + [last];
    }
  }

  lemma {:induction false} SortKeepsSums(transfers: seq<Transfer>, role: Role)
    ensures
      var sorted := SortByPriority(transfers);
      && DeltaOf(sorted, |sorted|, role) == DeltaOf(transfers, |transfers|, role)
      && DeltaSum(sorted, |sorted|) == DeltaSum(transfers, |transfers|)
  {
    if transfers != [] {
      hide Insert;
      var earlier, last := transfers[..|transfers| - 1], transfers[|transfers| - 1];
      SortKeepsSums(earlier, role);
      InsertKeepsSums(SortByPriority(earlier), last, role);
      SumsOneMore(earlier, last, role);
      assert transfers == earlier + [last];
    }
  }

  lemma {:induction false} ShortfallsAreMissing(targets: seq<Target>, balances: map<Role, nat>, role: Role)
    requires AllKnown(targets, balances)
    ensures
      var transfers := Shortfalls(targets, balances);
      && DeltaOf(transfers, |transfers|, role) == MissingOf(targets, balances, role)
      && DeltaSum(transfers, |transfers|) == MissingTotal(targets, balances)
  {
    if targets != [] {
      hide DeltaOf, DeltaSum, Needed;
      var earlier, last := targets[..|targets| - 1], targets[|targets| - 1];
      ShortfallsAreMissing(earlier, balances, role);
      NeededSums(Shortfalls(earlier, balances), last, balances[last.role], role);
    }
  }

  lemma NeededSums(transfers: seq<Transfer>, target: Target, current: nat, role: Role)
    ensures
      var longer, missing := transfers + Needed(target, current), Max(0, target.amount - current);
      && DeltaOf(longer, |longer|, role)
         == DeltaOf(transfers, |transfers|, role) + (if target.role == role then missing else 0)
      && DeltaSum(longer, |longer|) == DeltaSum(transfers, |transfers|) + missing
  {
    hide DeltaOf, DeltaSum;
    if current < target.amount {
      SumsOneMore(transfers, Needed(target, current)[0], role);
    } else {
      assert transfers + [] == transfers;
    }
  }

  lemma ReceivedOneMore(payments: seq<Payment>, p: Payment, role: Role)
    ensures Received(payments + [p], role) == Received(payments, role) + if p.role == role then p.value else 0
  {
    assert (payments + [p])[..|payments|] == payments;
  }

  lemma {:induction false} ReceivedIsShare(transfers: seq<Transfer>, available: nat, k: nat, role: Role)
    requires k <= |transfers|
    ensures Received(Payments(transfers, available, k), role) == ShareOf(transfers, available, k, role)
  {
    if k > 0 {
      ReceivedIsShare(transfers, available, k - 1, role);
      var earlier, share := Payments(transfers, available, k - 1), Share(transfers, available, k - 1);
      ReceivedOneMore(earlier, Payment(transfers[k - 1].role, share), role);
      assert earlier + [] == earlier;
    }
  }

  /** A role receives no more than it lacks, all of it when there is enough for every role, and nothing once the
      waterfall has run dry on a transfer that comes before all of the role's own. */
  lemma {:induction false} ShareOfBounds(transfers: seq<Transfer>, available: nat, k: nat, role: Role)
    requires k <= |transfers|
    ensures ShareOf(transfers, available, k, role) <= DeltaOf(transfers, k, role)
    ensures DeltaSum(transfers, k) <= available ==> ShareOf(transfers, available, k, role) == DeltaOf(transfers, k, role)
  {
    if k > 0 {
      ShareOfBounds(transfers, available, k - 1, role);
    }
  }

  lemma {:induction false} ShortShare(transfers: seq<Transfer>, available: nat, k: nat, role: Role) returns (i: nat)
    requires k <= |transfers| && ShareOf(transfers, available, k, role) < DeltaOf(transfers, k, role)
    ensures i < k && transfers[i].role == role && Share(transfers, available, i) < transfers[i].delta
  {
    if transfers[k - 1].role == role && Share(transfers, available, k - 1) < transfers[k - 1].delta {
      i := k - 1;
    } else {
      i := ShortShare(transfers, available, k - 1, role);
    }
  }

  lemma {:induction false} NothingShared(transfers: seq<Transfer>, available: nat, k: nat, role: Role)
    requires k <= |transfers|
    requires forall j: nat :: j < k && transfers[j].role == role ==> Share(transfers, available, j) == 0
    ensures ShareOf(transfers, available, k, role) == 0
  {
    if k > 0 {
      NothingShared(transfers, available, k - 1, role);
    }
  }

  lemma LowerRolesGetNothing(transfers: seq<Transfer>, available: nat, short: Role, role: Role)
    requires Sorted(transfers) && Priority(short) < Priority(role)
    requires ShareOf(transfers, available, |transfers|, short) < DeltaOf(transfers, |transfers|, short)
    ensures ShareOf(transfers, available, |transfers|, role) == 0
  {
    var i := ShortShare(transfers, available, |transfers|, short);
    forall j: nat | j < |transfers| && transfers[j].role == role
      ensures Share(transfers, available, j) == 0
    {
      hide Share;
      ShortRoleEndsFunding(transfers, available, i, j);
    }
    NothingShared(transfers, available, |transfers|, role);
  }

  /** The payments fund the targets: together they are the smaller of what is available and what all roles lack; no
      role gets more than it lacks, and all of it when everything lacking is covered; and while a role still lacks
      something, no role after it in the funding order gets anything. */
  predicate Funds(targets: seq<Target>, balances: map<Role, nat>, available: nat, payments: seq<Payment>)
    requires AllKnown(targets, balances)
  {
    && TotalPaid(payments) == Min(available, MissingTotal(targets, balances))
    && (forall role: Role :: Received(payments, role) <= MissingOf(targets, balances, role))
    && (MissingTotal(targets, balances) <= available ==>
          forall role: Role :: Received(payments, role) == MissingOf(targets, balances, role))
    && (forall i, j :: 0 <= i < j < |FUNDING_PRIORITY| ==>
          || Received(payments, FUNDING_PRIORITY[i]) == MissingOf(targets, balances, FUNDING_PRIORITY[i])
          || Received(payments, FUNDING_PRIORITY[j]) == 0)
    && (forall k :: 0 <= k < |payments| ==> payments[k].value > 0)
  }

  lemma {:induction false} PaymentsArePositive(transfers: seq<Transfer>, available: nat, k: nat)
    requires k <= |transfers|
    ensures forall i :: 0 <= i < |Payments(transfers, available, k)| ==> Payments(transfers, available, k)[i].value > 0
  {
    if k > 0 {
      PaymentsArePositive(transfers, available, k - 1);
    }
  }

  predicate DistinctRoles(targets: seq<Target>) {
    forall i, j :: 0 <= i < j < |targets| ==> targets[i].role != targets[j].role
  }

  /** With one target per role, what the role lacks is the target less its balance. */
  lemma {:induction false} OneTargetPerRole(targets: seq<Target>, balances: map<Role, nat>, i: nat)
    requires AllKnown(targets, balances) && DistinctRoles(targets) && i < |targets|
    ensures MissingOf(targets, balances, targets[i].role) == Max(0, targets[i].amount - balances[targets[i].role])
  {
    var n := |targets| - 1;
    if i < n {
      OneTargetPerRole(targets[..n], balances, i);
    } else {
      UntargetedLacksNothing(targets[..n], balances, targets[n].role);
    }
  }

  lemma {:induction false} UntargetedLacksNothing(targets: seq<Target>, balances: map<Role, nat>, role: Role)
    requires AllKnown(targets, balances) && forall i :: 0 <= i < |targets| ==> targets[i].role != role
    ensures MissingOf(targets, balances, role) == 0
  {
    if targets != [] {
      UntargetedLacksNothing(targets[..|targets| - 1], balances, role);
    }
  }

  lemma RoleIsFunded(targets: seq<Target>, balances: map<Role, nat>, available: nat, role: Role)
    requires AllKnown(targets, balances)
    ensures
      var transfers := SortByPriority(Shortfalls(targets, balances));
      var received, missing := Received(Payments(transfers, available, |transfers|), role), MissingOf(targets, balances, role);
      && received == ShareOf(transfers, available, |transfers|, role) && missing == DeltaOf(transfers, |transfers|, role)
      && received <= missing
      && (MissingTotal(targets, balances) <= available ==> received == missing)
  {
    var transfers := SortByPriority(Shortfalls(targets, balances));
    hide SortByPriority, Shortfalls, Payments, ShareOf, DeltaOf, DeltaSum, Received, MissingOf, MissingTotal, Share;
    ReceivedIsShare(transfers, available, |transfers|, role);
    SortKeepsSums(Shortfalls(targets, balances), role);
    ShortfallsAreMissing(targets, balances, role);
    ShareOfBounds(transfers, available, |transfers|, role);
  }

  lemma TotalIsFunded(targets: seq<Target>, balances: map<Role, nat>, available: nat)
    requires AllKnown(targets, balances)
    ensures
      var transfers := SortByPriority(Shortfalls(targets, balances));
      TotalPaid(Payments(transfers, available, |transfers|)) == Min(available, MissingTotal(targets, balances))
  {
    var transfers := SortByPriority(Shortfalls(targets, balances));
    hide SortByPriority, Shortfalls, Payments, ShareSum, DeltaSum, TotalPaid, MissingTotal;
    PaymentsTotal(transfers, available, |transfers|);
    SharesSumUp(transfers, available, |transfers|);
    ShortfallsAreMissing(targets, balances, Admin);
    SortKeepsSums(Shortfalls(targets, balances), Admin);
  }

  lemma PriorityIsKept(targets: seq<Target>, balances: map<Role, nat>, available: nat, i: nat, j: nat)
    requires AllKnown(targets, balances) && i < j < |FUNDING_PRIORITY|
    ensures
      var transfers := SortByPriority(Shortfalls(targets, balances));
      var payments := Payments(transfers, available, |transfers|);
      || Received(payments, FUNDING_PRIORITY[i]) == MissingOf(targets, balances, FUNDING_PRIORITY[i])
      || Received(payments, FUNDING_PRIORITY[j]) == 0
  {
    var transfers := SortByPriority(Shortfalls(targets, balances));
    PriorityIsPosition(FUNDING_PRIORITY[i], i);
    PriorityIsPosition(FUNDING_PRIORITY[j], j);
    hide Priority, SortByPriority, Shortfalls, Payments, ShareOf, DeltaOf, Received, MissingOf, MissingTotal, Sorted;
    SortIsSortedPermutation(Shortfalls(targets, balances));
    RoleIsFunded(targets, balances, available, FUNDING_PRIORITY[i]);
    RoleIsFunded(targets, balances, available, FUNDING_PRIORITY[j]);
    if ShareOf(transfers, available, |transfers|, FUNDING_PRIORITY[i]) < DeltaOf(transfers, |transfers|, FUNDING_PRIORITY[i]) {
      LowerRolesGetNothing(transfers, available, FUNDING_PRIORITY[i], FUNDING_PRIORITY[j]);
    }
  }

  lemma PaymentsFund(targets: seq<Target>, balances: map<Role, nat>, available: nat)
    requires AllKnown(targets, balances)
    ensures
      var transfers := SortByPriority(Shortfalls(targets, balances));
      Funds(targets, balances, available, Payments(transfers, available, |transfers|))
  {
    var transfers := SortByPriority(Shortfalls(targets, balances));
    var payments := Payments(transfers, available, |transfers|);
    hide SortByPriority, Shortfalls, Payments, Received, MissingOf, MissingTotal, TotalPaid;
    TotalIsFunded(targets, balances, available);
    PaymentsArePositive(transfers, available, |transfers|);
    forall role: Role
      ensures Received(payments, role) <= MissingOf(targets, balances, role)
      ensures MissingTotal(targets, balances) <= available ==> Received(payments, role) == MissingOf(targets, balances, role)
    {
      RoleIsFunded(targets, balances, available, role);
    }
    forall i, j | 0 <= i < j < |FUNDING_PRIORITY|
      ensures Received(payments, FUNDING_PRIORITY[i]) == MissingOf(targets, balances, FUNDING_PRIORITY[i])
           || Received(payments, FUNDING_PRIORITY[j]) == 0
    {
      PriorityIsKept(targets, balances, available, i, j);
    }
  }

  /** With one target per role and those payments, no role ends above the greater of its balance and its target, and
      every role ends there when everything lacking is covered. */
  lemma RolesEndAtTargets(targets: seq<Target>, balances: map<Role, nat>, available: nat, payments: seq<Payment>, i: nat)
    requires AllKnown(targets, balances) && DistinctRoles(targets) && i < |targets|
    requires Funds(targets, balances, available, payments)
    ensures
      var role, amount := targets[i].role, targets[i].amount;
      && balances[role] + Received(payments, role) <= Max(balances[role], amount)
      && (MissingTotal(targets, balances) <= available ==>
            balances[role] + Received(payments, role) == Max(balances[role], amount))
  {
    OneTargetPerRole(targets, balances, i);
  }

  // ---------------------------------------------------------------------------------------------
  // The script

  predicate AllDeltasPositive(transfers: seq<Transfer>) {
    forall i :: 0 <= i < |transfers| ==> transfers[i].delta > 0
  }

  /** The spending loop over transfers already in order. */
  method Spend(transfers: seq<Transfer>, balance: nat) returns (payments: seq<Payment>, left: nat)
    requires AllDeltasPositive(transfers)
    ensures payments == Payments(transfers, balance, |transfers|)
    ensures left == balance - Min(balance, DeltaSum(transfers, |transfers|))
  {
    payments := [];
    var available := balance;
    for k := 0 to |transfers|
      invariant payments == Payments(transfers, balance, k)
      invariant available == balance - Min(balance, DeltaSum(transfers, k))
    {
      if available == 0 {
        continue;
      }
      var value := if transfers[k].delta <= available then transfers[k].delta else available;
      payments := payments + [Payment(transfers[k].role, value)];
      available := available - value;
    }
    left := available;
  }

  /** The role belongs to the first target without a known address. */
  predicate FirstUnknown(targets: seq<Target>, balances: map<Role, nat>, role: Role) {
    exists i :: 0 <= i < |targets| && targets[i].role == role && role !in balances &&
                (forall j :: 0 <= j < i ==> targets[j].role in balances)
  }

  /** One chain's top-up. It stops on the first target whose role has no known address, before anything is sent;
      otherwise it pays the waterfall of the shortfalls in priority order out of the balance above the reserve. */
  method TopUpChain(targets: seq<Target>, balances: map<Role, nat>, deployerBalance: nat, reserve: nat)
    returns (r: Result<seq<Payment>, Role>)
    ensures r.Ok? <==> forall i :: 0 <= i < |targets| ==> targets[i].role in balances
    ensures r.Err? ==> FirstUnknown(targets, balances, r.error)
    ensures r.Ok? ==>
      var transfers := SortByPriority(Shortfalls(targets, balances));
      var available := Max(0, deployerBalance - reserve);
      && r.value == Payments(transfers, available, |transfers|)
      && TotalPaid(r.value) == Min(available, DeltaSum(transfers, |transfers|))
      && deployerBalance - TotalPaid(r.value) >= Min(deployerBalance, reserve)
    ensures r.Ok? ==> Funds(targets, balances, Max(0, deployerBalance - reserve), r.value)
    ensures r.Ok? && DistinctRoles(targets) ==> forall i :: 0 <= i < |targets| ==>
      balances[targets[i].role] + Received(r.value, targets[i].role) <= Max(balances[targets[i].role], targets[i].amount)
  {
    var transfers: seq<Transfer> := [];
    for i := 0 to |targets|
      invariant forall j :: 0 <= j < i ==> targets[j].role in balances
      invariant transfers == Shortfalls(targets[..i], balances)
      invariant AllDeltasPositive(transfers)
    {
      if targets[i].role !in balances {
        return Err(targets[i].role);
      }
      var current := balances[targets[i].role];
      assert targets[..i + 1][..i] == targets[..i];
      if current < targets[i].amount {
        transfers := transfers + [Transfer(targets[i].role, current, targets[i].amount, targets[i].amount - current)];
      } else {
        assert transfers + [] == transfers;
      }
    }
    assert targets[..|targets|] == targets;
    var available := if deployerBalance > reserve then deployerBalance - reserve else 0;
    SortKeepsPositive(transfers);
    var sorted := SortByPriority(transfers);
    var payments, _ := Spend(sorted, available);
    PaymentsTotal(sorted, available, |sorted|);
    SharesSumUp(sorted, available, |sorted|);
    PaymentsFund(targets, balances, available);
    if DistinctRoles(targets) {
      forall i | 0 <= i < |targets|
        ensures balances[targets[i].role] + Received(payments, targets[i].role)
             <= Max(balances[targets[i].role], targets[i].amount)
      {
        RolesEndAtTargets(targets, balances, available, payments, i);
      }
    }
    return Ok(payments);
  }

  lemma SortKeepsPositive(transfers: seq<Transfer>)
    requires AllDeltasPositive(transfers)
    ensures AllDeltasPositive(SortByPriority(transfers))
  {
    SortIsSortedPermutation(transfers);
    var sorted := SortByPriority(transfers);
    forall k | 0 <= k < |sorted|
      ensures sorted[k].delta > 0
    {
      assert sorted[k] in multiset(sorted);
      assert sorted[k] in multiset(transfers);
    }
  }
}
