/**
 The walk over the opposite side of the on-chain book that collects the accounts a taker's order needs: price
 levels outwards from the best price, and at each level the linked list of orders from its head.
 */
module BookWalk {
  import opened Wrappers

  const MAX_MATCH_ACCOUNTS := 16

  datatype Side = Bid | Ask

  datatype Level = Level(headOrderId: nat, totalOpen: nat)

  /** `nextOrderId` is zero at the end of a level's list. */
  datatype Order = Order(maker: int, amount: nat, filled: nat, active: bool, nextOrderId: nat)

  /** The accounts as fetched: the levels of the side opposite to the taker's, and all orders. */
  datatype Book = Book(bestBid: Option<int>, bestAsk: Option<int>, levels: map<int, Level>, orders: map<nat, Order>)

  datatype Account = LevelAccount(price: int) | OrderAccount(orderId: nat) | BalanceAccount(maker: int)

  /** One entry of the account list: a level on its own, or a level with one of its orders and that order's maker. */
  datatype Group = Bare(price: int) | Match(price: int, orderId: nat, maker: int)

  function Accounts(g: Group): seq<Account> {
    match g
    case Bare(price) => [LevelAccount(price)]
    case Match(price, orderId, maker) => [LevelAccount(price), OrderAccount(orderId), BalanceAccount(maker)]
  }

  function Flatten(groups: seq<Group>): seq<Account> {
    if groups == [] then [] else Flatten(groups[..|groups| - 1]) + Accounts(groups[|groups| - 1])
  }

  predicate Crosses(side: Side, price: int, boundary: int) {
    0 < boundary < 1000 && if side.Bid? then boundary <= price else boundary >= price
  }

  function Next(side: Side, boundary: int): int { if side.Bid? then boundary + 1 else boundary - 1 }

  function BestOpposite(book: Book, side: Side): int {
    if side.Bid? then book.bestAsk.GetOr(1000) else book.bestBid.GetOr(0)
  }

  function Remaining(order: Order): int { order.amount - order.filled }

  /** Where a walk ends: the groups collected, the amount left and the match count, or an order that is missing. */
  datatype Walk = Walk(groups: seq<Group>, remaining: nat, matches: nat) | Missing(orderId: nat)

  function After(groups: seq<Group>, rest: Walk): Walk {
    if rest.Missing? then rest else rest.(groups := groups + rest.groups)
  }

  /** The walk along one level's list. */
  function WalkLevel(orders: map<nat, Order>, price: int, head: nat, open: int, remaining: nat, matches: nat): (w: Walk)
    ensures w.Walk? ==> matches <= w.matches
    decreases remaining
  {
    if remaining == 0 || head == 0 || open <= 0 then Walk([], remaining, matches)
    else if head !in orders then Missing(head)
    else
      var order := orders[head];
      var group := Match(price, head, order.maker);
      if Remaining(order) <= 0 || !order.active then Walk([group], remaining, matches)
      else if Remaining(order) >= remaining then Walk([group], 0, matches)
      else
        After([group], WalkLevel(orders, price, order.nextOrderId, open - Remaining(order), remaining - Remaining(order), matches + 1))
  }

  predicate Stops(book: Book, side: Side, price: int, boundary: int, remaining: nat, matches: nat) {
    remaining == 0 || matches >= MAX_MATCH_ACCOUNTS || !Crosses(side, price, boundary) || boundary !in book.levels
  }

  /** The walk from one price outwards. */
  function WalkFrom(book: Book, side: Side, price: int, boundary: int, remaining: nat, matches: nat): Walk
    decreases MAX_MATCH_ACCOUNTS - matches
  {
    if Stops(book, side, price, boundary, remaining, matches) then Walk([], remaining, matches)
    else
      var level := book.levels[boundary];
      if level.totalOpen == 0 || level.headOrderId == 0 then
        After([Bare(boundary)], WalkFrom(book, side, price, Next(side, boundary), remaining, matches + 1))
      else
        var inner := WalkLevel(book.orders, boundary, level.headOrderId, level.totalOpen, remaining, matches);
        if inner.Missing? then inner
        else After(inner.groups, WalkFrom(book, side, price, Next(side, boundary), inner.remaining, inner.matches + 1))
  }

  function WalkBook(book: Book, side: Side, price: int, amount: nat): Walk {
    WalkFrom(book, side, price, BestOpposite(book, side), amount, 0)
  }

  lemma AfterAfter(a: seq<Group>, b: seq<Group>, rest: Walk)
    ensures After(a + b, rest) == After(a, After(b, rest))
  {
    if rest.Walk? {
      assert a + b + rest.groups == a + (b + rest.groups);
    }
  }

  lemma AfterNothing(rest: Walk)
    ensures After([], rest) == rest
  {
    if rest.Walk? {
      assert [] + rest.groups == rest.groups;
    }
  }

  lemma AfterEnd(groups: seq<Group>, remaining: nat, matches: nat)
    ensures After(groups, Walk([], remaining, matches)) == Walk(groups, remaining, matches)
  {
    assert groups + [] == groups;
  }

  lemma FlattenNext(groups: seq<Group>, g: Group)
    ensures Flatten(groups + [g]) == Flatten(groups) + Accounts(g)
  {
    assert (groups + [g])[..|groups|] == groups;
  }

  lemma {:induction false} FlattenConcat(first: seq<Group>, second: seq<Group>)
    ensures Flatten(first + second) == Flatten(first) + Flatten(second)
  {
    hide Accounts, Flatten;
    if second == [] {
      FlattenNone();
      assert first + second == first && Flatten(first) + [] == Flatten(first);
    } else {
      var earlier, last := second[..|second| - 1], second[|second| - 1];
      assert second == earlier + [last] && first + second == (first + earlier) + [last];
      FlattenConcat(first, earlier);
      FlattenNext(first + earlier, last);
      FlattenNext(earlier, last);
    }
  }

  lemma AppendThree<T>(a: seq<T>, x: T, y: T, z: T)
    ensures a + [x] + [y, z] == a + [x, y, z]
  {
  }

  /** The inner loop: the orders of one level, whose own account was pushed last. */
  method WalkOrders(book: Book, price: int, level: Level, amount: nat, count: nat, metas: seq<Account>)
    returns (r: Result<seq<Account>, nat>, remaining: nat, matches: nat)
    requires amount > 0 && level.headOrderId > 0 && level.totalOpen > 0
    requires metas != [] && metas[|metas| - 1] == LevelAccount(price)
    ensures
      match WalkLevel(book.orders, price, level.headOrderId, level.totalOpen, amount, count)
      case Missing(orderId) => r == Err(orderId)
      case Walk(groups, left, matched) =>
        r == Ok(metas[..|metas| - 1] + Flatten(groups)) && remaining == left && matches == matched
  {
    hide Flatten, After;
    var accounts := metas;
    ghost var before := metas[..|metas| - 1];
    remaining, matches := amount, count;
    var currentHead: nat, currentLevelOpen: int := level.headOrderId, level.totalOpen;
    ghost var groups: seq<Group> := [];
    ghost var whole := WalkLevel(book.orders, price, currentHead, currentLevelOpen, remaining, matches);
    AfterNothing(whole);
    FlattenNone();
    assert metas == before + [] + [LevelAccount(price)];
    while remaining > 0 && currentHead > 0 && currentLevelOpen > 0
      invariant whole == After(groups, WalkLevel(book.orders, price, currentHead, currentLevelOpen, remaining, matches))
      invariant accounts ==
        if remaining > 0 && currentHead > 0 && currentLevelOpen > 0
        then before + Flatten(groups) + [LevelAccount(price)]
        else before + Flatten(groups)
      decreases remaining
    {
      if currentHead !in book.orders {
        AfterMissing(groups, currentHead);
        return Err(currentHead), remaining, matches;
      }
      var order := book.orders[currentHead];
      ghost var group := Match(price, currentHead, order.maker);
      FlattenNext(groups, group);
      AppendThree(before + Flatten(groups), LevelAccount(price), OrderAccount(currentHead), BalanceAccount(order.maker));
      accounts := accounts + [OrderAccount(currentHead), BalanceAccount(order.maker)];
      assert accounts == before + Flatten(groups + [group]);

      var orderRemaining := order.amount - order.filled;
      if orderRemaining <= 0 || !order.active {
        AfterLast(groups, group, remaining, matches);
        return Ok(accounts), remaining, matches;
      }
      if orderRemaining >= remaining {
        AfterLast(groups, group, 0, matches);
        return Ok(accounts), 0, matches;
      }
      AfterAfter(groups, [group], WalkLevel(book.orders, price, order.nextOrderId, currentLevelOpen - orderRemaining,
                                            remaining - orderRemaining, matches + 1));
      groups := groups + [group];
      remaining := remaining - orderRemaining;
      currentLevelOpen := currentLevelOpen - orderRemaining;
      currentHead := order.nextOrderId;
      matches := matches + 1;
      if remaining > 0 && currentHead > 0 && currentLevelOpen > 0 {
        accounts := accounts + [LevelAccount(price)];
      }
    }
    AfterEnd(groups, remaining, matches);
    r := Ok(accounts);
  }

  lemma AfterMissing(groups: seq<Group>, orderId: nat)
    ensures After(groups, Missing(orderId)) == Missing(orderId)
  {
  }

  lemma AfterLast(groups: seq<Group>, group: Group, remaining: nat, matches: nat)
    ensures After(groups, Walk([group], remaining, matches)) == Walk(groups + [group], remaining, matches)
  {
  }

  /** The whole walk: the account list is the flattened groups of `WalkBook`, and the call fails exactly when
      that walk meets an order that cannot be fetched. */
  method BuildRemainingAccounts(book: Book, side: Side, price: int, amount: nat) returns (r: Result<seq<Account>, nat>)
    ensures
      match WalkBook(book, side, price, amount)
      case Missing(orderId) => r == Err(orderId)
      case Walk(groups, _, _) => r == Ok(Flatten(groups))
    ensures forall lists, best :: WellFormed(book, lists) && IsBest(book, side, best) ==>
      r.Ok? && Parse(r.value).Some? && CollectsBest(book, lists, side, price, amount, best, Parse(r.value).value)
  {
    hide Flatten, After, Crosses, WalkLevel, WellFormed, IsBest, CollectsBest, Parse;
    var metas := [];
    var remaining, boundary, matches := amount, BestOpposite(book, side), 0;
    ghost var groups: seq<Group> := [];
    ghost var whole := WalkBook(book, side, price, amount);
    forall lists, best | WellFormed(book, lists) && IsBest(book, side, best)
      ensures whole.Walk? && CollectsBest(book, lists, side, price, amount, best, whole.groups)
    {
      BestAreCollected(book, lists, side, price, amount, best);
    }
    AfterNothing(whole);
    FlattenNone();
    while remaining > 0 && matches < MAX_MATCH_ACCOUNTS
      invariant whole == After(groups, WalkFrom(book, side, price, boundary, remaining, matches))
      invariant metas == Flatten(groups)
      decreases MAX_MATCH_ACCOUNTS - matches
    {
      if !Crosses(side, price, boundary) || boundary !in book.levels {
        break;
      }
      var level := book.levels[boundary];
      metas := metas + [LevelAccount(boundary)];
      if level.totalOpen == 0 || level.headOrderId == 0 {
        FlattenNext(groups, Bare(boundary));
        AfterAfter(groups, [Bare(boundary)], WalkFrom(book, side, price, Next(side, boundary), remaining, matches + 1));
        groups := groups + [Bare(boundary)];
        boundary := Next(side, boundary);
        matches := matches + 1;
        continue;
      }
      ghost var inner := WalkLevel(book.orders, boundary, level.headOrderId, level.totalOpen, remaining, matches);
      var walked, left, matched := WalkOrders(book, boundary, level, remaining, matches, metas);
      if walked.Err? {
        AfterMissing(groups, inner.orderId);
        return walked;
      }
      AfterAfter(groups, inner.groups, WalkFrom(book, side, price, Next(side, boundary), left, matched + 1));
      FlattenConcat(groups, inner.groups);
      groups := groups + inner.groups;
      metas, remaining := walked.value, left;
      boundary := Next(side, boundary);
      matches := matched + 1;
    }
    assert Stops(book, side, price, boundary, remaining, matches);
    AfterEnd(groups, remaining, matches);
    r := Ok(metas);
    AccountsReadBack(groups);
  }

  lemma FlattenNone()
    ensures Flatten([]) == []
  {
  }

  // ---------------------------------------------------------------------------------------------
  // The account list reads back

  /** Groups read from the end of an account list: a level, or a maker preceded by an order preceded by a level. */
  function Parse(accounts: seq<Account>): Option<seq<Group>> {
    var n := |accounts|;
    if n == 0 then Some([])
    else if accounts[n - 1].LevelAccount? then
      var rest := Parse(accounts[..n - 1]);
      if rest.None? then None else Some(rest.value + [Bare(accounts[n - 1].price)])
    else if n >= 3 && accounts[n - 1].BalanceAccount? && accounts[n - 2].OrderAccount? && accounts[n - 3].LevelAccount? then
      var rest := Parse(accounts[..n - 3]);
      if rest.None? then None
      else Some(rest.value + [Match(accounts[n - 3].price, accounts[n - 2].orderId, accounts[n - 1].maker)])
    else None
  }

  lemma ParseNext(accounts: seq<Account>, g: Group)
    ensures Parse(accounts + Accounts(g))
         == if Parse(accounts).Some? then Some(Parse(accounts).value + [g]) else None
  {
    var n := |accounts|;
    match g
    case Bare(price) =>
      var longer := accounts + [LevelAccount(price)];
      assert longer[..n] == accounts && longer[n] == LevelAccount(price);
    case Match(price, orderId, maker) =>
      var longer := accounts + [LevelAccount(price), OrderAccount(orderId), BalanceAccount(maker)];
      assert longer[..n] == accounts;
      assert longer[n] == LevelAccount(price) && longer[n + 1] == OrderAccount(orderId) && longer[n + 2] == BalanceAccount(maker);
  }

  lemma NothingReadsBack()
    ensures Parse(Flatten([])) == Some([])
  {
  }

  /** The flattened list determines its groups: nothing but those groups can have produced it. */
  lemma {:induction false} AccountsReadBack(groups: seq<Group>)
    ensures Parse(Flatten(groups)) == Some(groups)
  {
    hide Parse, Accounts, Flatten;
    if groups == [] {
      NothingReadsBack();
    } else {
      var earlier, g := groups[..|groups| - 1], groups[|groups| - 1];
      AccountsReadBack(earlier);
      FlattenNext(earlier, g);
      ParseNext(Flatten(earlier), g);
      assert groups == earlier + [g];
    }
  }

  /** The last group that a readable list reads as, and the list before it. */
  lemma ParseLast(accounts: seq<Account>) returns (earlier: seq<Account>, g: Group)
    requires accounts != [] && Parse(accounts).Some?
    ensures |earlier| < |accounts| && accounts == earlier + Accounts(g)
    ensures Parse(earlier).Some? && Parse(accounts).value == Parse(earlier).value + [g]
  {
    var n := |accounts|;
    if accounts[n - 1].LevelAccount? {
      earlier, g := accounts[..n - 1], Bare(accounts[n - 1].price);
    } else {
      earlier, g := accounts[..n - 3], Match(accounts[n - 3].price, accounts[n - 2].orderId, accounts[n - 1].maker);
    }
  }

  /** Any list that reads back at all is the flattening of what it reads as. */
  lemma {:induction false} ReadingIsExact(accounts: seq<Account>)
    ensures Parse(accounts).Some? ==> Flatten(Parse(accounts).value) == accounts
    decreases |accounts|
  {
    if Parse(accounts).Some? && accounts != [] {
      var earlier, g := ParseLast(accounts);
      ReadingIsExact(earlier);
      FlattenNext(Parse(earlier).value, g);
    }
  }

  // ---------------------------------------------------------------------------------------------
  // The levels visited

  /** How far a price lies outwards from another. */
  function Distance(side: Side, start: int, price: int): int { if side.Bid? then price - start else start - price }

  /** The groups run outwards level by level, over existing levels inside the limit. */
  predicate Outwards(book: Book, side: Side, price: int, start: int, budget: int, groups: seq<Group>) {
    && (forall i :: 0 <= i < |groups| ==>
          && 0 <= Distance(side, start, groups[i].price) < budget
          && Crosses(side, price, groups[i].price) && groups[i].price in book.levels)
    && (forall i, j :: 0 <= i < j < |groups| ==>
          Distance(side, start, groups[i].price) <= Distance(side, start, groups[j].price))
  }

  lemma {:induction false} LevelStaysPut(orders: map<nat, Order>, price: int, head: nat, open: int, remaining: nat, matches: nat)
    ensures
      var w := WalkLevel(orders, price, head, open, remaining, matches);
      w.Walk? ==> forall i :: 0 <= i < |w.groups| ==> w.groups[i].price == price && w.groups[i].Match?
    decreases remaining
  {
    if !(remaining == 0 || head == 0 || open <= 0) && head in orders {
      var order := orders[head];
      if 0 < Remaining(order) < remaining && order.active {
        LevelStaysPut(orders, price, order.nextOrderId, open - Remaining(order), remaining - Remaining(order), matches + 1);
      }
    }
  }

  lemma OutwardsAfter(book: Book, side: Side, price: int, start: int, budget: int, first: seq<Group>, rest: seq<Group>)
    requires Outwards(book, side, price, Next(side, start), budget - 1, rest)
    requires budget > 0 && Crosses(side, price, start) && start in book.levels
    requires forall i :: 0 <= i < |first| ==> first[i].price == start
    ensures Outwards(book, side, price, start, budget, first + rest)
  {
    forall i | 0 <= i < |first + rest|
      ensures (first + rest)[i] == if i < |first| then first[i] else rest[i - |first|]
    {
    }
  }

  lemma OutwardsWider(book: Book, side: Side, price: int, start: int, narrow: int, wide: int, groups: seq<Group>)
    requires narrow <= wide && Outwards(book, side, price, start, narrow, groups)
    ensures Outwards(book, side, price, start, wide, groups)
  {
  }

  /** The levels a walk visits, on any book at all: every one exists and lies inside the limit, each is left for
      good once the walk moves on, and they span at most as many prices as the match budget leaves. */
  lemma {:induction false} WalkGoesOutwards(book: Book, side: Side, price: int, boundary: int, remaining: nat, matches: nat)
    ensures
      var w := WalkFrom(book, side, price, boundary, remaining, matches);
      w.Walk? ==> Outwards(book, side, price, boundary, MAX_MATCH_ACCOUNTS - matches, w.groups)
    decreases MAX_MATCH_ACCOUNTS - matches
  {
    hide Outwards;
    if Stops(book, side, price, boundary, remaining, matches) {
      OutwardsNothing(book, side, price, boundary, MAX_MATCH_ACCOUNTS - matches);
    } else {
      var level, next, budget := book.levels[boundary], Next(side, boundary), MAX_MATCH_ACCOUNTS - matches;
      if level.totalOpen == 0 || level.headOrderId == 0 {
        WalkGoesOutwards(book, side, price, next, remaining, matches + 1);
        var rest := WalkFrom(book, side, price, next, remaining, matches + 1);
        if rest.Walk? {
          OutwardsAfter(book, side, price, boundary, budget, [Bare(boundary)], rest.groups);
        }
      } else {
        var inner := WalkLevel(book.orders, boundary, level.headOrderId, level.totalOpen, remaining, matches);
        LevelStaysPut(book.orders, boundary, level.headOrderId, level.totalOpen, remaining, matches);
        if inner.Walk? {
          assert forall i :: 0 <= i < |inner.groups| ==> inner.groups[i].price == boundary;
          assert Crosses(side, price, boundary) && boundary in book.levels && budget > 0;
          hide Crosses, WalkLevel;
          WalkGoesOutwards(book, side, price, next, inner.remaining, inner.matches + 1);
          var rest := WalkFrom(book, side, price, next, inner.remaining, inner.matches + 1);
          if rest.Walk? {
            OutwardsWider(book, side, price, next, MAX_MATCH_ACCOUNTS - (inner.matches + 1), budget - 1, rest.groups);
            OutwardsAfter(book, side, price, boundary, budget, inner.groups, rest.groups);
          }
        }
      }
    }
  }

  lemma OutwardsNothing(book: Book, side: Side, price: int, start: int, budget: int)
    ensures Outwards(book, side, price, start, budget, [])
  {
  }

  // ---------------------------------------------------------------------------------------------
  // Price-time priority on a well-formed book

  /** `list` is the level's list from `head`: live orders, linked in order, whose remaining amounts sum to `open`. */
  predicate Lists(orders: map<nat, Order>, head: nat, list: seq<nat>, open: int)
    decreases |list|
  {
    if list == [] then head == 0 && open == 0
    else
      && head == list[0] && head > 0 && head in orders
      && orders[head].active && Remaining(orders[head]) > 0
      && Lists(orders, orders[head].nextOrderId, list[1..], open - Remaining(orders[head]))
  }

  /** Every level lists its orders first in, first out, and totals them. */
  predicate WellFormed(book: Book, lists: map<int, seq<nat>>) {
    && lists.Keys == book.levels.Keys
    && forall price :: price in book.levels ==>
         Lists(book.orders, book.levels[price].headOrderId, lists[price], book.levels[price].totalOpen)
  }

  /** The orders a taker may meet, best price first and oldest first, up to the limit or the first missing level. */
  function PriceTimeList(book: Book, lists: map<int, seq<nat>>, side: Side, price: int, boundary: int): seq<nat>
    requires lists.Keys == book.levels.Keys
    decreases if Crosses(side, price, boundary) then (if side.Bid? then 1000 - boundary else boundary) else 0
  {
    if !Crosses(side, price, boundary) || boundary !in book.levels then []
    else lists[boundary] + PriceTimeList(book, lists, side, price, Next(side, boundary))
  }

  function Visited(groups: seq<Group>): seq<nat> {
    if groups == [] then []
    else
      var last := groups[|groups| - 1];
      Visited(groups[..|groups| - 1]) + if last.Match? then [last.orderId] else []
  }

  function Total(orders: map<nat, Order>, ids: seq<nat>): int {
    if ids == [] then 0
    else (if ids[0] in orders then Remaining(orders[ids[0]]) else 0) + Total(orders, ids[1..])
  }

  lemma {:induction false} VisitedConcat(first: seq<Group>, second: seq<Group>)
    ensures Visited(first + second) == Visited(first) + Visited(second)
  {
    if second == [] {
      assert first + second == first;
    } else {
      assert (first + second)[..|first + second| - 1] == first + second[..|second| - 1];
      VisitedConcat(first, second[..|second| - 1]);
    }
  }

  lemma {:induction false} TotalConcat(orders: map<nat, Order>, first: seq<nat>, second: seq<nat>)
    ensures Total(orders, first + second) == Total(orders, first) + Total(orders, second)
  {
    if first == [] {
      assert first + second == second;
    } else {
      assert (first + second)[1..] == first[1..] + second;
      TotalConcat(orders, first[1..], second);
    }
  }

  /** What one stretch of the walk does to the amount: it visits a prefix of the orders on offer, all of them
      unless the amount is used up, takes exactly what they hold up to the amount, and visits none in vain. */
  predicate Takes(orders: map<nat, Order>, offered: seq<nat>, visited: seq<nat>, before: int, after: int) {
    && visited <= offered
    && after == (if Total(orders, visited) < before then before - Total(orders, visited) else 0)
    && (visited != [] ==> Total(orders, visited[..|visited| - 1]) < before)
  }

  lemma {:induction false} LevelTakes(orders: map<nat, Order>, price: int, head: nat, list: seq<nat>, open: int, remaining: nat, matches: nat)
    requires Lists(orders, head, list, open)
    ensures
      var w := WalkLevel(orders, price, head, open, remaining, matches);
      && w.Walk?
      && Takes(orders, list, Visited(w.groups), remaining, w.remaining)
      && (w.remaining > 0 ==> Visited(w.groups) == list)
    decreases remaining
  {
    hide Takes, Total, Visited;
    if remaining == 0 || list == [] {
      TakesNothing(orders, list, remaining);
      NoneVisited();
    } else {
      OpenCoversList(orders, head, list, open);
      var order := orders[head];
      var group := Match(price, head, order.maker);
      OneVisited(price, head, order.maker);
      if Remaining(order) < remaining {
        var left := remaining - Remaining(order);
        LevelTakes(orders, price, order.nextOrderId, list[1..], open - Remaining(order), left, matches + 1);
        var rest := WalkLevel(orders, price, order.nextOrderId, open - Remaining(order), left, matches + 1);
        VisitedConcat([group], rest.groups);
        TakesOneMore(orders, list, Visited(rest.groups), remaining, rest.remaining);
      } else {
        TakesFirst(orders, list, remaining);
      }
    }
  }

  lemma NoneVisited()
    ensures Visited([]) == []
  {
  }

  lemma OneVisited(price: int, orderId: nat, maker: int)
    ensures Visited([Match(price, orderId, maker)]) == [orderId]
  {
    assert [Match(price, orderId, maker)][..0] == [];
  }

  lemma TakesFirst(orders: map<nat, Order>, list: seq<nat>, before: nat)
    requires list != [] && list[0] in orders && Remaining(orders[list[0]]) >= before > 0
    ensures Takes(orders, list, [list[0]], before, 0)
  {
    assert [list[0]][1..] == [] && [list[0]][..0] == [];
    assert Total(orders, [list[0]]) == Remaining(orders[list[0]]);
  }

  /** The total of a non-empty list is positive, so the walk enters it. */
  lemma {:induction false} OpenCoversList(orders: map<nat, Order>, head: nat, list: seq<nat>, open: int)
    requires Lists(orders, head, list, open)
    ensures open == Total(orders, list)
    ensures list != [] ==> open > 0
    decreases |list|
  {
    if list != [] {
      OpenCoversList(orders, orders[head].nextOrderId, list[1..], open - Remaining(orders[head]));
    }
  }

  lemma TakesOneMore(orders: map<nat, Order>, list: seq<nat>, visited: seq<nat>, before: int, after: int)
    requires list != [] && list[0] in orders && 0 < Remaining(orders[list[0]]) < before
    requires Takes(orders, list[1..], visited, before - Remaining(orders[list[0]]), after)
    ensures Takes(orders, list, [list[0]] + visited, before, after)
  {
    var longer := [list[0]] + visited;
    assert longer[1..] == visited;
    if visited != [] {
      assert longer[..|longer| - 1] == [list[0]] + visited[..|visited| - 1];
      assert longer[..|longer| - 1][1..] == visited[..|visited| - 1];
    } else {
      assert longer[..|longer| - 1] == [];
    }
  }

  lemma TakesBoth(orders: map<nat, Order>, first: seq<nat>, offered: seq<nat>, visited: seq<nat>, before: int, middle: int, after: int)
    requires Takes(orders, first, first, before, middle) && middle > 0
    requires Takes(orders, offered, visited, middle, after)
    ensures Takes(orders, first + offered, first + visited, before, after)
  {
    TotalConcat(orders, first, visited);
    if visited != [] {
      assert (first + visited)[..|first + visited| - 1] == first + visited[..|visited| - 1];
      TotalConcat(orders, first, visited[..|visited| - 1]);
    } else {
      assert first + visited == first;
    }
  }

  /** The walk refines price-time priority: on a well-formed book it never fails, it visits a prefix of the
      price-time list in order, takes exactly what those orders hold up to the amount, and leaves some of the
      amount untaken only when the list is exhausted or the match budget is. */
  lemma {:induction false} WalkRefinesPriceTime(
    book: Book, lists: map<int, seq<nat>>, side: Side, price: int, boundary: int, remaining: nat, matches: nat)
    requires WellFormed(book, lists)
    ensures
      var w := WalkFrom(book, side, price, boundary, remaining, matches);
      var offered := PriceTimeList(book, lists, side, price, boundary);
      && w.Walk?
      && Takes(book.orders, offered, Visited(w.groups), remaining, w.remaining)
      && (w.remaining > 0 ==> Visited(w.groups) == offered || w.matches >= MAX_MATCH_ACCOUNTS)
    decreases MAX_MATCH_ACCOUNTS - matches
  {
    hide Takes, Total, Visited;
    if Stops(book, side, price, boundary, remaining, matches) {
      TakesNothing(book.orders, PriceTimeList(book, lists, side, price, boundary), remaining);
    } else {
      var level, next, list := book.levels[boundary], Next(side, boundary), lists[boundary];
      var offered := PriceTimeList(book, lists, side, price, next);
      OpenCoversList(book.orders, level.headOrderId, list, level.totalOpen);
      if level.totalOpen == 0 || level.headOrderId == 0 {
        WalkRefinesPriceTime(book, lists, side, price, next, remaining, matches + 1);
        var rest := WalkFrom(book, side, price, next, remaining, matches + 1);
        VisitedBare(boundary, rest.groups);
        assert list == [];
        assert list + offered == offered;
      } else {
        var inner := WalkLevel(book.orders, boundary, level.headOrderId, level.totalOpen, remaining, matches);
        LevelTakes(book.orders, boundary, level.headOrderId, list, level.totalOpen, remaining, matches);
        hide Lists, WalkLevel;
        WalkRefinesPriceTime(book, lists, side, price, next, inner.remaining, inner.matches + 1);
        var rest := WalkFrom(book, side, price, next, inner.remaining, inner.matches + 1);
        VisitedConcat(inner.groups, rest.groups);
        if inner.remaining > 0 {
          TakesBoth(book.orders, list, offered, Visited(rest.groups), remaining, inner.remaining, rest.remaining);
        } else {
          assert inner.groups + [] == inner.groups;
          TakesWider(book.orders, list, offered, Visited(inner.groups), remaining, inner.remaining);
        }
      }
    }
  }

  lemma TakesNothing(orders: map<nat, Order>, offered: seq<nat>, before: nat)
    ensures Takes(orders, offered, Visited([]), before, before)
  {
  }

  lemma VisitedBare(price: int, rest: seq<Group>)
    ensures Visited([Bare(price)] + rest) == Visited(rest)
  {
    VisitedConcat([Bare(price)], rest);
    assert [Bare(price)][..0] == [];
  }

  lemma TakesWider(orders: map<nat, Order>, list: seq<nat>, more: seq<nat>, visited: seq<nat>, before: int, after: int)
    requires Takes(orders, list, visited, before, after)
    ensures Takes(orders, list + more, visited, before, after)
  {
  }

  /** The match budget does not bound one level: an amount that outlasts the first level's list visits the whole
      list, however many more orders than the budget it holds. */
  lemma FirstLevelIsWalkedWhole(
    book: Book, lists: map<int, seq<nat>>, side: Side, price: int, boundary: int, remaining: nat, matches: nat)
    requires WellFormed(book, lists)
    requires !Stops(book, side, price, boundary, remaining, matches)
    requires Total(book.orders, lists[boundary]) < remaining
    ensures
      var w := WalkFrom(book, side, price, boundary, remaining, matches);
      w.Walk? && lists[boundary] <= Visited(w.groups) && |lists[boundary]| <= |Visited(w.groups)|
  {
    hide Takes, Total, Visited;
    var level, next, list := book.levels[boundary], Next(side, boundary), lists[boundary];
    WalkRefinesPriceTime(book, lists, side, price, boundary, remaining, matches);
    OpenCoversList(book.orders, level.headOrderId, list, level.totalOpen);
    if list != [] {
      var inner := WalkLevel(book.orders, boundary, level.headOrderId, level.totalOpen, remaining, matches);
      LevelTakes(book.orders, boundary, level.headOrderId, list, level.totalOpen, remaining, matches);
      ListedOrdersAreLive(book.orders, level.headOrderId, list, level.totalOpen);
      LeavesSome(book.orders, list, Visited(inner.groups), remaining, inner.remaining);
      VisitedConcat(inner.groups, WalkFrom(book, side, price, next, inner.remaining, inner.matches + 1).groups);
    }
  }

  lemma {:induction false} LeavesSome(orders: map<nat, Order>, offered: seq<nat>, visited: seq<nat>, before: int, after: int)
    requires Takes(orders, offered, visited, before, after)
    requires Total(orders, offered) < before
    requires after > 0 ==> visited == offered
    requires forall k :: 0 <= k < |offered| ==> offered[k] in orders && Remaining(orders[offered[k]]) > 0
    ensures after > 0
  {
    PrefixTotals(orders, offered, visited);
  }

  lemma {:induction false} PrefixTotals(orders: map<nat, Order>, whole: seq<nat>, part: seq<nat>)
    requires part <= whole
    requires forall k :: 0 <= k < |whole| ==> whole[k] in orders && Remaining(orders[whole[k]]) > 0
    ensures Total(orders, part) <= Total(orders, whole)
  {
    if part == [] {
      if whole != [] {
        PrefixTotals(orders, whole[1..], []);
      }
    } else {
      PrefixTotals(orders, whole[1..], part[1..]);
    }
  }

  lemma {:induction false} ListedOrdersAreLive(orders: map<nat, Order>, head: nat, list: seq<nat>, open: int)
    requires Lists(orders, head, list, open)
    ensures forall k :: 0 <= k < |list| ==> list[k] in orders && Remaining(orders[list[k]]) > 0
    decreases |list|
  {
    if list != [] {
      ListedOrdersAreLive(orders, orders[head].nextOrderId, list[1..], open - Remaining(orders[head]));
    }
  }

  // ---------------------------------------------------------------------------------------------
  // What the account list collects, by price

  /** A price that a taker with this limit accepts. */
  predicate Inside(side: Side, limit: int, price: int) {
    1 <= price <= 999 && (side == Bid ==> price <= limit) && (side == Ask ==> price >= limit)
  }

  /** The first price is at least as good for the taker as the second. */
  predicate NoWorse(side: Side, first: int, second: int) {
    (side == Bid ==> first <= second) && (side == Ask ==> first >= second)
  }

  /** The group stands for the order: its level, its id and its maker. */
  predicate StandsFor(book: Book, g: Group, price: int, id: nat) {
    g.Match? && g.price == price && g.orderId == id && id in book.orders && g.maker == book.orders[id].maker
  }

  predicate Collected(book: Book, groups: seq<Group>, price: int, id: nat) {
    exists k :: 0 <= k < |groups| && StandsFor(book, groups[k], price, id)
  }

  /** The book's best price is its best level: the least ask for a buyer, the greatest bid for a seller. */
  predicate IsBest(book: Book, side: Side, best: int) {
    && best in book.levels
    && (side == Bid ==> book.bestAsk == Some(best))
    && (side == Ask ==> book.bestBid == Some(best))
    && forall p :: p in book.levels ==> NoWorse(side, best, p)
  }

  /** Every group is a level inside the limit, with one of its own orders and that order's maker or with none. */
  predicate OwnOrders(book: Book, lists: map<int, seq<nat>>, side: Side, limit: int, groups: seq<Group>) {
    forall k :: 0 <= k < |groups| ==>
      && groups[k].price in book.levels && groups[k].price in lists && Inside(side, limit, groups[k].price)
      && (groups[k].Match? ==>
            && groups[k].orderId in lists[groups[k].price]
            && StandsFor(book, groups[k], groups[k].price, groups[k].orderId))
  }

  /** No order inside the limit and no better than the start that was passed over is better than a collected one. */
  ghost predicate NoneBetterLeft(book: Book, lists: map<int, seq<nat>>, side: Side, limit: int, start: int, groups: seq<Group>) {
    forall p, id: nat, k ::
      && p in lists && Inside(side, limit, p) && NoWorse(side, start, p) && id in lists[p]
      && !Collected(book, groups, p, id)
      && 0 <= k < |groups| && groups[k].Match? ==>
        NoWorse(side, groups[k].price, p)
  }

  lemma {:induction false} LevelCollects(book: Book, price: int, head: nat, list: seq<nat>, open: int, remaining: nat, matches: nat)
    requires Lists(book.orders, head, list, open)
    ensures
      var w := WalkLevel(book.orders, price, head, open, remaining, matches);
      && w.Walk?
      && (forall k :: 0 <= k < |w.groups| ==> w.groups[k].Match? && w.groups[k].orderId in list
                                              && StandsFor(book, w.groups[k], price, w.groups[k].orderId))
      && (w.remaining > 0 ==> forall id :: id in list ==> Collected(book, w.groups, price, id))
      && (remaining > 0 && list != [] ==> w.groups != [] && StandsFor(book, w.groups[0], price, list[0]))
    decreases remaining
  {
    if remaining != 0 && list != [] {
      OpenCoversList(book.orders, head, list, open);
      var order := book.orders[head];
      if Remaining(order) < remaining {
        var left, rest := remaining - Remaining(order), list[1..];
        LevelCollects(book, price, order.nextOrderId, rest, open - Remaining(order), left, matches + 1);
        var later := WalkLevel(book.orders, price, order.nextOrderId, open - Remaining(order), left, matches + 1);
        var groups := [Match(price, head, order.maker)] + later.groups;
        hide WalkLevel, Lists;
        FirstAndRest(book, price, head, rest, later.groups);
      }
    }
  }

  lemma FirstAndRest(book: Book, price: int, head: nat, rest: seq<nat>, later: seq<Group>)
    requires head in book.orders
    ensures
      var groups := [Match(price, head, book.orders[head].maker)] + later;
      && Collected(book, groups, price, head)
      && forall id: nat :: Collected(book, later, price, id) ==> Collected(book, groups, price, id)
  {
    var groups := [Match(price, head, book.orders[head].maker)] + later;
    assert StandsFor(book, groups[0], price, head);
    CollectedAfter(book, [Match(price, head, book.orders[head].maker)], later, price);
  }

  lemma CollectedAfter(book: Book, first: seq<Group>, later: seq<Group>, price: int)
    ensures forall id: nat ::
      Collected(book, first, price, id) || Collected(book, later, price, id) ==> Collected(book, first + later, price, id)
  {
    forall id: nat | Collected(book, later, price, id)
      ensures Collected(book, first + later, price, id)
    {
      var k :| 0 <= k < |later| && StandsFor(book, later[k], price, id);
      assert (first + later)[|first| + k] == later[k];
    }
    forall id: nat | Collected(book, first, price, id)
      ensures Collected(book, first + later, price, id)
    {
      var k :| 0 <= k < |first| && StandsFor(book, first[k], price, id);
      assert (first + later)[k] == first[k];
    }
  }

  lemma CrossesInside(side: Side, limit: int, price: int)
    ensures Crosses(side, limit, price) <==> Inside(side, limit, price)
    ensures side == Bid ==> Next(side, price) == price + 1
    ensures side == Ask ==> Next(side, price) == price - 1
  {
  }

  lemma OwnOrdersJoin(book: Book, lists: map<int, seq<nat>>, side: Side, limit: int, first: seq<Group>, rest: seq<Group>)
    requires OwnOrders(book, lists, side, limit, first) && OwnOrders(book, lists, side, limit, rest)
    ensures OwnOrders(book, lists, side, limit, first + rest)
  {
    forall k | 0 <= k < |first + rest|
      ensures (first + rest)[k] == if k < |first| then first[k] else rest[k - |first|]
    {
    }
  }

  /** A level that was left with some amount to go was collected whole, so what is left behind lies further out. */
  lemma NoneBetterJoin(
    book: Book, lists: map<int, seq<nat>>, side: Side, limit: int, start: int, first: seq<Group>, rest: seq<Group>)
    requires start in lists
    requires forall k :: 0 <= k < |first| ==> first[k].price == start
    requires forall id: nat :: id in lists[start] ==> Collected(book, first, start, id)
    requires NoneBetterLeft(book, lists, side, limit, Next(side, start), rest)
    ensures NoneBetterLeft(book, lists, side, limit, start, first + rest)
  {
    forall p, id: nat, k |
      && p in lists && Inside(side, limit, p) && NoWorse(side, start, p) && id in lists[p]
      && !Collected(book, first + rest, p, id)
      && 0 <= k < |first + rest| && (first + rest)[k].Match?
      ensures NoWorse(side, (first + rest)[k].price, p)
    {
      hide Inside;
      CollectedAfter(book, first, rest, p);
      if k >= |first| {
        assert (first + rest)[k] == rest[k - |first|];
        assert p != start;
        assert NoWorse(side, Next(side, start), p);
      } else {
        assert (first + rest)[k] == first[k];
      }
    }
  }

  lemma NoneBetterAtStart(book: Book, lists: map<int, seq<nat>>, side: Side, limit: int, start: int, groups: seq<Group>)
    requires forall k :: 0 <= k < |groups| ==> groups[k].price == start
    ensures NoneBetterLeft(book, lists, side, limit, start, groups)
  {
  }

  lemma {:induction false} WalkCollects(
    book: Book, lists: map<int, seq<nat>>, side: Side, limit: int, start: int, remaining: nat, matches: nat)
    requires WellFormed(book, lists)
    ensures
      var w := WalkFrom(book, side, limit, start, remaining, matches);
      && w.Walk?
      && OwnOrders(book, lists, side, limit, w.groups)
      && NoneBetterLeft(book, lists, side, limit, start, w.groups)
    decreases MAX_MATCH_ACCOUNTS - matches
  {
    hide OwnOrders, NoneBetterLeft, Collected, StandsFor, Inside;
    CrossesInside(side, limit, start);
    if Stops(book, side, limit, start, remaining, matches) {
      NoneBetterAtStart(book, lists, side, limit, start, []);
      NothingOwned(book, lists, side, limit);
    } else {
      var level, next, list := book.levels[start], Next(side, start), lists[start];
      OpenCoversList(book.orders, level.headOrderId, list, level.totalOpen);
      if level.totalOpen == 0 || level.headOrderId == 0 {
        WalkCollects(book, lists, side, limit, next, remaining, matches + 1);
        var rest := WalkFrom(book, side, limit, next, remaining, matches + 1);
        assert list == [];
        BareOwned(book, lists, side, limit, start);
        OwnOrdersJoin(book, lists, side, limit, [Bare(start)], rest.groups);
        NoneBetterJoin(book, lists, side, limit, start, [Bare(start)], rest.groups);
      } else {
        var inner := WalkLevel(book.orders, start, level.headOrderId, level.totalOpen, remaining, matches);
        LevelCollects(book, start, level.headOrderId, list, level.totalOpen, remaining, matches);
        LevelStaysPut(book.orders, start, level.headOrderId, level.totalOpen, remaining, matches);
        LevelOwned(book, lists, side, limit, start, inner.groups);
        hide WalkLevel, Lists, WellFormed;
        WalkCollects(book, lists, side, limit, next, inner.remaining, inner.matches + 1);
        var rest := WalkFrom(book, side, limit, next, inner.remaining, inner.matches + 1);
        OwnOrdersJoin(book, lists, side, limit, inner.groups, rest.groups);
        if inner.remaining > 0 {
          NoneBetterJoin(book, lists, side, limit, start, inner.groups, rest.groups);
        } else {
          assert inner.groups + [] == inner.groups;
          NoneBetterAtStart(book, lists, side, limit, start, inner.groups);
        }
      }
    }
  }

  lemma NothingOwned(book: Book, lists: map<int, seq<nat>>, side: Side, limit: int)
    ensures OwnOrders(book, lists, side, limit, [])
  {
  }

  lemma BareOwned(book: Book, lists: map<int, seq<nat>>, side: Side, limit: int, price: int)
    requires price in book.levels && price in lists && Inside(side, limit, price)
    ensures OwnOrders(book, lists, side, limit, [Bare(price)])
  {
  }

  lemma LevelOwned(book: Book, lists: map<int, seq<nat>>, side: Side, limit: int, price: int, groups: seq<Group>)
    requires price in book.levels && price in lists && Inside(side, limit, price)
    requires forall k :: 0 <= k < |groups| ==>
      && groups[k].Match? && groups[k].price == price && groups[k].orderId in lists[price]
      && StandsFor(book, groups[k], price, groups[k].orderId)
    ensures OwnOrders(book, lists, side, limit, groups)
  {
  }

  // How much is collected

  /** What the orders still offer. */
  function Offered(book: Book, ids: seq<nat>): int {
    if ids == [] then 0
    else
      (if ids[0] in book.orders then book.orders[ids[0]].amount - book.orders[ids[0]].filled else 0)
      + Offered(book, ids[1..])
  }

  lemma {:induction false} TotalIsOffered(book: Book, ids: seq<nat>)
    ensures Total(book.orders, ids) == Offered(book, ids)
  {
    if ids != [] {
      TotalIsOffered(book, ids[1..]);
    }
  }

  /** Every level between the two prices exists. */
  ghost predicate Unbroken(book: Book, side: Side, start: int, price: int) {
    forall q :: NoWorse(side, start, q) && NoWorse(side, q, price) ==> q in book.levels
  }

  /** Every order inside the limit is collected, up to the first missing level. */
  ghost predicate AllReached(book: Book, lists: map<int, seq<nat>>, side: Side, limit: int, start: int, groups: seq<Group>) {
    forall p, id: nat ::
      p in lists && Inside(side, limit, p) && NoWorse(side, start, p) && id in lists[p] && Unbroken(book, side, start, p) ==>
        Collected(book, groups, p, id)
  }

  lemma {:induction false} LevelMatches(orders: map<nat, Order>, price: int, head: nat, open: int, remaining: nat, matches: nat)
    ensures
      var w := WalkLevel(orders, price, head, open, remaining, matches);
      w.Walk? ==> w.matches <= matches + |w.groups|
    decreases remaining
  {
    if !(remaining == 0 || head == 0 || open <= 0) && head in orders {
      var order := orders[head];
      if 0 < Remaining(order) < remaining && order.active {
        LevelMatches(orders, price, order.nextOrderId, open - Remaining(order), remaining - Remaining(order), matches + 1);
      }
    }
  }

  lemma AllReachedJoin(
    book: Book, lists: map<int, seq<nat>>, side: Side, limit: int, start: int, first: seq<Group>, rest: seq<Group>)
    requires start in lists
    requires forall id: nat :: id in lists[start] ==> Collected(book, first, start, id)
    requires AllReached(book, lists, side, limit, Next(side, start), rest)
    ensures AllReached(book, lists, side, limit, start, first + rest)
  {
    forall p, id: nat |
      p in lists && Inside(side, limit, p) && NoWorse(side, start, p) && id in lists[p] && Unbroken(book, side, start, p)
      ensures Collected(book, first + rest, p, id)
    {
      hide Inside, Collected;
      CollectedAfter(book, first, rest, p);
      if p != start {
        assert NoWorse(side, Next(side, start), p);
        assert Unbroken(book, side, Next(side, start), p);
      }
    }
  }

  lemma StoppedAtGap(book: Book, lists: map<int, seq<nat>>, side: Side, limit: int, start: int)
    requires (side == Bid ==> 1 <= start) && (side == Ask ==> start <= 999)
    requires !Inside(side, limit, start) || start !in book.levels
    ensures AllReached(book, lists, side, limit, start, [])
  {
    forall p | p in lists && Inside(side, limit, p) && NoWorse(side, start, p) && Unbroken(book, side, start, p)
      ensures false
    {
      assert NoWorse(side, start, start);
    }
  }

  /** A walk that is stopped by neither amount nor match budget has collected every order it can reach. */
  lemma {:induction false} WalkReachesAll(
    book: Book, lists: map<int, seq<nat>>, side: Side, limit: int, start: int, remaining: nat, matches: nat)
    requires WellFormed(book, lists)
    requires (side == Bid ==> 1 <= start) && (side == Ask ==> start <= 999)
    ensures
      var w := WalkFrom(book, side, limit, start, remaining, matches);
      && w.Walk? && w.matches <= matches + 2 * |w.groups|
      && (w.remaining > 0 && w.matches < MAX_MATCH_ACCOUNTS ==> AllReached(book, lists, side, limit, start, w.groups))
    decreases MAX_MATCH_ACCOUNTS - matches
  {
    hide AllReached, Collected, StandsFor, Inside;
    CrossesInside(side, limit, start);
    if Stops(book, side, limit, start, remaining, matches) {
      if remaining > 0 && matches < MAX_MATCH_ACCOUNTS {
        StoppedAtGap(book, lists, side, limit, start);
      }
    } else {
      var level, next, list := book.levels[start], Next(side, start), lists[start];
      OpenCoversList(book.orders, level.headOrderId, list, level.totalOpen);
      if level.totalOpen == 0 || level.headOrderId == 0 {
        WalkReachesAll(book, lists, side, limit, next, remaining, matches + 1);
        var rest := WalkFrom(book, side, limit, next, remaining, matches + 1);
        assert list == [];
        if rest.remaining > 0 && rest.matches < MAX_MATCH_ACCOUNTS {
          AllReachedJoin(book, lists, side, limit, start, [Bare(start)], rest.groups);
        }
      } else {
        var inner := WalkLevel(book.orders, start, level.headOrderId, level.totalOpen, remaining, matches);
        LevelCollects(book, start, level.headOrderId, list, level.totalOpen, remaining, matches);
        LevelMatches(book.orders, start, level.headOrderId, level.totalOpen, remaining, matches);
        assert list != [];
        hide WalkLevel, Lists, WellFormed;
        WalkReachesAll(book, lists, side, limit, next, inner.remaining, inner.matches + 1);
        var rest := WalkFrom(book, side, limit, next, inner.remaining, inner.matches + 1);
        if rest.remaining > 0 && rest.matches < MAX_MATCH_ACCOUNTS {
          AllReachedJoin(book, lists, side, limit, start, inner.groups, rest.groups);
        }
      }
    }
  }

  /** The last collected order is needed to fill the amount; and while the collected orders do not fill it and there are
      fewer than eight groups, every reachable order is collected. */
  ghost predicate CollectsEnough(
    book: Book, lists: map<int, seq<nat>>, side: Side, limit: int, amount: nat, best: int, groups: seq<Group>)
  {
    var ids := Visited(groups);
    && (ids != [] ==> Offered(book, ids[..|ids| - 1]) < amount)
    && (Offered(book, ids) < amount && |groups| < 8 && Inside(side, limit, best) ==>
          AllReached(book, lists, side, limit, best, groups))
  }

  lemma EnoughIsCollected(book: Book, lists: map<int, seq<nat>>, side: Side, limit: int, amount: nat, best: int)
    requires WellFormed(book, lists) && best in lists
    ensures var w := WalkFrom(book, side, limit, best, amount, 0);
      w.Walk? && CollectsEnough(book, lists, side, limit, amount, best, w.groups)
  {
    hide WalkFrom, Lists, Total, Offered, Visited, AllReached, WellFormed;
    WalkRefinesPriceTime(book, lists, side, limit, best, amount, 0);
    var ids := Visited(WalkFrom(book, side, limit, best, amount, 0).groups);
    TotalIsOffered(book, ids);
    if ids != [] {
      TotalIsOffered(book, ids[..|ids| - 1]);
    }
    if Inside(side, limit, best) {
      WalkReachesAll(book, lists, side, limit, best, amount, 0);
    }
  }

  /** What a walk from the best level collects: only orders of levels inside the limit, as many as the amount needs;
      none worse in price than an order left behind inside the limit; and, for a positive amount, the oldest order of
      the best level first. */
  ghost predicate CollectsBest(
    book: Book, lists: map<int, seq<nat>>, side: Side, limit: int, amount: nat, best: int, groups: seq<Group>)
  {
    && best in lists
    && OwnOrders(book, lists, side, limit, groups)
    && CollectsEnough(book, lists, side, limit, amount, best, groups)
    && (forall p, id: nat, k ::
          && p in lists && Inside(side, limit, p) && id in lists[p] && !Collected(book, groups, p, id)
          && 0 <= k < |groups| && groups[k].Match? ==>
            NoWorse(side, groups[k].price, p))
    && (amount > 0 && Inside(side, limit, best) && lists[best] != [] ==>
          groups != [] && StandsFor(book, groups[0], best, lists[best][0]))
  }

  /** On a well-formed book whose best price is its best level, the walk never fails and collects the best orders. */
  lemma BestAreCollected(book: Book, lists: map<int, seq<nat>>, side: Side, limit: int, amount: nat, best: int)
    requires WellFormed(book, lists) && IsBest(book, side, best)
    ensures var w := WalkBook(book, side, limit, amount);
      w.Walk? && CollectsBest(book, lists, side, limit, amount, best, w.groups)
  {
    assert BestOpposite(book, side) == best;
    WalkCollects(book, lists, side, limit, best, amount, 0);
    CrossesInside(side, limit, best);
    var level := book.levels[best];
    hide WalkFrom, Lists, OwnOrders, StandsFor, Collected, Inside, CollectsEnough;
    EnoughIsCollected(book, lists, side, limit, amount, best);
    HeadIsCollected(book, lists, side, limit, amount, best);
  }

  lemma HeadIsCollected(book: Book, lists: map<int, seq<nat>>, side: Side, limit: int, amount: nat, best: int)
    requires WellFormed(book, lists) && best in lists
    ensures var w := WalkFrom(book, side, limit, best, amount, 0);
      w.Walk? && amount > 0 && Inside(side, limit, best) && lists[best] != [] ==>
        w.groups != [] && StandsFor(book, w.groups[0], best, lists[best][0])
  {
    CrossesInside(side, limit, best);
    var level := book.levels[best];
    OpenCoversList(book.orders, level.headOrderId, lists[best], level.totalOpen);
    LevelCollects(book, best, level.headOrderId, lists[best], level.totalOpen, amount, 0);
    hide WalkLevel, Inside, StandsFor;
  }

  // ---------------------------------------------------------------------------------------------
  // Books that are not well formed

  /** On any book, a level's walk that is at an order it cannot fetch fails; one at an order that is inactive or holds
      nothing more lists that order, takes nothing and leaves the level; and one whose level has nothing open ends. */
  lemma LevelEndsEarly(book: Book, price: int, head: nat, open: int, remaining: nat, matches: nat)
    requires remaining > 0 && head > 0
    ensures
      var w := WalkLevel(book.orders, price, head, open, remaining, matches);
      && (open <= 0 ==> w == Walk([], remaining, matches))
      && (open > 0 && head !in book.orders ==> w == Missing(head))
      && (open > 0 && head in book.orders && (!book.orders[head].active || book.orders[head].filled >= book.orders[head].amount)
          ==> w.Walk? && w.remaining == remaining && w.matches == matches && |w.groups| == 1
              && StandsFor(book, w.groups[0], price, head))
  {
  }

  // ---------------------------------------------------------------------------------------------
  // How long the list gets

  /** Along one level no order is visited twice, and all but the last visited count as a match. */
  lemma {:induction false} LevelIsBounded(orders: map<nat, Order>, price: int, head: nat, list: seq<nat>, open: int, remaining: nat, matches: nat)
    requires Lists(orders, head, list, open)
    ensures
      var w := WalkLevel(orders, price, head, open, remaining, matches);
      w.Walk? && |w.groups| <= |list| && matches + |w.groups| <= w.matches + 1
    decreases remaining
  {
    if remaining != 0 && list != [] {
      OpenCoversList(orders, head, list, open);
      var order := orders[head];
      if Remaining(order) < remaining {
        LevelIsBounded(orders, price, order.nextOrderId, list[1..], open - Remaining(order), remaining - Remaining(order), matches + 1);
      }
    }
  }

  /** On a well-formed book whose longest level list has `longest` orders, the walk collects at most that many
      groups beyond the rest of the match budget. */
  lemma {:induction false} WalkIsBounded(
    book: Book, lists: map<int, seq<nat>>, side: Side, price: int, boundary: int, remaining: nat, matches: nat, longest: nat)
    requires WellFormed(book, lists) && matches < MAX_MATCH_ACCOUNTS
    requires 1 <= longest && forall p :: p in lists ==> |lists[p]| <= longest
    ensures
      var w := WalkFrom(book, side, price, boundary, remaining, matches);
      w.Walk? && |w.groups| <= MAX_MATCH_ACCOUNTS - matches - 1 + longest
    decreases MAX_MATCH_ACCOUNTS - matches
  {
    if !Stops(book, side, price, boundary, remaining, matches) {
      var level, next, list := book.levels[boundary], Next(side, boundary), lists[boundary];
      if level.totalOpen == 0 || level.headOrderId == 0 {
        if matches + 1 < MAX_MATCH_ACCOUNTS {
          WalkIsBounded(book, lists, side, price, next, remaining, matches + 1, longest);
        }
      } else {
        var inner := WalkLevel(book.orders, boundary, level.headOrderId, level.totalOpen, remaining, matches);
        LevelIsBounded(book.orders, boundary, level.headOrderId, list, level.totalOpen, remaining, matches);
        hide WalkLevel, Lists;
        if inner.matches + 1 < MAX_MATCH_ACCOUNTS {
          WalkIsBounded(book, lists, side, price, next, inner.remaining, inner.matches + 1, longest);
        }
      }
    }
  }

  /** Fifteen empty levels, then one level with n orders of one unit each. */
  function LadderBook(n: nat): Book {
    Book(
      None, Some(1),
      map price | 1 <= price <= MAX_MATCH_ACCOUNTS :: LadderLevelAt(price, n),
      map id: nat | 1 <= id <= n :: LadderOrder(id, n))
  }

  function LadderLevelAt(price: int, n: nat): Level {
    if price < MAX_MATCH_ACCOUNTS then Level(0, 0) else Level(1, n)
  }

  function LadderOrder(id: nat, n: nat): Order { Order(0, 1, 0, true, if id < n then id + 1 else 0) }

  function IdsFrom(i: nat, n: nat): seq<nat>
    decreases n + 1 - i
  {
    if i > n then [] else [i] + IdsFrom(i + 1, n)
  }

  lemma {:induction false} LadderIsListed(n: nat, i: nat)
    requires 1 <= i <= n + 1
    ensures Lists(LadderBook(n).orders, if i <= n then i else 0, IdsFrom(i, n), n + 1 - i) && |IdsFrom(i, n)| == n + 1 - i
    decreases n + 1 - i
  {
    if i <= n {
      LadderIsListed(n, i + 1);
      assert IdsFrom(i, n)[1..] == IdsFrom(i + 1, n);
    }
  }

  lemma {:induction false} LadderLevel(n: nat, i: nat, price: int, remaining: nat, matches: nat)
    requires 1 <= i <= n + 1 && remaining > n + 1 - i
    ensures
      var w := WalkLevel(LadderBook(n).orders, price, if i <= n then i else 0, n + 1 - i, remaining, matches);
      w.Walk? && |w.groups| == n + 1 - i && w.matches == matches + n + 1 - i && w.remaining == remaining - (n + 1 - i)
    decreases n + 1 - i
  {
    if i <= n {
      LadderLevel(n, i + 1, price, remaining - 1, matches + 1);
    }
  }

  lemma {:induction false} LadderWalk(n: nat, boundary: nat, remaining: nat)
    requires 1 <= n < remaining && 1 <= boundary <= MAX_MATCH_ACCOUNTS
    ensures
      var w := WalkFrom(LadderBook(n), Bid, 999, boundary, remaining, boundary - 1);
      w.Walk? && |w.groups| == MAX_MATCH_ACCOUNTS - boundary + n
    decreases MAX_MATCH_ACCOUNTS - boundary
  {
    if boundary < MAX_MATCH_ACCOUNTS {
      LadderWalk(n, boundary + 1, remaining);
    } else {
      LadderLevel(n, 1, boundary, remaining, boundary - 1);
      hide WalkLevel;
      assert LadderBook(n).levels[boundary] == Level(1, n);
    }
  }

  function LadderLists(n: nat): map<int, seq<nat>> {
    map price | 1 <= price <= MAX_MATCH_ACCOUNTS :: LadderList(price, n)
  }

  function LadderList(price: int, n: nat): seq<nat> { if price < MAX_MATCH_ACCOUNTS then [] else IdsFrom(1, n) }

  /** The bound is reached for every length: with n orders on the level that the last match leads to, the walk
      collects fifteen groups more than n, so no number of matches bounds the list. */
  lemma BoundIsReached(n: nat)
    requires 1 <= n
    ensures WellFormed(LadderBook(n), LadderLists(n)) && forall p :: p in LadderLists(n) ==> |LadderLists(n)[p]| <= n
    ensures var w := WalkBook(LadderBook(n), Bid, 999, n + 1);
      w.Walk? && |w.groups| == 15 + n
  {
    hide Lists, IdsFrom;
    LadderIsListed(n, 1);
    LadderWalk(n, 1, n + 1);
    EmptyLevelIsListed(LadderBook(n).orders);
  }

  lemma EmptyLevelIsListed(orders: map<nat, Order>)
    ensures Lists(orders, 0, [], 0)
  {
  }
}
