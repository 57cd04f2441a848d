/**
  The player-funded dice bank: which bets a round admits, and what settling it pays.
  All amounts are whole points; the stored integers are 63-bit.
*/
module BankerSettlement {
  import opened Numbers
  import opened Wrappers
  import opened Finite

  const MAX_INT := 0x7FFF_FFFF_FFFF_FFFF

  type User = string
  datatype Side = Big | Small | Unknown
  datatype Bet = Bet(user: User, side: Side, amount: int)
  datatype Bank = Bank(user: User, capital: int)
  datatype Reason = Played | Timeout | Empty
  datatype Outcome = Outcome(invested: int, returned: int, net: int)
  datatype Settlement = Settlement(total: int, reason: Reason, users: map<User, Outcome>, bank: Outcome)

  datatype Refused =
    | BadCapital | InvalidBet | BadAmount | TotalTooLarge | ExposureTooLarge | BadDice | NotConserved

  /** The guard every stored amount passes. */
  predicate IsAmount(n: int) { 1 <= n <= MAX_INT }

  function Abs(n: int): nat { if n < 0 then -n else n }

  // ---------------------------------------------------------------- what a bet list says

  function Stake(bets: seq<Bet>, user: User, side: Side): int {
    if bets == [] then 0
    else
      var b := bets[|bets| - 1];
      Stake(bets[..|bets| - 1], user, side) + if b.user == user && b.side == side then b.amount else 0
  }

  function Staked(bets: seq<Bet>, side: Side): int {
    if bets == [] then 0
    else
      var b := bets[|bets| - 1];
      Staked(bets[..|bets| - 1], side) + if b.side == side then b.amount else 0
  }

  ghost function Bettors(bets: seq<Bet>): set<User> { set b | b in bets :: b.user }

  ghost function Invested(bets: seq<Bet>, user: User): int { Stake(bets, user, Big) + Stake(bets, user, Small) }

  function BetError(b: Bet, bank: Bank): Option<Refused> {
    if b.user == bank.user || b.side == Unknown then Some(InvalidBet)
    else if !IsAmount(b.amount) then Some(BadAmount)
    else None
  }

  /** The first bet that is refused, if any. */
  function FirstBetError(bets: seq<Bet>, bank: Bank): Option<Refused> {
    if bets == [] then None
    else
      match FirstBetError(bets[..|bets| - 1], bank)
      case Some(e) => Some(e)
      case None => BetError(bets[|bets| - 1], bank)
  }

  predicate ValidDice(dice: seq<int>) { |dice| == 3 && forall i :: 0 <= i < 3 ==> 1 <= dice[i] <= 6 }

  function Winner(dice: seq<int>): Option<Side>
    requires |dice| == 3
  {
    if dice[0] == dice[1] == dice[2] then None
    else if dice[0] + dice[1] + dice[2] >= 11 then Some(Big)
    else Some(Small)
  }

  function ReasonOf(total: int, forceRefund: bool): Reason {
    if forceRefund then Timeout else if total == 0 then Empty else Played
  }

  /** Why a round is not settled: the first guard that fails, in the order of the guards. */
  function Refusal(bets: seq<Bet>, dice: seq<int>, bank: Bank, forceRefund: bool): Option<Refused> {
    var big, small := Staked(bets, Big), Staked(bets, Small);
    if !IsAmount(bank.capital) then Some(BadCapital)
    else if FirstBetError(bets, bank).Some? then FirstBetError(bets, bank)
    else if !IsAmount(bank.capital + big + small) then Some(TotalTooLarge)
    else if Abs(big - small) > bank.capital then Some(ExposureTooLarge)
    else if ReasonOf(big + small, forceRefund) == Played && !ValidDice(dice) then Some(BadDice)
    else None
  }

  /** What one bettor gets back. */
  ghost function Due(bets: seq<Bet>, dice: seq<int>, reason: Reason, user: User): int
    requires reason == Played ==> |dice| == 3
  {
    if reason != Played then Invested(bets, user)
    else
      match Winner(dice)
      case None => 0
      case Some(side) => 2 * Stake(bets, user, side)
  }

  // ---------------------------------------------------------------- sums over the bettors

  lemma {:induction false} StakeOfStranger(bets: seq<Bet>, user: User, side: Side)
    requires user !in Bettors(bets)
    ensures Stake(bets, user, side) == 0
  {
    if bets != [] {
      var init, b := bets[..|bets| - 1], bets[|bets| - 1];
      assert b in bets && forall c :: c in init ==> c in bets;
      StakeOfStranger(init, user, side);
    }
  }

  /** The stakes of the bettors on one side add up to that side's total. */
  lemma {:induction false} StakesAddUp(bets: seq<Bet>, users: set<User>, side: Side)
    requires Bettors(bets) <= users
    ensures Sum(users, u => Stake(bets, u, side)) == Staked(bets, side)
    decreases |bets|
  {
    var f := u => Stake(bets, u, side);
    if bets == [] {
      SumZero(users, f);
    } else {
      var init, b := bets[..|bets| - 1], bets[|bets| - 1];
      assert b in bets && b.user in Bettors(bets);
      assert Bettors(init) <= Bettors(bets);
      var g := u => Stake(init, u, side);
      StakesAddUp(init, users, side);
      SumChangesAt(users, g, f, b.user);
    }
  }

  lemma {:induction false} StakesNonnegative(bets: seq<Bet>, bank: Bank, user: User)
    requires FirstBetError(bets, bank) == None
    ensures Stake(bets, user, Big) >= 0 && Stake(bets, user, Small) >= 0
    ensures Staked(bets, Big) >= 0 && Staked(bets, Small) >= 0
    ensures Staked(bets, Big) + Staked(bets, Small) == 0 ==> bets == []
  {
    if bets != [] {
      StakesNonnegative(bets[..|bets| - 1], bank, user);
    }
  }

  /** What all bettors get back together. */
  ghost function Payout(bets: seq<Bet>, dice: seq<int>, reason: Reason): int
    requires reason == Played ==> |dice| == 3
  {
    if reason != Played then Staked(bets, Big) + Staked(bets, Small)
    else
      match Winner(dice)
      case None => 0
      case Some(side) => 2 * Staked(bets, side)
  }

  lemma PayoutAddsUp(bets: seq<Bet>, dice: seq<int>, reason: Reason, users: set<User>)
    requires Bettors(bets) <= users && (reason == Played ==> |dice| == 3)
    ensures Sum(users, u => Due(bets, dice, reason, u)) == Payout(bets, dice, reason)
  {
    var big, small := (u: User) => Stake(bets, u, Big), (u: User) => Stake(bets, u, Small);
    var due := (u: User) requires reason == Played ==> |dice| == 3 => Due(bets, dice, reason, u);
    StakesAddUp(bets, users, Big);
    StakesAddUp(bets, users, Small);
    if reason != Played {
      SumAdds(users, big, small, u => Invested(bets, u));
      SumAgrees(users, u => Due(bets, dice, reason, u), u => Invested(bets, u));
    } else {
      match Winner(dice)
      case None => SumZero(users, u => Due(bets, dice, reason, u));
      case Some(side) =>
        StakesAddUp(bets, users, side);
        SumAdds(users, u => Stake(bets, u, side), u => Stake(bets, u, side), u => Due(bets, dice, reason, u));
    }
  }

  // ---------------------------------------------------------------- settling

  datatype Sides = Sides(big: int, small: int)

  ghost predicate Books(stakes: map<User, Sides>, bets: seq<Bet>) {
    && stakes.Keys == Bettors(bets)
    && forall u :: u in stakes ==> stakes[u] == Sides(Stake(bets, u, Big), Stake(bets, u, Small))
  }

  lemma BooksGrow(stakes: map<User, Sides>, bets: seq<Bet>, b: Bet)
    requires Books(stakes, bets) && b.side != Unknown
    ensures var was := if b.user in stakes then stakes[b.user] else Sides(0, 0);
            Books(stakes[b.user := if b.side == Big then Sides(was.big + b.amount, was.small)
                                   else Sides(was.big, was.small + b.amount)], bets + [b])
  {
    var all := bets + [b];
    assert all[..|all| - 1] == bets;
    assert Bettors(all) == Bettors(bets) + {b.user} by {
      forall u | u in Bettors(bets) + {b.user} ensures u in Bettors(all) {
        if u == b.user { assert b in all; }
        else { var c :| c in bets && c.user == u; assert c in all; }
      }
    }
    if b.user !in stakes {
      StakeOfStranger(bets, b.user, Big);
      StakeOfStranger(bets, b.user, Small);
    }
  }

  lemma TallyGrows(bets: seq<Bet>, b: Bet, bank: Bank)
    requires FirstBetError(bets, bank) == None
    ensures FirstBetError(bets + [b], bank) == BetError(b, bank)
    ensures Staked(bets + [b], Big) == Staked(bets, Big) + if b.side == Big then b.amount else 0
    ensures Staked(bets + [b], Small) == Staked(bets, Small) + if b.side == Small then b.amount else 0
  {
    assert (bets + [b])[..|bets|] == bets;
  }

  method Tally(bets: seq<Bet>, bank: Bank) returns (r: Result<(Sides, map<User, Sides>), Refused>)
    ensures match FirstBetError(bets, bank)
            case Some(e) => r == Err(e)
            case None => r.Ok? && r.value.0 == Sides(Staked(bets, Big), Staked(bets, Small)) && Books(r.value.1, bets)
  {
    var totals := Sides(0, 0);
    var stakes: map<User, Sides> := map[];
    ghost var seen := [];
    for n := 0 to |bets|
      invariant seen == bets[..n] && FirstBetError(seen, bank) == None
      invariant totals == Sides(Staked(seen, Big), Staked(seen, Small))
      invariant Books(stakes, seen)
    {
      var b := bets[n];
      TallyGrows(seen, b, bank);
      assert bets[..n + 1] == seen + [b];
      if b.user == bank.user || b.side == Unknown {
        ErrorStays(bets, n + 1, bank);
        return Err(InvalidBet);
      }
      if !IsAmount(b.amount) {
        ErrorStays(bets, n + 1, bank);
        return Err(BadAmount);
      }
      var was := if b.user in stakes then stakes[b.user] else Sides(0, 0);
      BooksGrow(stakes, seen, b);
      seen := seen + [b];
      if b.side == Big {
        totals := totals.(big := totals.big + b.amount);
        stakes := stakes[b.user := Sides(was.big + b.amount, was.small)];
      } else {
        totals := totals.(small := totals.small + b.amount);
        stakes := stakes[b.user := Sides(was.big, was.small + b.amount)];
      }
    }
    assert bets[..|bets|] == bets;
    return Ok((totals, stakes));
  }

  lemma {:induction false} ErrorStays(bets: seq<Bet>, n: nat, bank: Bank)
    requires n <= |bets| && FirstBetError(bets[..n], bank).Some?
    ensures FirstBetError(bets, bank) == FirstBetError(bets[..n], bank)
    decreases |bets|
  {
    if n == |bets| {
      assert bets[..n] == bets;
    } else {
      assert bets[..|bets| - 1][..n] == bets[..n];
      ErrorStays(bets[..|bets| - 1], n, bank);
    }
  }

  method SumReturned(users: map<User, Outcome>) returns (paid: int)
    ensures paid == Sum(users.Keys, u => if u in users then users[u].returned else 0)
  {
    ghost var f := u => if u in users then users[u].returned else 0;
    paid := 0;
    var todo := users.Keys;
    while todo != {}
      invariant todo <= users.Keys
      invariant paid + Sum(todo, f) == Sum(users.Keys, f)
      decreases todo
    {
      var u :| u in todo;
      SumRemove(todo, f, u);
      paid := paid + users[u].returned;
      todo := todo - {u};
    }
  }

  method PayUsers(stakes: map<User, Sides>, winner: Option<Side>, reason: Reason, ghost bets: seq<Bet>, ghost dice: seq<int>)
      returns (users: map<User, Outcome>)
    requires Books(stakes, bets) && (reason == Played ==> |dice| == 3 && winner == Winner(dice))
    ensures users.Keys == Bettors(bets)
    ensures forall u :: u in users ==> users[u] == OutcomeOf(bets, dice, reason, u)
  {
    users := map[];
    var todo := stakes.Keys;
    while todo != {}
      invariant todo <= stakes.Keys && users.Keys == stakes.Keys - todo
      invariant forall u :: u in users ==> users[u] == OutcomeOf(bets, dice, reason, u)
      decreases todo
    {
      var u :| u in todo;
      var sides := stakes[u];
      var invested := sides.big + sides.small;
      var hit := match winner case None => 0 case Some(side) => if side == Big then sides.big else sides.small;
      var returned := if reason != Played then invested else 2 * hit;
      users := users[u := Outcome(invested, returned, returned - invested)];
      todo := todo - {u};
    }
  }

  /**
    Settles a round.  A round that no guard refuses pays every bettor what is due, and the
    bank the whole rest of collateral and stakes; the conservation guard never fires.
  */
  method Settle(bets: seq<Bet>, dice: seq<int>, bank: Bank, forceRefund: bool) returns (r: Result<Settlement, Refused>)
    ensures match Refusal(bets, dice, bank, forceRefund)
            case Some(e) => r == Err(e)
            case None => r.Ok? && Settles(r.value, bets, dice, bank, forceRefund)
  {
    if !IsAmount(bank.capital) {
      return Err(BadCapital);
    }
    var tally := Tally(bets, bank);
    if tally.Err? {
      return Err(tally.error);
    }
    var (totals, stakes) := tally.value;
    var total := totals.big + totals.small;
    if !IsAmount(bank.capital + total) {
      return Err(TotalTooLarge);
    }
    if Abs(totals.big - totals.small) > bank.capital {
      return Err(ExposureTooLarge);
    }
    var reason := if forceRefund then Timeout else if total == 0 then Empty else Played;
    if reason == Played && !ValidDice(dice) {
      return Err(BadDice);
    }
    var winner := if reason != Played then None else Winner(dice);
    var users := PayUsers(stakes, winner, reason, bets, dice);
    var paid := SumReturned(users);
    var net := total - paid;
    var house := Outcome(bank.capital, bank.capital + net, net);
    assert paid == Payout(bets, dice, reason) by {
      PayoutAddsUp(bets, dice, reason, users.Keys);
      SumAgrees(users.Keys, u => if u in users then users[u].returned else 0, u => Due(bets, dice, reason, u));
    }
    StakesNonnegative(bets, bank, bank.user);
    if house.returned < 0 || paid + house.returned != bank.capital + total {
      assert false;
      return Err(NotConserved);
    }
    r := Ok(Settlement(total, reason, users, house));
  }

  ghost function OutcomeOf(bets: seq<Bet>, dice: seq<int>, reason: Reason, user: User): Outcome
    requires reason == Played ==> |dice| == 3
  {
    var due := Due(bets, dice, reason, user);
    Outcome(Invested(bets, user), due, due - Invested(bets, user))
  }

  ghost predicate Settles(s: Settlement, bets: seq<Bet>, dice: seq<int>, bank: Bank, forceRefund: bool) {
    && s.total == Staked(bets, Big) + Staked(bets, Small)
    && s.reason == ReasonOf(s.total, forceRefund)
    && (s.reason == Played ==> ValidDice(dice))
    && s.users.Keys == Bettors(bets)
    && (forall u :: u in s.users ==> s.users[u] == OutcomeOf(bets, dice, s.reason, u))
    && s.bank.invested == bank.capital
    && s.bank.returned == bank.capital + s.total - Payout(bets, dice, s.reason)
    && s.bank.net == s.bank.returned - bank.capital
  }

  ghost function Returned(s: Settlement, u: User): int { if u in s.users then s.users[u].returned else 0 }
  ghost function Net(s: Settlement, u: User): int { if u in s.users then s.users[u].net else 0 }
  ghost function Staking(s: Settlement, u: User): int { if u in s.users then s.users[u].invested else 0 }

  /** Points are neither made nor lost, and the bank never owes more than its collateral. */
  lemma Conserved(s: Settlement, bets: seq<Bet>, dice: seq<int>, bank: Bank, forceRefund: bool)
    requires Refusal(bets, dice, bank, forceRefund) == None && Settles(s, bets, dice, bank, forceRefund)
    ensures Sum(s.users.Keys, u => Returned(s, u)) + s.bank.returned == bank.capital + s.total
    ensures Sum(s.users.Keys, u => Net(s, u)) + s.bank.net == 0
    ensures 0 <= s.bank.returned
    ensures forall u :: u in s.users ==> 0 <= s.users[u].returned
  {
    var users := s.users.Keys;
    PayoutAddsUp(bets, dice, s.reason, users);
    SumAgrees(users, u => Due(bets, dice, s.reason, u), u => Returned(s, u));
    StakesAddUp(bets, users, Big);
    StakesAddUp(bets, users, Small);
    SumAdds(users, u => Stake(bets, u, Big), u => Stake(bets, u, Small), u => Staking(s, u));
    SumAdds(users, u => Staking(s, u), u => Net(s, u), u => Returned(s, u));
    StakesNonnegative(bets, bank, bank.user);
    forall u | u in s.users ensures 0 <= s.users[u].returned { StakesNonnegative(bets, bank, u); }
  }

  /** The bank wins the losing side and pays the winning one; a triple takes both; a refund moves nothing. */
  lemma BankNet(s: Settlement, bets: seq<Bet>, dice: seq<int>, bank: Bank, forceRefund: bool)
    requires Refusal(bets, dice, bank, forceRefund) == None && Settles(s, bets, dice, bank, forceRefund)
    ensures s.bank.net ==
              if s.reason != Played then 0
              else match Winner(dice)
                   case None => s.total
                   case Some(Big) => Staked(bets, Small) - Staked(bets, Big)
                   case _ => Staked(bets, Big) - Staked(bets, Small)
    ensures s.reason != Played ==> forall u :: u in s.users ==> s.users[u].returned == s.users[u].invested && s.users[u].net == 0
    ensures -bank.capital <= s.bank.net <= s.total
  {
    StakesNonnegative(bets, bank, bank.user);
  }

  /** A bet the bank may hold: from someone else, on a side, of an amount the books can store. */
  ghost predicate GoodBet(b: Bet, bank: Bank) {
    b.user != bank.user && b.side in {Big, Small} && 1 <= b.amount <= 9223372036854775807
  }

  ghost predicate AllGood(bets: seq<Bet>, bank: Bank) { forall b :: b in bets ==> GoodBet(b, bank) }

  lemma AllGoodSplits(bets: seq<Bet>, b: Bet, bank: Bank)
    ensures AllGood(bets + [b], bank) <==> AllGood(bets, bank) && GoodBet(b, bank)
  {
    if AllGood(bets + [b], bank) {
      assert b in bets + [b];
      forall c | c in bets ensures GoodBet(c, bank) { assert c in bets + [b]; }
    }
  }

  lemma {:induction false} GoodBetsExactly(bets: seq<Bet>, bank: Bank)
    ensures FirstBetError(bets, bank).None? <==> AllGood(bets, bank)
  {
    if bets != [] {
      var init, last := bets[..|bets| - 1], bets[|bets| - 1];
      GoodBetsExactly(init, bank);
      AllGoodSplits(init, last, bank);
      assert bets == init + [last];
    }
  }

  /**
    A round settles exactly if capital and total can be stored, every bet is good, the capital covers the
    difference of the sides and, unless it is refunded or empty, there are three dice.
  */
  lemma SettlesExactly(bets: seq<Bet>, dice: seq<int>, bank: Bank, forceRefund: bool)
    ensures var big, small := Staked(bets, Big), Staked(bets, Small);
            Refusal(bets, dice, bank, forceRefund).None? <==>
              && 1 <= bank.capital <= 9223372036854775807 && AllGood(bets, bank)
              && 1 <= bank.capital + big + small <= 9223372036854775807
              && -bank.capital <= big - small <= bank.capital
              && (forceRefund || big + small == 0 || (|dice| == 3 && forall i :: 0 <= i < 3 ==> 1 <= dice[i] <= 6))
  {
    GoodBetsExactly(bets, bank);
  }

  /**
    Which dice pay whom.  Three equal dice pay nobody and the bank takes all; else eleven points or more pay
    the big side double and ten or less the small side, and the bank gets or pays the difference.  A forced
    refund returns every stake, whatever the dice.
  */
  lemma DicePay(s: Settlement, bets: seq<Bet>, dice: seq<int>, bank: Bank, forceRefund: bool)
    requires Refusal(bets, dice, bank, forceRefund) == None && Settles(s, bets, dice, bank, forceRefund)
    ensures forceRefund || bets == [] ==>
              s.bank.net == 0 && forall u :: u in s.users ==> s.users[u].returned == Stake(bets, u, Big) + Stake(bets, u, Small)
    ensures !forceRefund && bets != [] ==> |dice| == 3
    ensures !forceRefund && bets != [] && dice[0] == dice[1] == dice[2] ==>
              && s.bank.net == Staked(bets, Big) + Staked(bets, Small)
              && forall u :: u in s.users ==> s.users[u].returned == 0
    ensures !forceRefund && bets != [] && !(dice[0] == dice[1] == dice[2]) && dice[0] + dice[1] + dice[2] >= 11 ==>
              && s.bank.net == Staked(bets, Small) - Staked(bets, Big)
              && forall u :: u in s.users ==> s.users[u].returned == 2 * Stake(bets, u, Big)
    ensures !forceRefund && bets != [] && !(dice[0] == dice[1] == dice[2]) && dice[0] + dice[1] + dice[2] <= 10 ==>
              && s.bank.net == Staked(bets, Big) - Staked(bets, Small)
              && forall u :: u in s.users ==> s.users[u].returned == 2 * Stake(bets, u, Small)
    ensures forall u :: u in s.users ==> s.users[u].invested == Stake(bets, u, Big) + Stake(bets, u, Small)
    ensures forall u :: u in s.users ==> s.users[u].net == s.users[u].returned - s.users[u].invested
    ensures s.bank.invested == bank.capital && s.bank.returned == bank.capital + s.bank.net
  {
    StakesNonnegative(bets, bank, bank.user);
  }

  /** What a stake is: the amounts one user bet on one side, over all bets in any order. */
  lemma {:induction false} StakeMeans(a: seq<Bet>, b: seq<Bet>, user: User, side: Side)
    ensures Stake(a + b, user, side) == Stake(a, user, side) + Stake(b, user, side)
    ensures forall amount :: Stake([Bet(user, side, amount)], user, side) == amount
    ensures forall other: Bet :: other.user != user || other.side != side ==> Stake([other], user, side) == 0
  {
    if b == [] {
      assert a + b == a;
    } else {
      var init, last := b[..|b| - 1], b[|b| - 1];
      StakeMeans(a, init, user, side);
      assert (a + b)[..|a + b| - 1] == a + init && (a + b)[|a + b| - 1] == last;
    }
  }

  // ---------------------------------------------------------------- admitting bets

  /** The money side of an open banker round. */
  datatype Book = Book(capital: int, cap: Option<int>, big: int, small: int) {
    function Accepted(): int { big + small }
    function On(side: Side): int { if side == Big then big else small }
    function Against(side: Side): int { if side == Big then small else big }
  }

  /** Either a number of points or all that fits. */
  datatype Ask = Points(amount: int) | AllIn

  datatype NotAdmitted =
    | NotAnAmount | OverPoolCap | NoBalance | SideFull | IntegerFull | PoolFull | EscrowTooLarge | OverExposure | AcceptedTooLarge | PoorBalance

  function Capacity(book: Book, side: Side): int { book.capital + book.Against(side) - book.On(side) }

  function Room(book: Book): int { MAX_INT - book.capital - book.Accepted() }

  function PoolRoom(book: Book): int {
    match book.cap case Some(cap) => cap - book.Accepted() case None => Room(book)
  }

  /** The most this side takes from this balance. */
  function Headroom(book: Book, side: Side, balance: int): int {
    Min(Min(balance, Capacity(book, side)), Min(Room(book), PoolRoom(book)))
  }

  function Plus(book: Book, side: Side, amount: int): Book {
    if side == Big then book.(big := book.big + amount) else book.(small := book.small + amount)
  }

  /** The guards of a group bet in their order, then the amount that is taken. */
  function Admit(book: Book, side: Side, ask: Ask, balance: int): Result<int, NotAdmitted> {
    if ask.Points? && !IsAmount(ask.amount) then Err(NotAnAmount)
    else if ask.Points? && book.cap.Some? && ask.amount > PoolRoom(book) then Err(OverPoolCap)
    else if ask.AllIn? && balance <= 0 then Err(NoBalance)
    else if ask.AllIn? && Capacity(book, side) <= 0 then Err(SideFull)
    else if ask.AllIn? && Room(book) <= 0 then Err(IntegerFull)
    else if ask.AllIn? && PoolRoom(book) <= 0 then Err(PoolFull)
    else
      var amount := if ask.AllIn? then Headroom(book, side, balance) else ask.amount;
      var after := Plus(book, side, amount);
      if !IsAmount(book.capital + book.Accepted() + amount) then Err(EscrowTooLarge)
      else if Abs(after.big - after.small) > book.capital then Err(OverExposure)
      else if !IsAmount(book.Accepted() + amount) then Err(AcceptedTooLarge)
      else if balance < amount then Err(PoorBalance)
      else Ok(amount)
  }

  ghost predicate Covered(book: Book) {
    && IsAmount(book.capital) && 0 <= book.big && 0 <= book.small
    && Abs(book.big - book.small) <= book.capital
    && book.capital + book.Accepted() <= MAX_INT
    && (book.cap.Some? ==> book.Accepted() <= book.cap.value)
  }

  /** A number of points is admitted exactly up to the headroom, and then in full. */
  lemma AdmitExactly(book: Book, side: Side, amount: int, balance: int)
    requires Covered(book) && side != Unknown
    ensures Admit(book, side, Points(amount), balance).Ok? <==> 1 <= amount <= Headroom(book, side, balance)
    ensures Admit(book, side, Points(amount), balance).Ok? ==> Admit(book, side, Points(amount), balance).value == amount
  {
  }

  /**
    The same in plain sums: a bet is admitted exactly if the player can pay it, the capital covers the
    difference of the sides with it, and the stored total and the pool's cap hold it.
  */
  lemma AdmitMeans(book: Book, side: Side, amount: int, balance: int)
    requires Covered(book) && side != Unknown
    ensures Admit(book, side, Points(amount), balance).Ok? <==>
              && 1 <= amount <= balance
              && (if side == Big then book.big + amount - book.small else book.small + amount - book.big) <= book.capital
              && book.capital + book.big + book.small + amount <= 9223372036854775807
              && (book.cap.Some? ==> book.big + book.small + amount <= book.cap.value)
  {
    AdmitExactly(book, side, amount, balance);
  }

  /** Asking for all takes the largest number of points the round would have taken, if there is one. */
  lemma AllInIsLargest(book: Book, side: Side, amount: int, balance: int)
    requires Covered(book) && side != Unknown && Admit(book, side, Points(amount), balance).Ok?
    ensures Admit(book, side, AllIn, balance).Ok? && amount <= Admit(book, side, AllIn, balance).value
    ensures Admit(book, side, Points(Admit(book, side, AllIn, balance).value), balance).Ok?
  {
    AdmitExactly(book, side, amount, balance);
    AllInTakesHeadroom(book, side, balance);
    AdmitExactly(book, side, Headroom(book, side, balance), balance);
  }

  lemma AllInTakesHeadroom(book: Book, side: Side, balance: int)
    requires Covered(book) && side != Unknown
    ensures Admit(book, side, AllIn, balance).Ok? <==> 1 <= Headroom(book, side, balance)
    ensures Admit(book, side, AllIn, balance).Ok? ==> Admit(book, side, AllIn, balance).value == Headroom(book, side, balance)
  {
  }

  lemma AdmitKeepsCovered(book: Book, side: Side, ask: Ask, balance: int)
    requires Covered(book) && side != Unknown && Admit(book, side, ask, balance).Ok?
    ensures Covered(Plus(book, side, Admit(book, side, ask, balance).value))
    ensures IsAmount(Admit(book, side, ask, balance).value)
  {
  }

  datatype Request = Request(user: User, side: Side, ask: Ask, balance: int)

  /** The bets a round ends with: the requests it admitted, in order. */
  function Take(book: Book, bank: Bank, requests: seq<Request>): (r: (Book, seq<Bet>))
    decreases |requests|
  {
    if requests == [] then (book, [])
    else
      var (before, bets) := Take(book, bank, requests[..|requests| - 1]);
      var q := requests[|requests| - 1];
      if q.user == bank.user || q.side == Unknown then (before, bets)
      else
        match Admit(before, q.side, q.ask, q.balance)
        case Err(_) => (before, bets)
        case Ok(amount) => (Plus(before, q.side, amount), bets + [Bet(q.user, q.side, amount)])
  }

  lemma {:induction false} TakenBooks(book: Book, bank: Bank, requests: seq<Request>)
    requires Covered(book) && book.big == 0 && book.small == 0 && book.capital == bank.capital
    ensures var (b, bets) := Take(book, bank, requests);
            Covered(b) && b.capital == bank.capital && b.big == Staked(bets, Big) && b.small == Staked(bets, Small)
            && FirstBetError(bets, bank) == None
    decreases |requests|
  {
    if requests != [] {
      var init, q := requests[..|requests| - 1], requests[|requests| - 1];
      TakenBooks(book, bank, init);
      var (before, bets) := Take(book, bank, init);
      if q.user != bank.user && q.side != Unknown {
        var got := Admit(before, q.side, q.ask, q.balance);
        if got.Ok? {
          AdmitKeepsCovered(before, q.side, q.ask, q.balance);
          var more := bets + [Bet(q.user, q.side, got.value)];
          assert more[..|more| - 1] == bets;
        }
      }
    }
  }

  /** Whatever was asked of an open round, what it admitted can always be settled. */
  lemma AdmittedRoundSettles(book: Book, bank: Bank, requests: seq<Request>, dice: seq<int>, forceRefund: bool)
    requires book == Book(bank.capital, book.cap, 0, 0) && 1 <= bank.capital <= 9223372036854775807
    requires (book.cap.Some? ==> 0 <= book.cap.value) && ValidDice(dice)
    ensures Refusal(Take(book, bank, requests).1, dice, bank, forceRefund) == None
  {
    TakenBooks(book, bank, requests);
  }
}
