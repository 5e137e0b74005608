/** The auction lot lifecycle: opening a lot, bidding on it, closing it as sold or
    unsold, skipping it back to the queue, clearing its bids, and the auction_state
    settings the auction screen reads. */
module Auction {
  import opened Tables
  import opened Database

  // ---------------------------------------------------------------------------
  // startAuction
  // ---------------------------------------------------------------------------

  /** A row the start statement selects: `WHERE id = $2 AND status != 'sold'`. */
  predicate Startable(p: Player, id: int)
  {
    p.id == id && p.status != Sold
  }

  predicate HasStartable(ps: seq<Player>, id: int)
  {
    exists i :: 0 <= i < |ps| && Startable(ps[i], id)
  }

  /** `COALESCE(basePrice || null, base_price, 50)`: a truthy override wins, then the
      stored price (even 0), then 50. */
  function LotBasePrice(p: Player, basePrice: Option<int>): (r: int)
    ensures Truthy(basePrice) ==> r == basePrice.value
    ensures !Truthy(basePrice) && p.basePrice.Some? ==> r == p.basePrice.value
    ensures !Truthy(basePrice) && p.basePrice.None? ==> r == DefaultBasePrice
  {
    if Truthy(basePrice) then basePrice.value
    else if p.basePrice.Some? then p.basePrice.value
    else DefaultBasePrice
  }

  /** The UPDATE of startAuction, row by row. */
  function StartLot(ps: seq<Player>, id: int, basePrice: Option<int>): (r: seq<Player>)
    ensures |r| == |ps|
    ensures forall i :: 0 <= i < |ps| ==>
      r[i] == if Startable(ps[i], id)
              then ps[i].(status := Auctioning, basePrice := Some(LotBasePrice(ps[i], basePrice)))
              else ps[i]
  {
    seq(|ps|, i requires 0 <= i < |ps| =>
      if Startable(ps[i], id)
      then ps[i].(status := Auctioning, basePrice := Some(LotBasePrice(ps[i], basePrice)))
      else ps[i])
  }

  /** startAuction: opens the lot of an existing, unsold player and answers with the
      updated row. A missing id is a bad request; an unknown or sold player is
      refused; a refusal changes nothing. */
  method StartAuction(l: Ledger, playerId: Option<int>, basePrice: Option<int>) returns (r: Result<Player>)
    requires l.Valid()
    modifies l`players
    ensures l.Valid()
    ensures !Truthy(playerId) ==> r == Failure(BadRequest)
    ensures Truthy(playerId) ==> (r.Success? <==> HasStartable(old(l.players), playerId.value))
    ensures Truthy(playerId) && r.Failure? ==> r.error == Conflict
    ensures r.Failure? ==> l.players == old(l.players)
    ensures r.Success? ==> l.players == StartLot(old(l.players), playerId.value, basePrice)
    ensures r.Success? ==> r.value in l.players && r.value.id == playerId.value && r.value.status == Auctioning
    ensures r.Success? ==>
      exists i :: 0 <= i < |old(l.players)| && Startable(old(l.players)[i], playerId.value) &&
        r.value == old(l.players)[i].(status := Auctioning, basePrice := Some(LotBasePrice(old(l.players)[i], basePrice)))
  {
    if !Truthy(playerId) {
      return Failure(BadRequest);
    }
    var id := playerId.value;
    var found := FindPlayer(l.players, id);
    if found.None? {
      return Failure(Conflict);
    }
    var i := found.value;
    assert forall j :: 0 <= j < |l.players| && Startable(l.players[j], id) ==> j == i by {
      assert UniqueKeys(l.players, PlayerKey);
    }
    if l.players[i].status == Sold {
      return Failure(Conflict);
    }
    var updated := StartLot(l.players, id, basePrice);
    SameIdsKeepKeys(l.players, updated, l.teams, l.teams, l.nextPlayerId, l.nextTeamId);
    l.players := updated;
    r := Success(updated[i]);
  }

  /** Nothing stops a second lot from opening while another player is already
      being auctioned. */
  lemma StartLotAllowsTwoLots(a: Player, b: Player)
    requires a.id != b.id && a.status == Auctioning && b.status != Sold
    ensures HasStartable([a, b], b.id)
    ensures var r := StartLot([a, b], b.id, None); r[0].status == Auctioning && r[1].status == Auctioning
  {
    assert Startable([a, b][1], b.id);
  }

  // ---------------------------------------------------------------------------
  // placeBid
  // ---------------------------------------------------------------------------

  /** placeBid: after the input checks, inside one transaction, looks the team up,
      refuses a bid above its remaining budget, then inserts the same bid into bids
      and into bid_logs. Each insert is checked against the foreign keys of its
      table; a failed insert rolls the transaction back. Amounts are the already
      rounded integers. */
  method PlaceBid(l: Ledger, playerId: Option<int>, teamId: Option<int>, bidAmount: Option<int>)
    returns (r: Result<BidRow>)
    requires l.Valid()
    modifies l`bids, l`bidLogs, l`nextBidId, l`nextBidLogId
    ensures l.Valid()
    ensures !(Truthy(playerId) && Truthy(teamId) && Truthy(bidAmount)) ==> r == Failure(BadRequest)
    ensures Truthy(playerId) && Truthy(teamId) && Truthy(bidAmount) ==>
      var amount, team := bidAmount.value, FindTeam(l.teams, teamId.value);
      && (amount <= 0 ==> r == Failure(BadRequest))
      && (amount > 0 && team.None? ==> r == Failure(NotFound))
      && (amount > 0 && team.Some? && amount > l.teams[team.value].remainingBudget ==>
            r == Failure(BudgetExceeded(l.teams[team.value].remainingBudget)))
      && (amount > 0 && team.Some? && amount <= l.teams[team.value].remainingBudget ==>
            (r.Success? <==> HasPlayer(l.players, playerId.value, false)))
      && ((amount > 0 && team.Some? && amount <= l.teams[team.value].remainingBudget
           && !HasPlayer(l.players, playerId.value, false)) ==> r == Failure(ServerError))
    ensures r.Failure? ==> l.bids == old(l.bids) && l.bidLogs == old(l.bidLogs)
    ensures r.Success? ==>
      && r.value == BidRow(old(l.nextBidId), playerId.value, teamId.value, bidAmount.value)
      && l.bids == old(l.bids) + [r.value]
      && l.bidLogs == old(l.bidLogs) + [r.value.(id := old(l.nextBidLogId))]
  {
    if !(Truthy(playerId) && Truthy(teamId) && Truthy(bidAmount)) {
      return Failure(BadRequest);
    }
    var amount := bidAmount.value;
    if amount <= 0 {
      return Failure(BadRequest);
    }
    // BEGIN
    var team := FindTeam(l.teams, teamId.value);
    if team.None? {
      return Failure(NotFound);
    }
    var remaining := l.teams[team.value].remainingBudget;
    if amount > remaining {
      return Failure(BudgetExceeded(remaining));
    }
    var bid := BidRow(l.nextBidId, playerId.value, teamId.value, amount);
    if !HasPlayer(l.players, playerId.value, false) {
      // the insert into bids violates bids.player_id's foreign key and is refused;
      // ROLLBACK leaves both tables as they were
      return Failure(ServerError);
    }
    l.bids := l.bids + [bid];
    l.nextBidId := l.nextBidId + 1;
    l.bidLogs := l.bidLogs + [bid.(id := l.nextBidLogId)];
    l.nextBidLogId := l.nextBidLogId + 1;
    // COMMIT
    r := Success(bid);
  }

  // ---------------------------------------------------------------------------
  // getCurrentAuction
  // ---------------------------------------------------------------------------

  /** The first row, in table order, with the given status (`LIMIT 1`). */
  function FirstWithStatus(ps: seq<Player>, st: Status): (r: Option<nat>)
    ensures r.Some? ==> r.value < |ps| && ps[r.value].status == st
    ensures r.Some? ==> forall j :: 0 <= j < r.value ==> ps[j].status != st
    ensures r.None? <==> forall j :: 0 <= j < |ps| ==> ps[j].status != st
  {
    if ps == [] then None
    else if ps[0].status == st then Some(0)
    else
      var r := FirstWithStatus(ps[1..], st);
      if r.None? then None else Some(r.value + 1)
  }

  /** A bid on `playerId` that survives the inner JOIN with teams. */
  predicate CountsFor(b: BidRow, ts: seq<Team>, playerId: int)
  {
    b.playerId == playerId && HasTeam(ts, b.teamId)
  }

  /** `ORDER BY amount DESC LIMIT 1` over the joined bids of a player: a bid of
      maximal amount (the earliest such one). */
  function HighestBid(bids: seq<BidRow>, ts: seq<Team>, playerId: int): (r: Option<BidRow>)
    ensures r.Some? ==> r.value in bids && CountsFor(r.value, ts, playerId)
    ensures r.Some? ==> forall b :: b in bids && CountsFor(b, ts, playerId) ==> b.amount <= r.value.amount
    ensures r.None? <==> forall b :: b in bids ==> !CountsFor(b, ts, playerId)
  {
    if bids == [] then None
    else
      var rest := HighestBid(bids[1..], ts, playerId);
      assert bids == [bids[0]] + bids[1..];
      if !CountsFor(bids[0], ts, playerId) then rest
      else if rest.None? || rest.value.amount <= bids[0].amount then Some(bids[0])
      else rest
  }

  /** A later bid below the highest one does not replace it: the lot reports the
      highest bid, not the latest. */
  lemma {:induction false} LowerBidKeepsHighest(bids: seq<BidRow>, ts: seq<Team>, playerId: int, b: BidRow)
    requires HighestBid(bids, ts, playerId).Some?
    requires b.amount < HighestBid(bids, ts, playerId).value.amount
    ensures HighestBid(bids + [b], ts, playerId) == HighestBid(bids, ts, playerId)
  {
    var x, rest := bids[0], bids[1..];
    assert (bids + [b])[0] == x && (bids + [b])[1..] == rest + [b];
    var hr := HighestBid(rest, ts, playerId);
    var hrb := HighestBid(rest + [b], ts, playerId);
    if hr.Some? && b.amount < hr.value.amount {
      LowerBidKeepsHighest(rest, ts, playerId, b);
    } else if hr.None? {
      assert CountsFor(x, ts, playerId);
      assert hrb.Some? ==> hrb.value == b;
    } else {
      assert CountsFor(x, ts, playerId) && hr.value.amount <= x.amount;
      assert hrb.Some? ==> hrb.value.amount <= x.amount;
    }
  }

  /** What getCurrentAuction answers. */
  datatype AuctionView = AuctionView(lot: Option<Player>, highestBid: Option<BidRow>, isAuctionActive: bool)

  function CurrentAuction(rows: seq<AuctionRow>, ps: seq<Player>, bids: seq<BidRow>, ts: seq<Team>): (v: AuctionView)
    ensures v.isAuctionActive <==> |rows| > 0 && rows[0].isActive == Some(true)
    ensures v.lot.None? <==> forall j :: 0 <= j < |ps| ==> ps[j].status != Auctioning
    ensures v.lot.Some? ==> v.lot.value in ps && v.lot.value.status == Auctioning
    ensures v.lot.Some? ==> v.lot == Some(ps[FirstWithStatus(ps, Auctioning).value])
    ensures v.lot.None? ==> v.highestBid.None?
    ensures v.lot.Some? ==> v.highestBid == HighestBid(bids, ts, v.lot.value.id)
  {
    var active := |rows| > 0 && rows[0].isActive == Some(true);
    var first := FirstWithStatus(ps, Auctioning);
    if first.None? then AuctionView(None, None, active)
    else
      var lot := ps[first.value];
      AuctionView(Some(lot), HighestBid(bids, ts, lot.id), active)
  }

  // ---------------------------------------------------------------------------
  // auction_state settings
  // ---------------------------------------------------------------------------

  /** What getAuctionState answers (the animation settings are not modelled). */
  datatype AuctionSettings = AuctionSettings(
    isActive: bool,
    sportMinBids: map<string, int>,
    isRegistrationOpen: bool,
    bidIncrementRules: seq<Rule>)

  /** The settings with their fallbacks: `|| false`, `|| defaults`, `?? true` and
      `|| defaults`. An explicit false registration flag is kept; only NULL falls
      back to true. */
  function SettingsView(rows: seq<AuctionRow>): (v: AuctionSettings)
    ensures rows == [] ==> v == AuctionSettings(false, DefaultSportMinBids, true, DefaultIncrementRules)
    ensures v.isActive <==> |rows| > 0 && rows[0].isActive == Some(true)
    ensures v.sportMinBids == MinBidsOf(rows)
    ensures |rows| > 0 && rows[0].isRegistrationOpen.Some? ==> v.isRegistrationOpen == rows[0].isRegistrationOpen.value
    ensures (|rows| == 0 || rows[0].isRegistrationOpen.None?) ==> v.isRegistrationOpen
    ensures |rows| > 0 && rows[0].bidIncrementRules.Some? ==> v.bidIncrementRules == rows[0].bidIncrementRules.value
    ensures (|rows| == 0 || rows[0].bidIncrementRules.None?) ==> v.bidIncrementRules == DefaultIncrementRules
  {
    if rows == [] then AuctionSettings(false, DefaultSportMinBids, true, DefaultIncrementRules)
    else
      var row := rows[0];
      AuctionSettings(
        row.isActive == Some(true),
        MinBidsOf(rows),
        if row.isRegistrationOpen.Some? then row.isRegistrationOpen.value else true,
        if row.bidIncrementRules.Some? then row.bidIncrementRules.value else DefaultIncrementRules)
  }

  /** The handler's fallbacks agree with the column defaults: a freshly inserted
      row reads the same as no row at all. */
  lemma FallbacksMatchColumnDefaults()
    ensures SettingsView([DefaultAuctionRow]) == SettingsView([])
  {
  }

  /** toggleAuctionState: `UPDATE auction_state SET is_active = $1` on every row. */
  method ToggleAuctionState(l: Ledger, isActive: Option<bool>)
    modifies l`auctionState
    ensures |l.auctionState| == |old(l.auctionState)|
    ensures forall i :: 0 <= i < |l.auctionState| ==> l.auctionState[i] == old(l.auctionState)[i].(isActive := isActive)
  {
    var rows := l.auctionState;
    l.auctionState := seq(|rows|, i requires 0 <= i < |rows| => rows[i].(isActive := isActive));
  }

  /** toggleRegistrationState: `UPDATE auction_state SET is_registration_open = $1`. */
  method ToggleRegistrationState(l: Ledger, isOpen: Option<bool>)
    modifies l`auctionState
    ensures |l.auctionState| == |old(l.auctionState)|
    ensures forall i :: 0 <= i < |l.auctionState| ==>
      l.auctionState[i] == old(l.auctionState)[i].(isRegistrationOpen := isOpen)
  {
    var rows := l.auctionState;
    l.auctionState := seq(|rows|, i requires 0 <= i < |rows| => rows[i].(isRegistrationOpen := isOpen));
  }

  /** updateSportMinBids: a missing object is a bad request; otherwise every row
      stores the new map. */
  method UpdateSportMinBids(l: Ledger, sportMinBids: Option<map<string, int>>) returns (r: Result<map<string, int>>)
    modifies l`auctionState
    ensures sportMinBids.None? <==> r == Failure(BadRequest)
    ensures sportMinBids.Some? ==> r.Success?
    ensures r.Failure? ==> l.auctionState == old(l.auctionState)
    ensures r.Success? ==> r.value == sportMinBids.value && |l.auctionState| == |old(l.auctionState)|
    ensures r.Success? ==> forall i :: 0 <= i < |l.auctionState| ==>
      l.auctionState[i] == old(l.auctionState)[i].(sportMinBids := sportMinBids)
  {
    if sportMinBids.None? {
      return Failure(BadRequest);
    }
    var rows := l.auctionState;
    l.auctionState := seq(|rows|, i requires 0 <= i < |rows| => rows[i].(sportMinBids := sportMinBids));
    r := Success(sportMinBids.value);
  }

  // ---------------------------------------------------------------------------
  // updateBidRules
  // ---------------------------------------------------------------------------

  /** A rule as received: a field that is not a number is None. */
  datatype RawRule = RawRule(threshold: Option<int>, increment: Option<int>)

  predicate Numeric(raw: RawRule)
  {
    raw.threshold.Some? && raw.increment.Some?
  }

  /** The validation loop: every rule must have a numeric threshold and increment. */
  function CheckRules(raw: seq<RawRule>): (r: Option<seq<Rule>>)
    ensures r.Some? <==> forall i :: 0 <= i < |raw| ==> Numeric(raw[i])
    ensures r.Some? ==> |r.value| == |raw| && forall i :: 0 <= i < |raw| ==>
      r.value[i] == Rule(raw[i].threshold.value, raw[i].increment.value)
  {
    if raw == [] then Some([])
    else if !Numeric(raw[0]) then None
    else
      var rest := CheckRules(raw[1..]);
      if rest.None? then None else Some([Rule(raw[0].threshold.value, raw[0].increment.value)] + rest.value)
  }

  /** The rules updateBidRules stores: validated, then sorted by threshold. */
  function ValidateRules(raw: Option<seq<RawRule>>): (r: Result<seq<Rule>>)
    ensures r.Success? <==> raw.Some? && |raw.value| > 0 && forall i :: 0 <= i < |raw.value| ==> Numeric(raw.value[i])
    ensures r.Failure? ==> r.error == BadRequest
    ensures r.Success? ==> SortedBy(r.value, RuleThreshold)
    ensures r.Success? ==> multiset(r.value) == multiset(CheckRules(raw.value).value)
  {
    if raw.None? || |raw.value| == 0 then Failure(BadRequest)
    else
      var rules := CheckRules(raw.value);
      if rules.None? then Failure(BadRequest) else Success(SortBy(rules.value, RuleThreshold))
  }

  /** Nothing requires the schedule to start at threshold 0. */
  lemma RulesNeedNoZeroAnchor()
    ensures var r := ValidateRules(Some([RawRule(Some(100), Some(5))]));
      r.Success? && r.value == [Rule(100, 5)]
  {
    var r := ValidateRules(Some([RawRule(Some(100), Some(5))]));
    assert multiset(r.value) == multiset{Rule(100, 5)};
    assert |r.value| == 1;
    assert r.value[0] in multiset(r.value);
  }

  /** updateBidRules: stores the validated, sorted schedule on every row. */
  method UpdateBidRules(l: Ledger, rules: Option<seq<RawRule>>) returns (r: Result<seq<Rule>>)
    modifies l`auctionState
    ensures r == ValidateRules(rules)
    ensures r.Failure? ==> l.auctionState == old(l.auctionState)
    ensures r.Success? ==> |l.auctionState| == |old(l.auctionState)|
    ensures r.Success? ==> forall i :: 0 <= i < |l.auctionState| ==>
      l.auctionState[i] == old(l.auctionState)[i].(bidIncrementRules := Some(r.value))
  {
    r := ValidateRules(rules);
    if r.Failure? {
      return;
    }
    var sorted, rows := r.value, l.auctionState;
    l.auctionState := seq(|rows|, i requires 0 <= i < |rows| => rows[i].(bidIncrementRules := Some(sorted)));
  }

  // ---------------------------------------------------------------------------
  // Closing a lot: skipPlayer, markPlayerSold, markPlayerUnsold, resetAuctionBid
  // ---------------------------------------------------------------------------

  /** `UPDATE players SET status = 'eligible', base_price = $1 WHERE id = $2`. */
  function Requeue(ps: seq<Player>, id: int, price: int): (r: seq<Player>)
    ensures |r| == |ps|
    ensures forall i :: 0 <= i < |ps| ==>
      r[i] == if ps[i].id == id then ps[i].(status := Eligible, basePrice := Some(price)) else ps[i]
  {
    seq(|ps|, i requires 0 <= i < |ps| =>
      if ps[i].id == id then ps[i].(status := Eligible, basePrice := Some(price)) else ps[i])
  }

  /** skipPlayer: sends an existing player back to the queue at its sport's minimum
      bid and answers with that bid. */
  method SkipPlayer(l: Ledger, playerId: Option<int>) returns (r: Result<int>)
    requires l.Valid()
    modifies l`players
    ensures l.Valid()
    ensures !Truthy(playerId) ==> r == Failure(BadRequest)
    ensures Truthy(playerId) && !HasPlayer(old(l.players), playerId.value, false) ==> r == Failure(NotFound)
    ensures Truthy(playerId) && HasPlayer(old(l.players), playerId.value, false) ==> r.Success?
    ensures r.Failure? ==> l.players == old(l.players)
    ensures r.Success? ==>
      var p := old(l.players)[FindPlayer(old(l.players), playerId.value).value];
      && r.value == MinBidFor(MinBidsOf(l.auctionState), SportName(p.sport))
      && l.players == Requeue(old(l.players), playerId.value, r.value)
  {
    if !Truthy(playerId) {
      return Failure(BadRequest);
    }
    var found := FindPlayer(l.players, playerId.value);
    if found.None? {
      return Failure(NotFound);
    }
    var p := l.players[found.value];
    var minBid := MinBidFor(MinBidsOf(l.auctionState), SportName(p.sport));
    var updated := Requeue(l.players, playerId.value, minBid);
    SameIdsKeepKeys(l.players, updated, l.teams, l.teams, l.nextPlayerId, l.nextTeamId);
    l.players := updated;
    r := Success(minBid);
  }

  /** `UPDATE players SET status = 'sold', team_id = $2, sold_price = $3 WHERE id = $4`. */
  function SellPlayer(ps: seq<Player>, id: int, teamId: int, price: int): (r: seq<Player>)
    ensures |r| == |ps|
    ensures forall i :: 0 <= i < |ps| ==>
      r[i] == if ps[i].id == id then ps[i].(status := Sold, teamId := Some(teamId), soldPrice := Some(price)) else ps[i]
  {
    seq(|ps|, i requires 0 <= i < |ps| =>
      if ps[i].id == id then ps[i].(status := Sold, teamId := Some(teamId), soldPrice := Some(price)) else ps[i])
  }

  /** `UPDATE teams SET remaining_budget = remaining_budget - $1 WHERE id = $2`. */
  function ChargeTeam(ts: seq<Team>, id: int, price: int): (r: seq<Team>)
    ensures |r| == |ts|
    ensures forall i :: 0 <= i < |ts| ==>
      r[i] == if ts[i].id == id then ts[i].(remainingBudget := ts[i].remainingBudget - price) else ts[i]
  {
    seq(|ts|, i requires 0 <= i < |ts| =>
      if ts[i].id == id then ts[i].(remainingBudget := ts[i].remainingBudget - price) else ts[i])
  }

  /** The charge is not checked against the budget: a price above the remaining
      budget leaves it negative. */
  lemma SaleCanOverdraw(ts: seq<Team>, i: nat, price: int)
    requires i < |ts| && ts[i].remainingBudget < price
    ensures ChargeTeam(ts, ts[i].id, price)[i].remainingBudget < 0
  {
  }

  /** markPlayerSold: the player becomes sold to the team at the price, and the
      team's remaining budget is charged the price. The first UPDATE fails on
      players.team_id's foreign key when it selects a row and the team does not
      exist. */
  method MarkPlayerSold(l: Ledger, playerId: Option<int>, teamId: Option<int>, finalPrice: Option<int>)
    returns (r: Result<()>)
    requires l.Valid()
    modifies l`players, l`teams
    ensures l.Valid()
    ensures !(Truthy(playerId) && Truthy(teamId) && Truthy(finalPrice)) <==> r == Failure(BadRequest)
    ensures Truthy(playerId) && Truthy(teamId) && Truthy(finalPrice) ==>
      (r == Failure(ServerError) <==> HasPlayer(old(l.players), playerId.value, false) && !HasTeam(old(l.teams), teamId.value))
    ensures (Truthy(playerId) && Truthy(teamId) && Truthy(finalPrice)
             && (HasPlayer(old(l.players), playerId.value, false) ==> HasTeam(old(l.teams), teamId.value)))
            ==> r.Success?
    ensures r.Failure? ==> r.error in {BadRequest, ServerError}
    ensures r.Failure? ==> l.players == old(l.players) && l.teams == old(l.teams)
    ensures r.Success? ==> l.players == SellPlayer(old(l.players), playerId.value, teamId.value, finalPrice.value)
    ensures r.Success? ==> l.teams == ChargeTeam(old(l.teams), teamId.value, finalPrice.value)
  {
    if !(Truthy(playerId) && Truthy(teamId) && Truthy(finalPrice)) {
      return Failure(BadRequest);
    }
    var pid, tid, price := playerId.value, teamId.value, finalPrice.value;
    if HasPlayer(l.players, pid, false) && FindTeam(l.teams, tid).None? {
      return Failure(ServerError);
    }
    var sold := SellPlayer(l.players, pid, tid, price);
    var charged := ChargeTeam(l.teams, tid, price);
    SameIdsKeepKeys(l.players, sold, l.teams, charged, l.nextPlayerId, l.nextTeamId);
    l.players := sold;
    l.teams := charged;
    r := Success(());
  }

  /** markPlayerUnsold: only the status changes, for every row with the id; no
      existence check and no refund. */
  method MarkPlayerUnsold(l: Ledger, playerId: Option<int>) returns (r: Result<()>)
    requires l.Valid()
    modifies l`players
    ensures l.Valid()
    ensures !Truthy(playerId) <==> r == Failure(BadRequest)
    ensures Truthy(playerId) ==> r.Success?
    ensures r.Failure? ==> l.players == old(l.players)
    ensures r.Success? ==> l.players == SetStatus(old(l.players), playerId.value, false, Unsold)
  {
    if !Truthy(playerId) {
      return Failure(BadRequest);
    }
    var updated := SetStatus(l.players, playerId.value, false, Unsold);
    SameIdsKeepKeys(l.players, updated, l.teams, l.teams, l.nextPlayerId, l.nextTeamId);
    l.players := updated;
    r := Success(());
  }

  /** Marking unsold refunds nothing: the team and price of a sold player stay, and
      marking twice is marking once. */
  lemma UnsoldKeepsSale(ps: seq<Player>, id: int)
    ensures forall i :: 0 <= i < |ps| ==>
      SetStatus(ps, id, false, Unsold)[i].teamId == ps[i].teamId
      && SetStatus(ps, id, false, Unsold)[i].soldPrice == ps[i].soldPrice
    ensures SetStatus(SetStatus(ps, id, false, Unsold), id, false, Unsold) == SetStatus(ps, id, false, Unsold)
  {
    SetStatusIdempotent(ps, id, false, Unsold);
  }

  /** resetAuctionBid: deletes the active bids of the lot being auctioned and
      answers with its base price (or 50); the bid log is left alone. */
  method ResetAuctionBid(l: Ledger) returns (r: Result<int>)
    modifies l`bids
    ensures FirstWithStatus(l.players, Auctioning).None? <==> r == Failure(Conflict)
    ensures FirstWithStatus(l.players, Auctioning).Some? ==> r.Success?
    ensures r.Failure? ==> l.bids == old(l.bids)
    ensures r.Success? ==>
      var lot := l.players[FirstWithStatus(l.players, Auctioning).value];
      && r.value == OrElse(lot.basePrice, DefaultBasePrice)
      && l.bids == Filter(old(l.bids), SpareBid({lot.id}, {}))
  {
    var first := FirstWithStatus(l.players, Auctioning);
    if first.None? {
      return Failure(Conflict);
    }
    var lot := l.players[first.value];
    l.bids := Filter(l.bids, SpareBid({lot.id}, {}));
    r := Success(OrElse(lot.basePrice, DefaultBasePrice));
  }

  /** The reset removes exactly the lot's bids: every other bid survives. */
  lemma ResetRemovesOnlyLotBids(bids: seq<BidRow>, lotId: int)
    ensures forall b :: b in Filter(bids, SpareBid({lotId}, {})) <==> b in bids && b.playerId != lotId
  {
  }
}
