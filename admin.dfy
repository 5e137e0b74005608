/** The administrator's operations on teams, wallets and the auction queue, and the
    CSV export of the players table. */
module Admin {
  import opened Tables
  import opened Text
  import opened Database

  // ---------------------------------------------------------------------------
  // Teams
  // ---------------------------------------------------------------------------

  /** The budget createTeam gives a team when the request names none (the column
      default of 2000 is never used by this handler). */
  const CreateTeamDefaultBudget := 100000

  /** createTeam: name and sport are required; the new team starts with its whole
      budget remaining. A failed logo upload is a server error; otherwise the logo is
      the URL the upload produced, if any. A sport outside the enumeration is refused
      by the CHECK constraint. */
  method CreateTeam(l: Ledger, name: string, sport: string, budget: Option<int>, logo: Upload)
    returns (r: Result<Team>)
    requires l.Valid()
    modifies l`teams, l`nextTeamId
    ensures l.Valid()
    ensures name == "" || sport == "" ==> r == Failure(BadRequest)
    ensures name != "" && sport != "" && logo.UploadFailed? ==> r == Failure(ServerError)
    ensures name != "" && sport != "" && !logo.UploadFailed? ==> (r.Success? <==> ParseSport(sport).Some?)
    ensures r.Failure? ==> r.error in {BadRequest, ServerError}
    ensures r.Failure? ==> l.teams == old(l.teams) && l.nextTeamId == old(l.nextTeamId)
    ensures r.Success? ==>
      && r.value.id == old(l.nextTeamId) && r.value.name == name && SportName(r.value.sport) == sport
      && r.value.budget == (if budget.Some? then budget.value else CreateTeamDefaultBudget)
      && r.value.remainingBudget == r.value.budget
      && r.value.logoUrl == UploadedUrl(logo) && !r.value.isTestData
      && l.teams == old(l.teams) + [r.value]
  {
    if name == "" || sport == "" {
      return Failure(BadRequest);
    }
    if logo.UploadFailed? {
      return Failure(ServerError);
    }
    r := l.InsertTeam(name, sport, if budget.Some? then budget.value else CreateTeamDefaultBudget, UploadedUrl(logo), false);
  }

  /** The teams getAllTeams lists: the sport filter when a sport is given, and no
      test teams while the testgrounds are locked. */
  predicate TeamListed(t: Team, sport: string, locked: bool)
  {
    (sport == "" || SportName(t.sport) == sport) && (locked ==> !t.isTestData)
  }

  function TeamFilter(sport: string, locked: bool): Team -> bool
  {
    t => TeamListed(t, sport, locked)
  }

  function VisibleTeams(ts: seq<Team>, rows: seq<AuctionRow>, sport: string): (r: seq<Team>)
    ensures forall t :: t in r <==> t in ts && (sport == "" || SportName(t.sport) == sport) && (LockedFlag(rows) ==> !t.isTestData)
    ensures multiset(r) <= multiset(ts)
  {
    Filter(ts, TeamFilter(sport, LockedFlag(rows)))
  }

  /** The SET list of updateTeam applied to one row. A new budget moves the remaining
      budget by the same difference, so the amount already spent is unchanged. */
  function UpdateTeamRow(t: Team, name: string, budget: Option<int>, logoUrl: Option<string>): (r: Team)
    ensures r.id == t.id && r.sport == t.sport && r.isTestData == t.isTestData
    ensures r.name == if name != "" then name else t.name
    ensures r.budget == if budget.Some? then budget.value else t.budget
    ensures r.budget - r.remainingBudget == t.budget - t.remainingBudget
    ensures r.logoUrl == if logoUrl.Some? then logoUrl else t.logoUrl
  {
    var named := if name != "" then t.(name := name) else t;
    var budgeted :=
      if budget.Some?
      then named.(budget := budget.value, remainingBudget := named.remainingBudget + (budget.value - t.budget))
      else named;
    if logoUrl.Some? then budgeted.(logoUrl := logoUrl) else budgeted
  }

  /** updateTeam: an unknown team is not found, a failed logo upload is a server
      error and an empty update is a bad request, all without change; otherwise the
      team's row is updated and returned. */
  method UpdateTeam(l: Ledger, id: int, name: string, budget: Option<int>, logo: Upload)
    returns (r: Result<Team>)
    requires l.Valid()
    modifies l`teams
    ensures l.Valid()
    ensures !HasTeam(old(l.teams), id) <==> r == Failure(NotFound)
    ensures HasTeam(old(l.teams), id) ==> (r == Failure(ServerError) <==> logo.UploadFailed?)
    ensures HasTeam(old(l.teams), id) ==> (r == Failure(BadRequest) <==> name == "" && budget.None? && logo.NoFile?)
    ensures (HasTeam(old(l.teams), id) && !logo.UploadFailed? && !(name == "" && budget.None? && logo.NoFile?))
            ==> r.Success?
    ensures r.Failure? ==> l.teams == old(l.teams)
    ensures r.Success? ==>
      var i := FindTeam(old(l.teams), id).value;
      && r.value == UpdateTeamRow(old(l.teams)[i], name, budget, UploadedUrl(logo))
      && l.teams == old(l.teams)[i := r.value]
  {
    // BEGIN
    var found := FindTeam(l.teams, id);
    if found.None? {
      return Failure(NotFound);
    }
    if logo.UploadFailed? {
      return Failure(ServerError);
    }
    if name == "" && budget.None? && logo.NoFile? {
      return Failure(BadRequest);
    }
    var i := found.value;
    var row := UpdateTeamRow(l.teams[i], name, budget, UploadedUrl(logo));
    SameIdsKeepKeys(l.players, l.players, l.teams, l.teams[i := row], l.nextPlayerId, l.nextTeamId);
    l.teams := l.teams[i := row];
    // COMMIT
    r := Success(row);
  }

  /** deleteTeam: `DELETE FROM teams WHERE id = $1`; no deleted row is not found.
      The team's bids go with it, the players and users that referenced it lose the
      link, and a bid log naming the team makes the statement fail with no change. */
  method DeleteTeam(l: Ledger, id: int) returns (r: Result<()>)
    requires l.Valid()
    modifies l`teams, l`players, l`users, l`bids
    ensures l.Valid()
    ensures !HasTeam(old(l.teams), id) <==> r == Failure(NotFound)
    ensures HasTeam(old(l.teams), id) ==> (r == Failure(ServerError) <==> LogsReference(l.bidLogs, {}, {id}))
    ensures HasTeam(old(l.teams), id) && !LogsReference(l.bidLogs, {}, {id}) ==> r.Success?
    ensures r.Failure? ==> l.teams == old(l.teams) && l.players == old(l.players)
    ensures r.Failure? ==> l.users == old(l.users) && l.bids == old(l.bids)
    ensures r.Success? ==> forall t :: t in l.teams <==> t in old(l.teams) && t.id != id
    ensures r.Success? ==> l.players == UnlinkPlayers(old(l.players), {id})
    ensures r.Success? ==> l.users == UnlinkUsers(old(l.users), {id})
    ensures r.Success? ==> forall b :: b in l.bids <==> b in old(l.bids) && b.teamId != id
  {
    if !HasTeam(l.teams, id) {
      return Failure(NotFound);
    }
    assert TeamIds(l.teams, TeamSelected(id, false)) == {id};
    var ok := l.DeleteTeamsWhere(TeamSelected(id, false));
    r := if ok then Success(()) else Failure(ServerError);
  }

  // ---------------------------------------------------------------------------
  // Wallets
  // ---------------------------------------------------------------------------

  /** A player handed back by its team: unsold, with no team and no price. */
  function Unsell(p: Player): (r: Player)
    ensures r.status == Unsold && r.teamId.None? && r.soldPrice.None?
    ensures r.id == p.id && r.sport == p.sport && r.basePrice == p.basePrice && r.isTestData == p.isTestData
  {
    p.(status := Unsold, teamId := None, soldPrice := None)
  }

  /** `UPDATE players SET status = 'unsold', team_id = NULL, sold_price = NULL
      WHERE team_id = $1`. */
  function UnsellTeam(ps: seq<Player>, teamId: int): (r: seq<Player>)
    ensures |r| == |ps|
    ensures forall i :: 0 <= i < |ps| ==> r[i] == if ps[i].teamId == Some(teamId) then Unsell(ps[i]) else ps[i]
  {
    seq(|ps|, i requires 0 <= i < |ps| => if ps[i].teamId == Some(teamId) then Unsell(ps[i]) else ps[i])
  }

  /** A wallet reset to the default 2000. */
  function ResetWallet(t: Team): (r: Team)
    ensures r.budget == r.remainingBudget == DefaultTeamBudget
    ensures r.id == t.id && r.name == t.name && r.sport == t.sport && r.isTestData == t.isTestData
  {
    t.(budget := DefaultTeamBudget, remainingBudget := DefaultTeamBudget)
  }

  /** resetTeamWallet: unsells the team's players and deletes its bids, then resets
      its wallet. There is no transaction and the existence check comes last, so
      for an unknown id the first two statements still take effect. */
  method ResetTeamWallet(l: Ledger, id: int) returns (r: Result<Team>)
    requires l.Valid()
    modifies l`players, l`bids, l`teams
    ensures l.Valid()
    ensures l.players == UnsellTeam(old(l.players), id)
    ensures l.bids == Filter(old(l.bids), SpareBid({}, {id}))
    ensures !HasTeam(old(l.teams), id) <==> r == Failure(NotFound)
    ensures HasTeam(old(l.teams), id) ==> r.Success?
    ensures r.Failure? ==> l.teams == old(l.teams)
    ensures r.Success? ==>
      var i := FindTeam(old(l.teams), id).value;
      && r.value == ResetWallet(old(l.teams)[i])
      && l.teams == old(l.teams)[i := r.value]
  {
    var unsold := UnsellTeam(l.players, id);
    SameIdsKeepKeys(l.players, unsold, l.teams, l.teams, l.nextPlayerId, l.nextTeamId);
    l.players := unsold;
    l.bids := Filter(l.bids, SpareBid({}, {id}));
    var found := FindTeam(l.teams, id);
    if found.None? {
      return Failure(NotFound);
    }
    var i := found.value;
    var row := ResetWallet(l.teams[i]);
    SameIdsKeepKeys(l.players, l.players, l.teams, l.teams[i := row], l.nextPlayerId, l.nextTeamId);
    l.teams := l.teams[i := row];
    r := Success(row);
  }

  /** `UPDATE teams SET budget = 2000, remaining_budget = 2000`. */
  function ResetWallets(ts: seq<Team>): (r: seq<Team>)
    ensures |r| == |ts|
    ensures forall i :: 0 <= i < |ts| ==> r[i] == ResetWallet(ts[i])
  {
    seq(|ts|, i requires 0 <= i < |ts| => ResetWallet(ts[i]))
  }

  /** resetAllWallets: deletes every bid and resets every wallet. Players keep their
      sales (the frame leaves the players table alone). */
  method ResetAllWallets(l: Ledger)
    requires l.Valid()
    modifies l`bids, l`teams
    ensures l.Valid()
    ensures l.bids == []
    ensures l.teams == ResetWallets(old(l.teams))
  {
    l.bids := [];
    var reset := ResetWallets(l.teams);
    SameIdsKeepKeys(l.players, l.players, l.teams, reset, l.nextPlayerId, l.nextTeamId);
    l.teams := reset;
  }

  // ---------------------------------------------------------------------------
  // Queue
  // ---------------------------------------------------------------------------

  /** removeFromQueue: the player goes back to approved, whatever its status was. */
  method RemoveFromQueue(l: Ledger, id: int) returns (r: Result<Player>)
    requires l.Valid()
    modifies l`players
    ensures l.Valid()
    ensures !HasPlayer(old(l.players), id, false) <==> r == Failure(NotFound)
    ensures HasPlayer(old(l.players), id, false) ==> r.Success?
    ensures r.Failure? ==> l.players == old(l.players)
    ensures r.Success? ==> l.players == SetStatus(old(l.players), id, false, Approved)
    ensures r.Success? ==> r.value == old(l.players)[FindPlayer(old(l.players), id).value].(status := Approved)
  {
    var found := FindPlayer(l.players, id);
    if found.None? {
      return Failure(NotFound);
    }
    var updated := SetStatus(l.players, id, false, Approved);
    SameIdsKeepKeys(l.players, updated, l.teams, l.teams, l.nextPlayerId, l.nextTeamId);
    l.players := updated;
    r := Success(updated[found.value]);
  }

  /** addToQueueById: an unknown player is not found; a sold player or one already
      in the queue is refused; otherwise the player becomes eligible. */
  method AddToQueueById(l: Ledger, id: int) returns (r: Result<Player>)
    requires l.Valid()
    modifies l`players
    ensures l.Valid()
    ensures !HasPlayer(old(l.players), id, false) <==> r == Failure(NotFound)
    ensures HasPlayer(old(l.players), id, false) ==>
      var p := old(l.players)[FindPlayer(old(l.players), id).value];
      && (p.status in {Sold, Eligible} <==> r == Failure(Conflict))
      && (p.status !in {Sold, Eligible} ==> r.Success?)
      && (r.Success? ==> r.value == p.(status := Eligible))
    ensures r.Failure? ==> l.players == old(l.players)
    ensures r.Success? ==> l.players == SetStatus(old(l.players), id, false, Eligible)
  {
    var found := FindPlayer(l.players, id);
    if found.None? {
      return Failure(NotFound);
    }
    var p := l.players[found.value];
    if p.status == Sold || p.status == Eligible {
      return Failure(Conflict);
    }
    var updated := SetStatus(l.players, id, false, Eligible);
    SameIdsKeepKeys(l.players, updated, l.teams, l.teams, l.nextPlayerId, l.nextTeamId);
    l.players := updated;
    r := Success(updated[found.value]);
  }

  /** `UPDATE players SET status = 'unsold', team_id = NULL, sold_price = NULL
      WHERE id = $1`. */
  function Release(ps: seq<Player>, id: int): (r: seq<Player>)
    ensures |r| == |ps|
    ensures forall i :: 0 <= i < |ps| ==> r[i] == if ps[i].id == id then Unsell(ps[i]) else ps[i]
  {
    seq(|ps|, i requires 0 <= i < |ps| => if ps[i].id == id then Unsell(ps[i]) else ps[i])
  }

  /** releasePlayer: the player becomes unsold with no team and no price. The team
      that bought it is not refunded: the frame leaves the teams table alone. */
  method ReleasePlayer(l: Ledger, id: int) returns (r: Result<Player>)
    requires l.Valid()
    modifies l`players
    ensures l.Valid()
    ensures !HasPlayer(old(l.players), id, false) <==> r == Failure(NotFound)
    ensures HasPlayer(old(l.players), id, false) ==> r.Success?
    ensures r.Failure? ==> l.players == old(l.players)
    ensures r.Success? ==> l.players == Release(old(l.players), id)
    ensures r.Success? ==> r.value == Unsell(old(l.players)[FindPlayer(old(l.players), id).value])
  {
    var found := FindPlayer(l.players, id);
    if found.None? {
      return Failure(NotFound);
    }
    var updated := Release(l.players, id);
    SameIdsKeepKeys(l.players, updated, l.teams, l.teams, l.nextPlayerId, l.nextTeamId);
    l.players := updated;
    r := Success(updated[found.value]);
  }

  // ---------------------------------------------------------------------------
  // Bulk minimum bids
  // ---------------------------------------------------------------------------

  /** `UPDATE players SET base_price = $1 WHERE sport = $2 AND status != 'sold'`,
      comparing the sport as given. */
  function SetSportBasePrice(ps: seq<Player>, sport: string, price: int): (r: seq<Player>)
    ensures |r| == |ps|
    ensures forall i :: 0 <= i < |ps| ==>
      r[i] == if SportName(ps[i].sport) == sport && ps[i].status != Sold then ps[i].(basePrice := Some(price)) else ps[i]
  {
    seq(|ps|, i requires 0 <= i < |ps| =>
      if SportName(ps[i].sport) == sport && ps[i].status != Sold then ps[i].(basePrice := Some(price)) else ps[i])
  }

  /** bulkUpdateMinBid: sets the base price of the sport's unsold players and stores
      the value in the minimum-bid map under the lower-cased sport. */
  method BulkUpdateMinBid(l: Ledger, sport: string, minBid: Option<int>) returns (r: Result<map<string, int>>)
    requires l.Valid()
    modifies l`players, l`auctionState
    ensures l.Valid()
    ensures sport == "" || minBid.None? <==> r == Failure(BadRequest)
    ensures sport != "" && minBid.Some? ==> r.Success?
    ensures r.Failure? ==> l.players == old(l.players) && l.auctionState == old(l.auctionState)
    ensures r.Success? ==> l.players == SetSportBasePrice(old(l.players), sport, minBid.value)
    ensures r.Success? ==> r.value == MinBidsOf(old(l.auctionState))[Lower(sport) := minBid.value]
    ensures r.Success? ==> |l.auctionState| == |old(l.auctionState)| && forall i :: 0 <= i < |l.auctionState| ==>
      l.auctionState[i] == old(l.auctionState)[i].(sportMinBids := Some(r.value))
  {
    if sport == "" || minBid.None? {
      return Failure(BadRequest);
    }
    var value := minBid.value;
    var updated := SetSportBasePrice(l.players, sport, value);
    SameIdsKeepKeys(l.players, updated, l.teams, l.teams, l.nextPlayerId, l.nextTeamId);
    l.players := updated;
    var m := MinBidsOf(l.auctionState)[Lower(sport) := value];
    var rows := l.auctionState;
    l.auctionState := seq(|rows|, i requires 0 <= i < |rows| => rows[i].(sportMinBids := Some(m)));
    r := Success(m);
  }

  /** The player update compares the sport as given while the map key is lower-cased:
      a capitalised sport name changes the map and no player. */
  lemma CapitalisedSportMissesPlayers(ps: seq<Player>, rows: seq<AuctionRow>)
    ensures SetSportBasePrice(ps, "Cricket", 70) == ps
    ensures Lower("Cricket") == "cricket"
    ensures MinBidsOf(rows)[Lower("Cricket") := 70]["cricket"] == 70
  {
    assert Lower("Cricket") == "cricket";
    forall i | 0 <= i < |ps|
      ensures SportName(ps[i].sport) != "Cricket"
    {
      assert SportName(ps[i].sport)[0] != 'C';
    }
  }

  /** A released player back in the pool: approved at its sport's minimum bid, with
      no team and no price. */
  function ResetReleasedRow(p: Player, minBids: map<string, int>): (r: Player)
    ensures p.status != Unsold ==> r == p
    ensures p.status == Unsold ==> r.status == Approved && r.teamId.None? && r.soldPrice.None?
    ensures p.status == Unsold ==> r.basePrice == Some(MinBidFor(minBids, SportName(p.sport)))
    ensures r.id == p.id && r.sport == p.sport
  {
    if p.status == Unsold
    then p.(status := Approved, basePrice := Some(MinBidFor(minBids, SportName(p.sport))), soldPrice := None, teamId := None)
    else p
  }

  function ResetReleased(ps: seq<Player>, minBids: map<string, int>): (r: seq<Player>)
    ensures |r| == |ps|
    ensures forall i :: 0 <= i < |ps| ==> r[i] == ResetReleasedRow(ps[i], minBids)
  {
    seq(|ps|, i requires 0 <= i < |ps| => ResetReleasedRow(ps[i], minBids))
  }

  /** One statement of the loop: `UPDATE players SET status = 'approved',
      base_price = $1, sold_price = NULL, team_id = NULL WHERE status = 'unsold'
      AND sport = $2`. */
  function ResetReleasedOfSport(ps: seq<Player>, sport: Sport, price: int): (r: seq<Player>)
    ensures |r| == |ps|
    ensures forall i :: 0 <= i < |ps| ==>
      r[i] == if ps[i].status == Unsold && ps[i].sport == sport
              then ps[i].(status := Approved, basePrice := Some(price), soldPrice := None, teamId := None)
              else ps[i]
  {
    seq(|ps|, i requires 0 <= i < |ps| =>
      if ps[i].status == Unsold && ps[i].sport == sport
      then ps[i].(status := Approved, basePrice := Some(price), soldPrice := None, teamId := None)
      else ps[i])
  }

  const AllSports: seq<Sport> := [Cricket, Futsal, Volleyball]

  /** The players table after the loop has run the statements of the first `k`
      sports: those sports' released players are reset, every other row is as it
      was. */
  ghost predicate ResetThrough(before: seq<Player>, current: seq<Player>, k: nat, minBids: map<string, int>)
    requires k <= |AllSports|
  {
    && |current| == |before|
    && forall i :: 0 <= i < |before| ==>
         current[i] == if before[i].sport in AllSports[..k] then ResetReleasedRow(before[i], minBids) else before[i]
  }

  /** One iteration of the loop extends the reset to one more sport. */
  lemma ResetStep(before: seq<Player>, current: seq<Player>, k: nat, minBids: map<string, int>)
    requires k < |AllSports| && ResetThrough(before, current, k, minBids)
    ensures ResetThrough(before,
      ResetReleasedOfSport(current, AllSports[k], MinBidFor(minBids, SportName(AllSports[k]))), k + 1, minBids)
  {
    var sport := AllSports[k];
    var updated := ResetReleasedOfSport(current, sport, MinBidFor(minBids, SportName(sport)));
    assert AllSports[..k + 1] == AllSports[..k] + [sport];
    forall i | 0 <= i < |before|
      ensures updated[i] ==
        if before[i].sport in AllSports[..k + 1] then ResetReleasedRow(before[i], minBids) else before[i]
    {
      if before[i].sport in AllSports[..k] {
        assert current[i].status != Unsold;
      } else if before[i].sport == sport {
        assert current[i] == before[i];
      }
    }
  }

  /** bulkResetReleasedBids: one UPDATE per sport, each at that sport's minimum bid.
      Together they approve every unsold player and touch no other. */
  method BulkResetReleasedBids(l: Ledger)
    requires l.Valid()
    modifies l`players
    ensures l.Valid()
    ensures l.players == ResetReleased(old(l.players), MinBidsOf(l.auctionState))
  {
    var minBids := MinBidsOf(l.auctionState);
    ghost var before := l.players;
    assert AllSports[..0] == [];
    for k := 0 to |AllSports|
      invariant l.Valid()
      invariant ResetThrough(before, l.players, k, minBids)
    {
      var sport := AllSports[k];
      var updated := ResetReleasedOfSport(l.players, sport, MinBidFor(minBids, SportName(sport)));
      SameIdsKeepKeys(l.players, updated, l.teams, l.teams, l.nextPlayerId, l.nextTeamId);
      ResetStep(before, l.players, k, minBids);
      l.players := updated;
    }
    assert AllSports[..|AllSports|] == AllSports;
    forall i | 0 <= i < |before|
      ensures before[i].sport in AllSports
    {
      assert before[i].sport == AllSports[0] || before[i].sport == AllSports[1] || before[i].sport == AllSports[2];
    }
  }

  // ---------------------------------------------------------------------------
  // CSV export
  // ---------------------------------------------------------------------------

  /** The number of double quotes in `s`. */
  function QuoteCount(s: string): nat
  {
    if s == [] then 0 else (if s[0] == '"' then 1 else 0) + QuoteCount(s[1..])
  }

  /** Every double quote in `r` is one of a doubled pair, so inside a quoted CSV
      field no quote of `r` ends the field. */
  predicate QuotesPaired(r: string)
  {
    if r == [] then true
    else if r[0] == '"' then |r| >= 2 && r[1] == '"' && QuotesPaired(r[2..])
    else QuotesPaired(r[1..])
  }

  /** `name.replace(/"/g, '""')`: every double quote doubled, so the result grows by
      one character per quote and holds no lone quote. */
  function EscapeQuotes(s: string): (r: string)
    ensures |r| == |s| + QuoteCount(s)
    ensures QuotesPaired(r)
  {
    if s == [] then []
    else
      var rest := EscapeQuotes(s[1..]);
      if s[0] == '"' then
        assert ("\"\"" + rest)[2..] == rest;
        "\"\"" + rest
      else
        assert ([s[0]] + rest)[1..] == rest;
        [s[0]] + rest
  }

  /** How a CSV reader reads the inside of a quoted field: a doubled quote is one
      quote. */
  function UnescapeQuotes(s: string): string
  {
    if |s| >= 2 && s[0] == '"' && s[1] == '"' then "\"" + UnescapeQuotes(s[2..])
    else if s == [] then []
    else [s[0]] + UnescapeQuotes(s[1..])
  }

  /** The quoted name reads back as the name (section 2, rule 7 of RFC 4180). */
  lemma {:induction false} EscapeQuotesRoundTrip(s: string)
    ensures UnescapeQuotes(EscapeQuotes(s)) == s
  {
    if s != [] {
      EscapeQuotesRoundTrip(s[1..]);
      var e := EscapeQuotes(s);
      if s[0] == '"' {
        assert e[2..] == EscapeQuotes(s[1..]);
      } else {
        assert e[1..] == EscapeQuotes(s[1..]);
      }
      assert s == [s[0]] + s[1..];
    }
  }

  /** `x || ''` for a nullable integer column inside Array.join. */
  function IntOrEmpty(x: Option<int>): (r: string)
    ensures Truthy(x) ==> r == IntToString(x.value)
    ensures !Truthy(x) ==> r == ""
  {
    if Truthy(x) then IntToString(x.value) else ""
  }

  /** A stats entry rendered with `|| ''`: missing and empty both become empty. */
  function StatOrEmpty(stats: Option<map<string, string>>, key: string): string
  {
    if stats.Some? && key in stats.value then stats.value[key] else ""
  }

  const CsvHeaderFields: seq<string> := ["ID", "Name", "Sport", "Year", "Status", "Base Price", "Sold Price",
    "Team ID", "Role", "Batting Style", "Bowling Style", "Photo URL"]

  /** The last four fields of a player's line: role (falling back to playingRole),
      batting style, bowling style and photo URL. */
  function CsvExtraFields(p: Player): (r: seq<string>)
    ensures |r| == 4
  {
    var role := StatOrEmpty(p.stats, "role");
    [ if role != "" then role else StatOrEmpty(p.stats, "playingRole"),
      StatOrEmpty(p.stats, "battingStyle"),
      StatOrEmpty(p.stats, "bowlingStyle"),
      if p.photoUrl.Some? then p.photoUrl.value else "" ]
  }

  /** The twelve fields of one player's line, in header order. A NULL base price
      joins as an empty field, like a missing sold price or team. */
  function CsvFields(p: Player): (r: seq<string>)
    ensures |r| == |CsvHeaderFields| == 12
    ensures r[1] == "\"" + EscapeQuotes(p.name) + "\""
    ensures r[2] == SportName(p.sport) && r[3] == YearName(p.year) && r[4] == StatusName(p.status)
    ensures r[6] == IntOrEmpty(p.soldPrice) && r[7] == IntOrEmpty(p.teamId)
  {
    [ IntToString(p.id),
      "\"" + EscapeQuotes(p.name) + "\"",
      SportName(p.sport),
      YearName(p.year),
      StatusName(p.status),
      if p.basePrice.Some? then IntToString(p.basePrice.value) else "",
      IntOrEmpty(p.soldPrice),
      IntOrEmpty(p.teamId) ]
    + CsvExtraFields(p)
  }

  /** The header line. */
  function CsvHeader(): string
  {
    Join(CsvHeaderFields, ",")
  }

  function CsvLine(p: Player): string
  {
    Join(CsvFields(p), ",")
  }

  function CsvLines(ps: seq<Player>): (r: seq<string>)
    ensures |r| == |ps| && forall i :: 0 <= i < |ps| ==> r[i] == CsvLine(ps[i])
  {
    if ps == [] then [] else CsvLines(ps[..|ps| - 1]) + [CsvLine(ps[|ps| - 1])]
  }

  predicate ExportedSport(p: Player, sport: string)
  {
    sport == "" || SportName(p.sport) == sport
  }

  function SportFilter(sport: string): Player -> bool
  {
    p => ExportedSport(p, sport)
  }

  /** The rows the export query selects: the given sport (all when none is given),
      in ascending id order. */
  function ExportRows(ps: seq<Player>, sport: string): (r: seq<Player>)
    ensures SortedBy(r, PlayerKey)
    ensures forall p :: p in r <==> p in ps && ExportedSport(p, sport)
    ensures multiset(r) == multiset(Filter(ps, SportFilter(sport)))
  {
    var selected := Filter(ps, SportFilter(sport));
    var r := SortBy(selected, PlayerKey);
    assert forall p :: p in r <==> p in selected by {
      forall p ensures p in r <==> p in selected {
        assert p in r <==> multiset(r)[p] > 0;
      }
    }
    r
  }

  lemma AppendAssoc<T>(a: seq<T>, b: seq<T>, c: seq<T>)
    ensures a + (b + c) == (a + b) + c
  {
  }

  lemma CsvLinesSnoc(ps: seq<Player>, i: nat)
    requires i < |ps|
    ensures CsvLines(ps[..i + 1]) == CsvLines(ps[..i]) + [CsvLine(ps[i])]
  {
    assert ps[..i + 1][..i] == ps[..i];
  }

  /** The loop of exportPlayersToCSV: the header line, then one line per player,
      joined by newlines. */
  method RenderCsv(players: seq<Player>) returns (csv: string)
    ensures csv == Join([CsvHeader()] + CsvLines(players), "\n")
  {
    var csvRows := [CsvHeader()];
    for i := 0 to |players|
      invariant csvRows == [CsvHeader()] + CsvLines(players[..i])
    {
      CsvLinesSnoc(players, i);
      var line := CsvLine(players[i]);
      AppendAssoc([CsvHeader()], CsvLines(players[..i]), [line]);
      csvRows := csvRows + [line];
    }
    assert players[..|players|] == players;
    csv := Join(csvRows, "\n");
  }

  /** exportPlayersToCSV: the CSV text of the selected players; no selected player
      is not found. The players table is only read. */
  method ExportPlayersToCsv(l: Ledger, sport: string) returns (r: Result<string>)
    ensures ExportRows(l.players, sport) == [] <==> r == Failure(NotFound)
    ensures ExportRows(l.players, sport) != [] ==> r.Success?
    ensures r.Success? ==> r.value == Join([CsvHeader()] + CsvLines(ExportRows(l.players, sport)), "\n")
  {
    var players := ExportRows(l.players, sport);
    if |players| == 0 {
      return Failure(NotFound);
    }
    var csv := RenderCsv(players);
    r := Success(csv);
  }
}
