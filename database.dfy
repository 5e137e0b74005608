/** The auction ledger's schema: the CHECK-constrained enumerations, the row types of
    the users, teams, players, bids, bid_logs and auction_state tables, the column
    defaults, and the Ledger that holds the tables together with the referential
    actions its DELETE statements trigger. */
module Database {
  import opened Tables

  datatype Option<+T> = None | Some(value: T)

  datatype Result<+T> = Success(value: T) | Failure(error: Error)

  /** What a handler answers when it refuses a request. */
  datatype Error =
    | BadRequest                       // 400: a required field is missing or malformed
    | NotFound                         // 404: the referenced row does not exist
    | Conflict                         // 400: the lot is sold, or no lot is being auctioned
    | BudgetExceeded(remaining: int)   // 400: the bid is above the team's remaining budget
    | ServerError                      // 500: the database refused a statement

  /** What the image upload step of a request produced: no file, the URL the image
      store returned, or a failed upload (a 500 before any statement runs). */
  datatype Upload = NoFile | Uploaded(url: string) | UploadFailed

  /** The URL column value an upload provides. */
  function UploadedUrl(u: Upload): (r: Option<string>)
    ensures r.Some? <==> u.Uploaded?
    ensures u.Uploaded? ==> r.value == u.url
  {
    if u.Uploaded? then Some(u.url) else None
  }

  /** JavaScript truthiness of an optional number: absent, null and 0 are falsy. */
  predicate Truthy(x: Option<int>)
  {
    x.Some? && x.value != 0
  }

  /** `x || fallback` for an optional number. */
  function OrElse(x: Option<int>, fallback: int): int
  {
    if Truthy(x) then x.value else fallback
  }

  // ---------------------------------------------------------------------------
  // Enumerations (CHECK constraints)
  // ---------------------------------------------------------------------------

  datatype Sport = Cricket | Futsal | Volleyball

  function SportName(s: Sport): string
  {
    match s
    case Cricket => "cricket"
    case Futsal => "futsal"
    case Volleyball => "volleyball"
  }

  /** CHECK (sport IN ('cricket', 'futsal', 'volleyball')): the stored value for a
      string, if the constraint admits it. */
  function ParseSport(s: string): (r: Option<Sport>)
    ensures r.Some? ==> SportName(r.value) == s
    ensures r.None? ==> forall sp: Sport :: SportName(sp) != s
  {
    if s == "cricket" then Some(Cricket)
    else if s == "futsal" then Some(Futsal)
    else if s == "volleyball" then Some(Volleyball)
    else None
  }

  datatype Year = First | Second | Third

  function YearName(y: Year): string
  {
    match y
    case First => "1st"
    case Second => "2nd"
    case Third => "3rd"
  }

  /** CHECK (year IN ('1st', '2nd', '3rd')). */
  function ParseYear(s: string): (r: Option<Year>)
    ensures r.Some? ==> YearName(r.value) == s
    ensures r.None? ==> forall y: Year :: YearName(y) != s
  {
    if s == "1st" then Some(First)
    else if s == "2nd" then Some(Second)
    else if s == "3rd" then Some(Third)
    else None
  }

  /** The lifecycle status of a player row. */
  datatype Status = Pending | Approved | Sold | Unsold | Eligible | Auctioning

  function StatusName(s: Status): string
  {
    match s
    case Pending => "pending"
    case Approved => "approved"
    case Sold => "sold"
    case Unsold => "unsold"
    case Eligible => "eligible"
    case Auctioning => "auctioning"
  }

  /** CHECK (status IN ('pending', 'approved', 'sold', 'unsold', 'eligible',
      'auctioning')). */
  function ParseStatus(s: string): (r: Option<Status>)
    ensures r.Some? ==> StatusName(r.value) == s
    ensures r.None? ==> forall st: Status :: StatusName(st) != s
  {
    if s == "pending" then Some(Pending)
    else if s == "approved" then Some(Approved)
    else if s == "sold" then Some(Sold)
    else if s == "unsold" then Some(Unsold)
    else if s == "eligible" then Some(Eligible)
    else if s == "auctioning" then Some(Auctioning)
    else None
  }

  /** Every stored value of the three enumerations reads back as itself. */
  lemma EnumerationsRoundTrip(sp: Sport, y: Year, st: Status)
    ensures ParseSport(SportName(sp)) == Some(sp)
    ensures ParseYear(YearName(y)) == Some(y)
    ensures ParseStatus(StatusName(st)) == Some(st)
  {
  }

  // ---------------------------------------------------------------------------
  // Rows
  // ---------------------------------------------------------------------------

  /** A users row, reduced to the columns the ledger's statements touch. */
  datatype User = User(id: int, teamId: Option<int>, isTestData: bool)

  datatype Team = Team(
    id: int,
    name: string,
    sport: Sport,
    budget: int,
    remainingBudget: int,
    logoUrl: Option<string>,
    isTestData: bool)

  /** A players row. `stats` is the JSONB payload, reduced to its string-valued keys;
      `createdAt` is the CURRENT_TIMESTAMP of the insert. */
  datatype Player = Player(
    id: int,
    userId: Option<int>,
    name: string,
    sport: Sport,
    year: Year,
    photoUrl: Option<string>,
    stats: Option<map<string, string>>,
    basePrice: Option<int>,
    status: Status,
    teamId: Option<int>,
    soldPrice: Option<int>,
    isTestData: bool,
    createdAt: int)

  /** A row of bids (the active bids of the current lot) or of bid_logs (the
      permanent history); both tables have the same columns. */
  datatype BidRow = BidRow(id: int, playerId: int, teamId: int, amount: int)

  /** One step of the bid-increment schedule. */
  datatype Rule = Rule(threshold: int, increment: int)

  /** The auction_state row; a None column holds SQL NULL. */
  datatype AuctionRow = AuctionRow(
    isActive: Option<bool>,
    sportMinBids: Option<map<string, int>>,
    isRegistrationOpen: Option<bool>,
    bidIncrementRules: Option<seq<Rule>>,
    testgroundsLocked: Option<bool>)

  function PlayerKey(p: Player): int { p.id }

  function TeamKey(t: Team): int { t.id }

  function RuleThreshold(r: Rule): int { r.threshold }

  // ---------------------------------------------------------------------------
  // Column defaults
  // ---------------------------------------------------------------------------

  /** teams.budget and teams.remaining_budget DEFAULT 2000. */
  const DefaultTeamBudget := 2000

  /** players.base_price DEFAULT 50, also the fallback minimum bid everywhere. */
  const DefaultBasePrice := 50

  const DefaultSportMinBids: map<string, int> := map["cricket" := 50, "futsal" := 50, "volleyball" := 50]

  const DefaultIncrementRules: seq<Rule> := [Rule(0, 10), Rule(200, 50), Rule(500, 100)]

  /** The row `INSERT INTO auction_state (is_active) SELECT false` creates: every
      other column takes its default. */
  const DefaultAuctionRow := AuctionRow(
    Some(false), Some(DefaultSportMinBids), Some(true), Some(DefaultIncrementRules), Some(false))

  /** A team inserted with only name and sport. */
  function TeamWithDefaults(id: int, name: string, sport: Sport): (t: Team)
    ensures t.budget == t.remainingBudget == DefaultTeamBudget
    ensures !t.isTestData && t.logoUrl.None?
  {
    Team(id, name, sport, DefaultTeamBudget, DefaultTeamBudget, None, false)
  }

  /** A player inserted without base_price, status, team_id, sold_price or
      is_test_data. */
  function PlayerWithDefaults(id: int, userId: Option<int>, name: string, sport: Sport, year: Year,
                              photoUrl: Option<string>, stats: Option<map<string, string>>, now: int): (p: Player)
    ensures p.status == Pending && p.basePrice == Some(DefaultBasePrice)
    ensures p.teamId.None? && p.soldPrice.None? && !p.isTestData
  {
    Player(id, userId, name, sport, year, photoUrl, stats, Some(DefaultBasePrice), Pending, None, None, false, now)
  }

  /** The default schedule is ascending and anchored at threshold 0; every sport's
      default minimum bid is 50. */
  lemma DefaultsAreWellFormed()
    ensures SortedBy(DefaultIncrementRules, RuleThreshold) && DefaultIncrementRules[0].threshold == 0
    ensures DefaultSportMinBids.Keys == {"cricket", "futsal", "volleyball"}
    ensures forall k :: k in DefaultSportMinBids ==> DefaultSportMinBids[k] == DefaultBasePrice
    ensures forall sp: Sport :: SportName(sp) in DefaultSportMinBids
  {
  }

  /** The conditional insert of initializeDatabase: a row is added only to an empty
      table. */
  function InitAuctionState(rows: seq<AuctionRow>): (r: seq<AuctionRow>)
    ensures |r| >= 1
    ensures |rows| > 0 ==> r == rows
    ensures rows == [] ==> r[0] == DefaultAuctionRow
  {
    if |rows| == 0 then [DefaultAuctionRow] else rows
  }

  /** Initialising again changes nothing, and a table with at most one row has
      exactly one afterwards. */
  lemma InitAuctionStateIdempotent(rows: seq<AuctionRow>)
    ensures InitAuctionState(InitAuctionState(rows)) == InitAuctionState(rows)
    ensures |rows| <= 1 ==> |InitAuctionState(rows)| == 1
  {
  }

  // ---------------------------------------------------------------------------
  // Reads of the auction_state row (`SELECT ... FROM auction_state LIMIT 1`)
  // ---------------------------------------------------------------------------

  /** `rows[0]?.sport_min_bids || {cricket: 50, futsal: 50, volleyball: 50}`. */
  function MinBidsOf(rows: seq<AuctionRow>): map<string, int>
  {
    if |rows| > 0 && rows[0].sportMinBids.Some? then rows[0].sportMinBids.value else DefaultSportMinBids
  }

  /** `sportMinBids[sport] || 50`: a missing key or a zero entry falls back to 50. */
  function MinBidFor(minBids: map<string, int>, sport: string): (r: int)
    ensures r != 0
    ensures r == DefaultBasePrice || (sport in minBids && r == minBids[sport])
    ensures sport in minBids && minBids[sport] != 0 ==> r == minBids[sport]
  {
    if sport in minBids && minBids[sport] != 0 then minBids[sport] else DefaultBasePrice
  }

  /** `rows[0]?.testgrounds_locked || false`. */
  function LockedFlag(rows: seq<AuctionRow>): bool
  {
    |rows| > 0 && rows[0].testgroundsLocked == Some(true)
  }

  // ---------------------------------------------------------------------------
  // Row lookups and common UPDATE statements
  // ---------------------------------------------------------------------------

  /** A `WHERE id = $1 [AND is_test_data = TRUE]` clause on players. */
  predicate PlayerMatches(p: Player, id: int, testOnly: bool)
  {
    p.id == id && (testOnly ==> p.isTestData)
  }

  predicate HasPlayer(ps: seq<Player>, id: int, testOnly: bool)
  {
    exists i :: 0 <= i < |ps| && PlayerMatches(ps[i], id, testOnly)
  }

  /** The first row a `WHERE id = $1` clause selects. */
  function FindPlayer(ps: seq<Player>, id: int): (r: Option<nat>)
    ensures r.Some? ==> r.value < |ps| && ps[r.value].id == id
    ensures r.Some? ==> forall j :: 0 <= j < r.value ==> ps[j].id != id
    ensures r.None? <==> !HasPlayer(ps, id, false)
  {
    if ps == [] then None
    else if ps[0].id == id then Some(0)
    else
      var r := FindPlayer(ps[1..], id);
      if r.None? then None else Some(r.value + 1)
  }

  predicate HasTeam(ts: seq<Team>, id: int)
  {
    exists i :: 0 <= i < |ts| && ts[i].id == id
  }

  function FindTeam(ts: seq<Team>, id: int): (r: Option<nat>)
    ensures r.Some? ==> r.value < |ts| && ts[r.value].id == id
    ensures r.Some? ==> forall j :: 0 <= j < r.value ==> ts[j].id != id
    ensures r.None? <==> !HasTeam(ts, id)
  {
    if ts == [] then None
    else if ts[0].id == id then Some(0)
    else
      var r := FindTeam(ts[1..], id);
      if r.None? then None else Some(r.value + 1)
  }

  /** UPDATE players SET status = st WHERE id = $1 [AND is_test_data = TRUE]. */
  function SetStatus(ps: seq<Player>, id: int, testOnly: bool, st: Status): (r: seq<Player>)
    ensures |r| == |ps|
    ensures forall i :: 0 <= i < |ps| ==>
      r[i] == if PlayerMatches(ps[i], id, testOnly) then ps[i].(status := st) else ps[i]
  {
    seq(|ps|, i requires 0 <= i < |ps| =>
      if PlayerMatches(ps[i], id, testOnly) then ps[i].(status := st) else ps[i])
  }

  /** Setting a status twice is setting it once. */
  lemma SetStatusIdempotent(ps: seq<Player>, id: int, testOnly: bool, st: Status)
    ensures SetStatus(SetStatus(ps, id, testOnly, st), id, testOnly, st) == SetStatus(ps, id, testOnly, st)
  {
  }

  predicate HasUser(us: seq<User>, id: int)
  {
    exists i :: 0 <= i < |us| && us[i].id == id
  }

  /** The row of team `id`, among test teams only when `testOnly`. */
  predicate TeamMatches(t: Team, id: int, testOnly: bool)
  {
    t.id == id && (testOnly ==> t.isTestData)
  }

  predicate HasTeamWhere(ts: seq<Team>, id: int, testOnly: bool)
  {
    exists i :: 0 <= i < |ts| && TeamMatches(ts[i], id, testOnly)
  }

  // ---------------------------------------------------------------------------
  // Player updates with optional fields (updatePlayer, updateTestPlayer)
  // ---------------------------------------------------------------------------

  /** The optional fields of a player UPDATE. An empty string, a falsy price or None
      leaves the column alone. */
  datatype PlayerPatch = PlayerPatch(
    name: string,
    sport: string,
    year: string,
    basePrice: Option<int>,
    status: string,
    stats: Option<map<string, string>>,
    photoUrl: Option<string>)

  /** No SET clause at all. */
  predicate PatchIsEmpty(u: PlayerPatch)
  {
    u.name == "" && u.sport == "" && u.year == "" && !Truthy(u.basePrice) && u.status == ""
    && u.stats.None? && u.photoUrl.None?
  }

  /** Every enumerated value the patch sets passes its CHECK constraint. */
  predicate PatchAdmitted(u: PlayerPatch)
  {
    (u.sport == "" || ParseSport(u.sport).Some?)
    && (u.year == "" || ParseYear(u.year).Some?)
    && (u.status == "" || ParseStatus(u.status).Some?)
  }

  /** The sport a patch leaves in a row: the parsed value when one is given. */
  function PatchSport(s: Sport, v: string): (r: Sport)
    requires v == "" || ParseSport(v).Some?
    ensures if v != "" then SportName(r) == v else r == s
  {
    if v != "" then ParseSport(v).value else s
  }

  function PatchYear(y: Year, v: string): (r: Year)
    requires v == "" || ParseYear(v).Some?
    ensures if v != "" then YearName(r) == v else r == y
  {
    if v != "" then ParseYear(v).value else y
  }

  function PatchStatus(st: Status, v: string): (r: Status)
    requires v == "" || ParseStatus(v).Some?
    ensures if v != "" then StatusName(r) == v else r == st
  {
    if v != "" then ParseStatus(v).value else st
  }

  /** The patch applied to one row. */
  function PatchRow(p: Player, u: PlayerPatch): (r: Player)
    requires PatchAdmitted(u)
    ensures r.id == p.id && r.userId == p.userId && r.teamId == p.teamId && r.soldPrice == p.soldPrice
    ensures r.isTestData == p.isTestData && r.createdAt == p.createdAt
    ensures r.name == if u.name != "" then u.name else p.name
    ensures if u.sport != "" then SportName(r.sport) == u.sport else r.sport == p.sport
    ensures if u.year != "" then YearName(r.year) == u.year else r.year == p.year
    ensures if u.status != "" then StatusName(r.status) == u.status else r.status == p.status
    ensures r.basePrice == if Truthy(u.basePrice) then u.basePrice else p.basePrice
    ensures r.stats == if u.stats.Some? then u.stats else p.stats
    ensures r.photoUrl == if u.photoUrl.Some? then u.photoUrl else p.photoUrl
  {
    p.(name := if u.name != "" then u.name else p.name,
       sport := PatchSport(p.sport, u.sport),
       year := PatchYear(p.year, u.year),
       basePrice := if Truthy(u.basePrice) then u.basePrice else p.basePrice,
       status := PatchStatus(p.status, u.status),
       stats := if u.stats.Some? then u.stats else p.stats,
       photoUrl := if u.photoUrl.Some? then u.photoUrl else p.photoUrl)
  }

  /** `UPDATE players SET ... WHERE id = $n [AND is_test_data = TRUE]`. */
  function PatchPlayers(ps: seq<Player>, id: int, testOnly: bool, u: PlayerPatch): (r: seq<Player>)
    requires PatchAdmitted(u)
    ensures |r| == |ps|
    ensures forall i :: 0 <= i < |ps| ==> r[i] == if PlayerMatches(ps[i], id, testOnly) then PatchRow(ps[i], u) else ps[i]
  {
    seq(|ps|, i requires 0 <= i < |ps| => if PlayerMatches(ps[i], id, testOnly) then PatchRow(ps[i], u) else ps[i])
  }

  /** The shared effect of updatePlayer and updateTestPlayer: an empty patch is a bad
      request; a patch that selects no row is not found; a selected row that a
      value would push outside its CHECK constraint makes the statement fail. Each
      refusal changes nothing. */
  method UpdatePlayerWhere(l: Ledger, id: int, testOnly: bool, u: PlayerPatch) returns (r: Result<Player>)
    requires l.Valid()
    modifies l`players
    ensures l.Valid()
    ensures PatchIsEmpty(u) <==> r == Failure(BadRequest)
    ensures !PatchIsEmpty(u) && !HasPlayer(old(l.players), id, testOnly) <==> r == Failure(NotFound)
    ensures !PatchIsEmpty(u) && HasPlayer(old(l.players), id, testOnly) && !PatchAdmitted(u) <==> r == Failure(ServerError)
    ensures !PatchIsEmpty(u) && HasPlayer(old(l.players), id, testOnly) && PatchAdmitted(u) ==> r.Success?
    ensures r.Failure? ==> l.players == old(l.players)
    ensures r.Success? ==> PatchAdmitted(u) && l.players == PatchPlayers(old(l.players), id, testOnly, u)
    ensures r.Success? ==>
      exists i :: 0 <= i < |old(l.players)| && PlayerMatches(old(l.players)[i], id, testOnly) &&
        r.value == PatchRow(old(l.players)[i], u)
  {
    if PatchIsEmpty(u) {
      return Failure(BadRequest);
    }
    if !HasPlayer(l.players, id, testOnly) {
      return Failure(NotFound);
    }
    if !PatchAdmitted(u) {
      return Failure(ServerError);
    }
    var i :| 0 <= i < |l.players| && PlayerMatches(l.players[i], id, testOnly);
    var updated := PatchPlayers(l.players, id, testOnly, u);
    SameIdsKeepKeys(l.players, updated, l.teams, l.teams, l.nextPlayerId, l.nextTeamId);
    l.players := updated;
    r := Success(updated[i]);
  }

  /** `DELETE FROM players WHERE id = $1 [AND is_test_data = TRUE]`. */
  function PlayerSelected(id: int, testOnly: bool): Player -> bool
  {
    p => PlayerMatches(p, id, testOnly)
  }

  function TeamSelected(id: int, testOnly: bool): Team -> bool
  {
    t => TeamMatches(t, id, testOnly)
  }

  /** A `WHERE id = $1` that selects a row selects exactly that id. */
  lemma SelectedPlayerIds(ps: seq<Player>, id: int, testOnly: bool)
    requires HasPlayer(ps, id, testOnly)
    ensures PlayerIds(ps, PlayerSelected(id, testOnly)) == {id}
  {
    var i :| 0 <= i < |ps| && PlayerMatches(ps[i], id, testOnly);
    assert ps[i] in ps;
  }

  /** The shared effect of deletePlayer and deleteTestPlayer: no selected row is not
      found; a bid_logs row referencing the player makes the delete fail; otherwise
      the player and its bids are gone. */
  method DeletePlayerWhere(l: Ledger, id: int, testOnly: bool) returns (r: Result<()>)
    requires l.Valid()
    modifies l`players, l`bids
    ensures l.Valid()
    ensures !HasPlayer(old(l.players), id, testOnly) <==> r == Failure(NotFound)
    ensures HasPlayer(old(l.players), id, testOnly) ==>
      (r == Failure(ServerError) <==> LogsReference(l.bidLogs, {id}, {}))
    ensures HasPlayer(old(l.players), id, testOnly) && !LogsReference(l.bidLogs, {id}, {}) ==> r.Success?
    ensures r.Failure? ==> l.players == old(l.players) && l.bids == old(l.bids)
    ensures r.Success? ==> l.players == Filter(old(l.players), SparePlayer(PlayerSelected(id, testOnly)))
    ensures r.Success? ==> l.bids == Filter(old(l.bids), SpareBid({id}, {}))
  {
    if !HasPlayer(l.players, id, testOnly) {
      return Failure(NotFound);
    }
    SelectedPlayerIds(l.players, id, testOnly);
    var ok := l.DeletePlayersWhere(PlayerSelected(id, testOnly));
    r := if ok then Success(()) else Failure(ServerError);
  }

  // ---------------------------------------------------------------------------
  // Row selections for DELETE and their referential actions
  // ---------------------------------------------------------------------------

  function PlayerIds(ps: seq<Player>, doomed: Player -> bool): set<int>
  {
    set p | p in ps && doomed(p) :: p.id
  }

  function TeamIds(ts: seq<Team>, doomed: Team -> bool): set<int>
  {
    set t | t in ts && doomed(t) :: t.id
  }

  function UserIds(us: seq<User>, doomed: User -> bool): set<int>
  {
    set u | u in us && doomed(u) :: u.id
  }

  /** A bid_logs row that references one of `playerIds` or `teamIds` blocks their
      deletion (bid_logs' foreign keys have no ON DELETE action). */
  predicate LogsReference(logs: seq<BidRow>, playerIds: set<int>, teamIds: set<int>)
  {
    exists i :: 0 <= i < |logs| && (logs[i].playerId in playerIds || logs[i].teamId in teamIds)
  }

  function SparePlayer(doomed: Player -> bool): Player -> bool
  {
    p => !doomed(p)
  }

  function SpareTeam(doomed: Team -> bool): Team -> bool
  {
    t => !doomed(t)
  }

  function SpareUser(doomed: User -> bool): User -> bool
  {
    u => !doomed(u)
  }

  /** The bids rows that survive deleting the given players and teams
      (bids' foreign keys are ON DELETE CASCADE). */
  function SpareBid(playerIds: set<int>, teamIds: set<int>): BidRow -> bool
  {
    (b: BidRow) => b.playerId !in playerIds && b.teamId !in teamIds
  }

  /** The players owned by one of the given users (players.user_id is ON DELETE
      CASCADE). */
  function OwnedBy(userIds: set<int>): Player -> bool
  {
    (p: Player) => p.userId.Some? && p.userId.value in userIds
  }

  /** players.team_id is ON DELETE SET NULL. */
  function UnlinkPlayers(ps: seq<Player>, teamIds: set<int>): (r: seq<Player>)
    ensures |r| == |ps|
    ensures forall i :: 0 <= i < |ps| ==>
      r[i] == if ps[i].teamId.Some? && ps[i].teamId.value in teamIds then ps[i].(teamId := None) else ps[i]
  {
    seq(|ps|, i requires 0 <= i < |ps| =>
      if ps[i].teamId.Some? && ps[i].teamId.value in teamIds then ps[i].(teamId := None) else ps[i])
  }

  /** users.team_id is ON DELETE SET NULL. The same referential action as
      UnlinkPlayers, over the other table that references teams: the two row types
      differ, and each table's own update keeps its contract a plain update of one
      column. */
  function UnlinkUsers(us: seq<User>, teamIds: set<int>): (r: seq<User>)
    ensures |r| == |us|
    ensures forall i :: 0 <= i < |us| ==>
      r[i] == if us[i].teamId.Some? && us[i].teamId.value in teamIds then us[i].(teamId := None) else us[i]
  {
    seq(|us|, i requires 0 <= i < |us| =>
      if us[i].teamId.Some? && us[i].teamId.value in teamIds then us[i].(teamId := None) else us[i])
  }

  /** Primary keys are unique and below the counters that number new rows. */
  ghost predicate KeysValid(ps: seq<Player>, ts: seq<Team>, nextPlayer: int, nextTeam: int)
  {
    && UniqueKeys(ps, PlayerKey)
    && (forall p :: p in ps ==> p.id < nextPlayer)
    && UniqueKeys(ts, TeamKey)
    && (forall t :: t in ts ==> t.id < nextTeam)
  }

  /** Deleting players keeps the keys valid. */
  lemma FilterPlayersKeepsKeys(ps: seq<Player>, ts: seq<Team>, np: int, nt: int, keep: Player -> bool)
    requires KeysValid(ps, ts, np, nt)
    ensures KeysValid(Filter(ps, keep), ts, np, nt)
  {
    FilterKeepsUniqueKeys(ps, keep, PlayerKey);
  }

  /** Deleting teams, and setting players' team_id to NULL, keeps the keys valid. */
  lemma DeleteTeamsKeepsKeys(ps: seq<Player>, ts: seq<Team>, np: int, nt: int, keep: Team -> bool, ids: set<int>)
    requires KeysValid(ps, ts, np, nt)
    ensures KeysValid(UnlinkPlayers(ps, ids), Filter(ts, keep), np, nt)
  {
    FilterKeepsUniqueKeys(ts, keep, TeamKey);
    var r := UnlinkPlayers(ps, ids);
    assert forall i :: 0 <= i < |ps| ==> r[i].id == ps[i].id;
    forall p | p in r
      ensures p.id < np
    {
      var i :| 0 <= i < |r| && r[i] == p;
      assert ps[i] in ps;
    }
  }

  /** An UPDATE that changes no key column keeps the keys valid. */
  lemma SameIdsKeepKeys(ps: seq<Player>, ps': seq<Player>, ts: seq<Team>, ts': seq<Team>, np: int, nt: int)
    requires KeysValid(ps, ts, np, nt)
    requires |ps'| == |ps| && forall i :: 0 <= i < |ps| ==> ps'[i].id == ps[i].id
    requires |ts'| == |ts| && forall i :: 0 <= i < |ts| ==> ts'[i].id == ts[i].id
    ensures KeysValid(ps', ts', np, nt)
  {
    forall p | p in ps'
      ensures p.id < np
    {
      var i :| 0 <= i < |ps'| && ps'[i] == p;
      assert ps[i] in ps;
    }
    forall t | t in ts'
      ensures t.id < nt
    {
      var i :| 0 <= i < |ts'| && ts'[i] == t;
      assert ts[i] in ts;
    }
  }

  // ---------------------------------------------------------------------------
  // The ledger
  // ---------------------------------------------------------------------------

  /** The database: one field per table, plus the SERIAL counters that number new
      rows. */
  class Ledger {
    var users: seq<User>
    var teams: seq<Team>
    var players: seq<Player>
    var bids: seq<BidRow>
    var bidLogs: seq<BidRow>
    var auctionState: seq<AuctionRow>
    var nextTeamId: int
    var nextPlayerId: int
    var nextBidId: int
    var nextBidLogId: int

    /** The primary keys of players and teams are unique, and every key is below
        the counter that numbers the next insert. */
    ghost predicate Valid()
      reads this
    {
      KeysValid(players, teams, nextPlayerId, nextTeamId)
    }

    /** An empty database whose tables have just been created. */
    constructor ()
      ensures Valid()
      ensures users == [] && teams == [] && players == [] && bids == [] && bidLogs == []
      ensures auctionState == []
    {
      users, teams, players, bids, bidLogs, auctionState := [], [], [], [], [], [];
      nextTeamId, nextPlayerId, nextBidId, nextBidLogId := 1, 1, 1, 1;
    }

    /** initializeDatabase: the CREATE TABLE statements are this class; what remains
        is the conditional insert of the single auction_state row. */
    method InitializeDatabase()
      requires Valid()
      modifies this`auctionState
      ensures Valid()
      ensures auctionState == InitAuctionState(old(auctionState))
    {
      if |auctionState| == 0 {
        auctionState := auctionState + [DefaultAuctionRow];
      }
    }

    /** INSERT INTO teams: a sport outside the enumeration fails the CHECK
        constraint. */
    method InsertTeam(name: string, sport: string, budget: int, logoUrl: Option<string>, isTestData: bool)
      returns (r: Result<Team>)
      requires Valid()
      modifies this`teams, this`nextTeamId
      ensures Valid()
      ensures ParseSport(sport).None? <==> r == Failure(ServerError)
      ensures r.Failure? ==> r.error == ServerError && teams == old(teams) && nextTeamId == old(nextTeamId)
      ensures r.Success? ==> r.value == Team(old(nextTeamId), name, ParseSport(sport).value, budget, budget, logoUrl, isTestData)
      ensures r.Success? ==> teams == old(teams) + [r.value]
    {
      var sp := ParseSport(sport);
      if sp.None? {
        return Failure(ServerError);
      }
      var team := Team(nextTeamId, name, sp.value, budget, budget, logoUrl, isTestData);
      assert forall u :: u in teams + [team] ==> u in teams || u == team;
      teams := teams + [team];
      nextTeamId := nextTeamId + 1;
      r := Success(team);
    }

    /** INSERT INTO players: a sport or year outside its enumeration fails the CHECK
        constraint, and an unknown user fails players.user_id's foreign key. */
    method InsertPlayer(userId: int, name: string, sport: string, year: string, photoUrl: Option<string>,
                        stats: Option<map<string, string>>, basePrice: int, status: Status, isTestData: bool, now: int)
      returns (r: Result<Player>)
      requires Valid()
      modifies this`players, this`nextPlayerId
      ensures Valid()
      ensures r.Success? <==> ParseSport(sport).Some? && ParseYear(year).Some? && HasUser(users, userId)
      ensures r.Failure? ==> r.error == ServerError && players == old(players) && nextPlayerId == old(nextPlayerId)
      ensures r.Success? ==> r.value == Player(old(nextPlayerId), Some(userId), name, ParseSport(sport).value,
        ParseYear(year).value, photoUrl, stats, Some(basePrice), status, None, None, isTestData, now)
      ensures r.Success? ==> players == old(players) + [r.value]
    {
      var sp, y := ParseSport(sport), ParseYear(year);
      if sp.None? || y.None? || !HasUser(users, userId) {
        return Failure(ServerError);
      }
      var p := Player(nextPlayerId, Some(userId), name, sp.value, y.value, photoUrl, stats, Some(basePrice), status,
        None, None, isTestData, now);
      assert forall q :: q in players + [p] ==> q in players || q == p;
      players := players + [p];
      nextPlayerId := nextPlayerId + 1;
      r := Success(p);
    }

    /** DELETE FROM players WHERE doomed. Bids of a deleted player go with it; a
        bid_logs row that references one makes the statement fail and change
        nothing. */
    method DeletePlayersWhere(doomed: Player -> bool) returns (ok: bool)
      requires Valid()
      modifies this`players, this`bids
      ensures Valid()
      ensures ok == !LogsReference(bidLogs, PlayerIds(old(players), doomed), {})
      ensures ok ==> players == Filter(old(players), SparePlayer(doomed))
      ensures ok ==> bids == Filter(old(bids), SpareBid(PlayerIds(old(players), doomed), {}))
      ensures !ok ==> players == old(players) && bids == old(bids)
    {
      var ids := PlayerIds(players, doomed);
      if LogsReference(bidLogs, ids, {}) {
        return false;
      }
      FilterPlayersKeepsKeys(players, teams, nextPlayerId, nextTeamId, SparePlayer(doomed));
      players := Filter(players, SparePlayer(doomed));
      bids := Filter(bids, SpareBid(ids, {}));
      ok := true;
    }

    /** DELETE FROM users WHERE doomed. Players owned by a deleted user are deleted
        with it, and their bids with them; a bid_logs row that references such a
        player makes the statement fail and change nothing. The cascade is the
        DELETE of those players, run first. */
    method DeleteUsersWhere(doomed: User -> bool) returns (ok: bool)
      requires Valid()
      modifies this`users, this`players, this`bids
      ensures Valid()
      ensures ok == !LogsReference(bidLogs, PlayerIds(old(players), OwnedBy(UserIds(old(users), doomed))), {})
      ensures ok ==> users == Filter(old(users), SpareUser(doomed))
      ensures ok ==> players == Filter(old(players), SparePlayer(OwnedBy(UserIds(old(users), doomed))))
      ensures ok ==> bids == Filter(old(bids), SpareBid(PlayerIds(old(players), OwnedBy(UserIds(old(users), doomed))), {}))
      ensures !ok ==> users == old(users) && players == old(players) && bids == old(bids)
    {
      ok := DeletePlayersWhere(OwnedBy(UserIds(users, doomed)));
      if ok {
        users := Filter(users, SpareUser(doomed));
      }
    }

    /** DELETE FROM teams WHERE doomed. Bids of a deleted team go with it, players
        and users that referenced it have team_id set to NULL; a bid_logs row that
        references one makes the statement fail and change nothing. */
    method DeleteTeamsWhere(doomed: Team -> bool) returns (ok: bool)
      requires Valid()
      modifies this`teams, this`players, this`users, this`bids
      ensures Valid()
      ensures ok == !LogsReference(bidLogs, {}, TeamIds(old(teams), doomed))
      ensures ok ==> teams == Filter(old(teams), SpareTeam(doomed))
      ensures ok ==> players == UnlinkPlayers(old(players), TeamIds(old(teams), doomed))
      ensures ok ==> users == UnlinkUsers(old(users), TeamIds(old(teams), doomed))
      ensures ok ==> bids == Filter(old(bids), SpareBid({}, TeamIds(old(teams), doomed)))
      ensures !ok ==> teams == old(teams) && players == old(players)
      ensures !ok ==> users == old(users) && bids == old(bids)
    {
      var ids := TeamIds(teams, doomed);
      if LogsReference(bidLogs, {}, ids) {
        return false;
      }
      DeleteTeamsKeepsKeys(players, teams, nextPlayerId, nextTeamId, SpareTeam(doomed), ids);
      teams := Filter(teams, SpareTeam(doomed));
      players := UnlinkPlayers(players, ids);
      users := UnlinkUsers(users, ids);
      bids := Filter(bids, SpareBid({}, ids));
      ok := true;
    }
  }
}
