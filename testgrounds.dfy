/** The testgrounds: players and teams flagged with is_test_data, managed apart from
    the real ones, the lockdown flag that hides them from the public lists, and the
    bulk removal of everything flagged. */
module Testgrounds {
  import opened Tables
  import opened Database

  // ---------------------------------------------------------------------------
  // Test players
  // ---------------------------------------------------------------------------

  /** createTestPlayer: name, sport and year are required and a failed photo upload
      is a server error; the player is created approved, flagged as test data,
      linked to the administrator who created it, at the given base price or 50. */
  method CreateTestPlayer(l: Ledger, adminId: int, name: string, sport: string, year: string,
                          stats: Option<map<string, string>>, basePrice: Option<int>, photo: Upload, now: int)
    returns (r: Result<Player>)
    requires l.Valid()
    modifies l`players, l`nextPlayerId
    ensures l.Valid()
    ensures name == "" || sport == "" || year == "" ==> r == Failure(BadRequest)
    ensures name != "" && sport != "" && year != "" && photo.UploadFailed? ==> r == Failure(ServerError)
    ensures name != "" && sport != "" && year != "" && !photo.UploadFailed? ==>
      (r.Success? <==> ParseSport(sport).Some? && ParseYear(year).Some? && HasUser(l.users, adminId))
    ensures r.Failure? ==> r.error in {BadRequest, ServerError}
    ensures r.Failure? ==> l.players == old(l.players)
    ensures r.Success? ==>
      && r.value.id == old(l.nextPlayerId) && r.value.name == name && r.value.userId == Some(adminId)
      && SportName(r.value.sport) == sport && YearName(r.value.year) == year
      && r.value.status == Approved && r.value.isTestData
      && r.value.basePrice == Some(OrElse(basePrice, DefaultBasePrice))
      && r.value.teamId.None? && r.value.soldPrice.None? && r.value.photoUrl == UploadedUrl(photo)
      && l.players == old(l.players) + [r.value]
  {
    if name == "" || sport == "" || year == "" {
      return Failure(BadRequest);
    }
    if photo.UploadFailed? {
      return Failure(ServerError);
    }
    r := l.InsertPlayer(adminId, name, sport, year, UploadedUrl(photo), stats, OrElse(basePrice, DefaultBasePrice),
      Approved, true, now);
  }

  /** The patch updateTestPlayer builds: every field of the player form, and the
      photo when one was uploaded. */
  function TestPlayerPatch(name: string, sport: string, year: string, basePrice: Option<int>, status: string,
                           stats: Option<map<string, string>>, photo: Upload): PlayerPatch
  {
    PlayerPatch(name, sport, year, basePrice, status, stats, UploadedUrl(photo))
  }

  /** The "no fields to update" test of updateTestPlayer: the upload runs first, so a
      photo alone is an update, while a zero base price is none. */
  lemma TestPatchEmptyExactly(name: string, sport: string, year: string, basePrice: Option<int>, status: string,
                              stats: Option<map<string, string>>, photo: Upload)
    ensures PatchIsEmpty(TestPlayerPatch(name, sport, year, basePrice, status, stats, photo)) <==>
      name == "" && sport == "" && year == "" && !Truthy(basePrice) && status == "" && stats.None? && !photo.Uploaded?
  {
  }

  /** updateTestPlayer: a failed photo upload is a server error; otherwise the patch
      (name, sport, year, base price, status, stats, photo) applies to test rows
      only, and a real player's id is not found. */
  method UpdateTestPlayer(l: Ledger, id: int, name: string, sport: string, year: string, basePrice: Option<int>,
                          status: string, stats: Option<map<string, string>>, photo: Upload)
    returns (r: Result<Player>)
    requires l.Valid()
    modifies l`players
    ensures l.Valid()
    ensures var u := TestPlayerPatch(name, sport, year, basePrice, status, stats, photo);
      && (photo.UploadFailed? ==> r == Failure(ServerError))
      && (!photo.UploadFailed? ==>
            && (PatchIsEmpty(u) <==> r == Failure(BadRequest))
            && (!PatchIsEmpty(u) && !HasPlayer(old(l.players), id, true) <==> r == Failure(NotFound))
            && (!PatchIsEmpty(u) && HasPlayer(old(l.players), id, true) && !PatchAdmitted(u) <==> r == Failure(ServerError)))
      && (!photo.UploadFailed? && !PatchIsEmpty(u) && HasPlayer(old(l.players), id, true) && PatchAdmitted(u)
          ==> r.Success?)
      && (r.Success? ==> PatchAdmitted(u) && l.players == PatchPlayers(old(l.players), id, true, u))
    ensures r.Failure? ==> l.players == old(l.players)
    ensures r.Success? ==> r.value.isTestData && r.value.id == id
  {
    if photo.UploadFailed? {
      return Failure(ServerError);
    }
    r := UpdatePlayerWhere(l, id, true, TestPlayerPatch(name, sport, year, basePrice, status, stats, photo));
  }

  /** The update leaves every real player as it was. */
  lemma PatchSparesRealPlayers(ps: seq<Player>, id: int, u: PlayerPatch)
    requires PatchAdmitted(u)
    ensures forall i :: 0 <= i < |ps| && !ps[i].isTestData ==> PatchPlayers(ps, id, true, u)[i] == ps[i]
  {
  }

  /** deleteTestPlayer: deletes a test player and its bids; a real player's id is not
      found; a player that has bid history cannot be deleted. */
  method DeleteTestPlayer(l: Ledger, id: int) returns (r: Result<()>)
    requires l.Valid()
    modifies l`players, l`bids
    ensures l.Valid()
    ensures !HasPlayer(old(l.players), id, true) <==> r == Failure(NotFound)
    ensures HasPlayer(old(l.players), id, true) ==>
      (r == Failure(ServerError) <==> LogsReference(l.bidLogs, {id}, {}))
    ensures HasPlayer(old(l.players), id, true) && !LogsReference(l.bidLogs, {id}, {}) ==> r.Success?
    ensures r.Failure? ==> l.players == old(l.players) && l.bids == old(l.bids)
    ensures r.Success? ==> l.players == Filter(old(l.players), SparePlayer(PlayerSelected(id, true)))
    ensures r.Success? ==> l.bids == Filter(old(l.bids), SpareBid({id}, {}))
    ensures r.Success? ==> forall p :: p in old(l.players) && !p.isTestData ==> p in l.players
  {
    r := DeletePlayerWhere(l, id, true);
  }

  // ---------------------------------------------------------------------------
  // Test teams
  // ---------------------------------------------------------------------------

  /** createTestTeam: name and sport are required and a failed logo upload is a
      server error; the wallet defaults to 2000 and starts full; the team is flagged
      as test data. */
  method CreateTestTeam(l: Ledger, name: string, sport: string, budget: Option<int>, logo: Upload)
    returns (r: Result<Team>)
    requires l.Valid()
    modifies l`teams, l`nextTeamId
    ensures l.Valid()
    ensures name == "" || sport == "" ==> r == Failure(BadRequest)
    ensures name != "" && sport != "" && logo.UploadFailed? ==> r == Failure(ServerError)
    ensures name != "" && sport != "" && !logo.UploadFailed? ==> (r.Success? <==> ParseSport(sport).Some?)
    ensures r.Failure? ==> r.error in {BadRequest, ServerError}
    ensures r.Failure? ==> l.teams == old(l.teams)
    ensures r.Success? ==>
      && r.value.id == old(l.nextTeamId) && r.value.name == name && SportName(r.value.sport) == sport
      && r.value.budget == (if budget.Some? then budget.value else DefaultTeamBudget)
      && r.value.remainingBudget == r.value.budget && r.value.isTestData
      && r.value.logoUrl == UploadedUrl(logo)
      && l.teams == old(l.teams) + [r.value]
  {
    if name == "" || sport == "" {
      return Failure(BadRequest);
    }
    if logo.UploadFailed? {
      return Failure(ServerError);
    }
    r := l.InsertTeam(name, sport, if budget.Some? then budget.value else DefaultTeamBudget, UploadedUrl(logo), true);
  }

  /** The SET list of updateTestTeam on one row: unlike updateTeam, a new budget
      leaves the remaining budget as it was. */
  function UpdateTestTeamRow(t: Team, name: string, budget: Option<int>, logoUrl: Option<string>): (r: Team)
    ensures r.id == t.id && r.sport == t.sport && r.isTestData == t.isTestData
    ensures r.name == if name != "" then name else t.name
    ensures r.budget == if budget.Some? then budget.value else t.budget
    ensures r.remainingBudget == t.remainingBudget
    ensures r.logoUrl == if logoUrl.Some? then logoUrl else t.logoUrl
  {
    t.(name := if name != "" then name else t.name,
       budget := if budget.Some? then budget.value else t.budget,
       logoUrl := if logoUrl.Some? then logoUrl else t.logoUrl)
  }

  /** Raising a test team's budget raises what it appears to have spent by the same
      amount, since the remaining budget does not follow. */
  lemma TestBudgetChangeShiftsSpent(t: Team, b: int)
    ensures var r := UpdateTestTeamRow(t, "", Some(b), None);
      r.budget - r.remainingBudget == (t.budget - t.remainingBudget) + (b - t.budget)
  {
  }

  /** updateTestTeam: a failed logo upload is a server error; an empty update is a
      bad request; a real or unknown team is not found; otherwise the test team's
      row is updated. */
  method UpdateTestTeam(l: Ledger, id: int, name: string, budget: Option<int>, logo: Upload)
    returns (r: Result<Team>)
    requires l.Valid()
    modifies l`teams
    ensures l.Valid()
    ensures logo.UploadFailed? <==> r == Failure(ServerError)
    ensures name == "" && budget.None? && logo.NoFile? <==> r == Failure(BadRequest)
    ensures !(name == "" && budget.None? && logo.NoFile?) && !logo.UploadFailed? ==>
      (!HasTeamWhere(old(l.teams), id, true) <==> r == Failure(NotFound))
    ensures (!(name == "" && budget.None? && logo.NoFile?) && !logo.UploadFailed? && HasTeamWhere(old(l.teams), id, true))
            ==> r.Success?
    ensures r.Failure? ==> l.teams == old(l.teams)
    ensures r.Success? ==>
      var i := FindTeam(old(l.teams), id).value;
      && old(l.teams)[i].isTestData
      && r.value == UpdateTestTeamRow(old(l.teams)[i], name, budget, UploadedUrl(logo))
      && l.teams == old(l.teams)[i := r.value]
  {
    if logo.UploadFailed? {
      return Failure(ServerError);
    }
    if name == "" && budget.None? && logo.NoFile? {
      return Failure(BadRequest);
    }
    var found := FindTeam(l.teams, id);
    assert forall j :: 0 <= j < |l.teams| && l.teams[j].id == id ==> found.Some? && j == found.value by {
      assert UniqueKeys(l.teams, TeamKey);
    }
    if found.None? || !l.teams[found.value].isTestData {
      return Failure(NotFound);
    }
    var i := found.value;
    var row := UpdateTestTeamRow(l.teams[i], name, budget, UploadedUrl(logo));
    SameIdsKeepKeys(l.players, l.players, l.teams, l.teams[i := row], l.nextPlayerId, l.nextTeamId);
    l.teams := l.teams[i := row];
    r := Success(row);
  }

  /** deleteTestTeam: deletes a test team, its bids, and the links to it from players
      and users; a real or unknown team is not found; a team with bid history cannot
      be deleted. */
  method DeleteTestTeam(l: Ledger, id: int) returns (r: Result<()>)
    requires l.Valid()
    modifies l`teams, l`players, l`users, l`bids
    ensures l.Valid()
    ensures !HasTeamWhere(old(l.teams), id, true) <==> r == Failure(NotFound)
    ensures HasTeamWhere(old(l.teams), id, true) ==>
      (r == Failure(ServerError) <==> LogsReference(l.bidLogs, {}, TeamIds(old(l.teams), TeamSelected(id, true))))
    ensures (HasTeamWhere(old(l.teams), id, true) && !LogsReference(l.bidLogs, {}, TeamIds(old(l.teams), TeamSelected(id, true))))
            ==> r.Success?
    ensures r.Failure? ==> l.teams == old(l.teams) && l.players == old(l.players)
    ensures r.Failure? ==> l.users == old(l.users) && l.bids == old(l.bids)
    ensures r.Success? ==> l.teams == Filter(old(l.teams), SpareTeam(TeamSelected(id, true)))
    ensures r.Success? ==> l.players == UnlinkPlayers(old(l.players), TeamIds(old(l.teams), TeamSelected(id, true)))
    ensures r.Success? ==> l.users == UnlinkUsers(old(l.users), TeamIds(old(l.teams), TeamSelected(id, true)))
    ensures r.Success? ==> l.bids == Filter(old(l.bids), SpareBid({}, TeamIds(old(l.teams), TeamSelected(id, true))))
  {
    if !HasTeamWhere(l.teams, id, true) {
      return Failure(NotFound);
    }
    var ok := l.DeleteTeamsWhere(TeamSelected(id, true));
    r := if ok then Success(()) else Failure(ServerError);
  }

  // ---------------------------------------------------------------------------
  // Test queue
  // ---------------------------------------------------------------------------

  /** addTestPlayerToQueue: a test player becomes eligible, whatever its status,
      even sold. */
  method AddTestPlayerToQueue(l: Ledger, id: int) returns (r: Result<Player>)
    requires l.Valid()
    modifies l`players
    ensures l.Valid()
    ensures !HasPlayer(old(l.players), id, true) <==> r == Failure(NotFound)
    ensures HasPlayer(old(l.players), id, true) ==> r.Success?
    ensures r.Failure? ==> l.players == old(l.players)
    ensures r.Success? ==> l.players == SetStatus(old(l.players), id, true, Eligible)
    ensures r.Success? ==> r.value.id == id && r.value.isTestData && r.value.status == Eligible
  {
    r := SetTestStatus(l, id, Eligible);
  }

  /** removeTestPlayerFromQueue: a test player goes back to approved. */
  method RemoveTestPlayerFromQueue(l: Ledger, id: int) returns (r: Result<Player>)
    requires l.Valid()
    modifies l`players
    ensures l.Valid()
    ensures !HasPlayer(old(l.players), id, true) <==> r == Failure(NotFound)
    ensures HasPlayer(old(l.players), id, true) ==> r.Success?
    ensures r.Failure? ==> l.players == old(l.players)
    ensures r.Success? ==> l.players == SetStatus(old(l.players), id, true, Approved)
    ensures r.Success? ==> r.value.id == id && r.value.isTestData && r.value.status == Approved
  {
    r := SetTestStatus(l, id, Approved);
  }

  /** The statement both queue operations run: `UPDATE players SET status = $s
      WHERE id = $1 AND is_test_data = TRUE RETURNING *`, not found when it
      returns no row. */
  method SetTestStatus(l: Ledger, id: int, st: Status) returns (r: Result<Player>)
    requires l.Valid()
    modifies l`players
    ensures l.Valid()
    ensures !HasPlayer(old(l.players), id, true) <==> r == Failure(NotFound)
    ensures HasPlayer(old(l.players), id, true) ==> r.Success?
    ensures r.Failure? ==> l.players == old(l.players)
    ensures r.Success? ==> l.players == SetStatus(old(l.players), id, true, st)
    ensures r.Success? ==> r.value.id == id && r.value.isTestData && r.value.status == st
  {
    if !HasPlayer(l.players, id, true) {
      return Failure(NotFound);
    }
    var i :| 0 <= i < |l.players| && PlayerMatches(l.players[i], id, true);
    var updated := SetStatus(l.players, id, true, st);
    SameIdsKeepKeys(l.players, updated, l.teams, l.teams, l.nextPlayerId, l.nextTeamId);
    l.players := updated;
    r := Success(updated[i]);
  }

  // ---------------------------------------------------------------------------
  // Lockdown
  // ---------------------------------------------------------------------------

  /** `UPDATE auction_state SET testgrounds_locked = $1` on every row. */
  function SetLocked(rows: seq<AuctionRow>, locked: bool): (r: seq<AuctionRow>)
    ensures |r| == |rows|
    ensures forall i :: 0 <= i < |rows| ==> r[i] == rows[i].(testgroundsLocked := Some(locked))
  {
    seq(|rows|, i requires 0 <= i < |rows| => rows[i].(testgroundsLocked := Some(locked)))
  }

  /** toggleTestgroundsLockdown: stores and answers the negation of the current flag,
      NULL and a missing row counting as unlocked. */
  method ToggleTestgroundsLockdown(l: Ledger) returns (locked: bool)
    modifies l`auctionState
    ensures locked == !LockedFlag(old(l.auctionState))
    ensures l.auctionState == SetLocked(old(l.auctionState), locked)
  {
    locked := !LockedFlag(l.auctionState);
    l.auctionState := SetLocked(l.auctionState, locked);
  }

  /** With the state row present the stored flag is the negation of the old one, and
      toggling twice restores it. Without the row nothing is stored: the answer says
      locked while the lists stay unlocked. */
  lemma ToggleNegates(rows: seq<AuctionRow>)
    ensures |rows| > 0 ==> LockedFlag(SetLocked(rows, !LockedFlag(rows))) == !LockedFlag(rows)
    ensures rows == [] ==> !LockedFlag(rows) && !LockedFlag(SetLocked(rows, !LockedFlag(rows)))
    ensures var once := SetLocked(rows, !LockedFlag(rows));
      LockedFlag(SetLocked(once, !LockedFlag(once))) == LockedFlag(rows)
  {
  }

  // ---------------------------------------------------------------------------
  // clearAllTestData
  // ---------------------------------------------------------------------------

  function TestPlayer(): Player -> bool
  {
    (p: Player) => p.isTestData
  }

  function TestUser(): User -> bool
  {
    (u: User) => u.isTestData
  }

  function TestTeam(): Team -> bool
  {
    (t: Team) => t.isTestData
  }

  /** The tables clearAllTestData changes. */
  datatype Snapshot = Snapshot(users: seq<User>, teams: seq<Team>, players: seq<Player>, bids: seq<BidRow>)

  /** Statement (1): the bids of test players. */
  function ClearTestBids(s: Snapshot): (r: Snapshot)
    ensures r.users == s.users && r.teams == s.teams && r.players == s.players
    ensures forall b :: b in r.bids <==> b in s.bids && b.playerId !in PlayerIds(s.players, TestPlayer())
  {
    s.(bids := Filter(s.bids, SpareBid(PlayerIds(s.players, TestPlayer()), {})))
  }

  /** Statement (2) succeeds unless a bid log names a test player. */
  predicate PlayersBlocked(s: Snapshot, logs: seq<BidRow>)
  {
    LogsReference(logs, PlayerIds(s.players, TestPlayer()), {})
  }

  /** Statement (2): test players and their bids. */
  function ClearTestPlayers(s: Snapshot): (r: Snapshot)
    ensures r.users == s.users && r.teams == s.teams
    ensures forall p :: p in r.players <==> p in s.players && !p.isTestData
  {
    s.(players := Filter(s.players, SparePlayer(TestPlayer())),
       bids := Filter(s.bids, SpareBid(PlayerIds(s.players, TestPlayer()), {})))
  }

  /** The players that statement (3) deletes with their owners. */
  function OwnedByTestUsers(s: Snapshot): set<int>
  {
    PlayerIds(s.players, OwnedBy(UserIds(s.users, TestUser())))
  }

  /** Statement (3): test users, and by cascade the players they own and their bids. */
  function ClearTestUsers(s: Snapshot): (r: Snapshot)
    ensures r.teams == s.teams
    ensures forall u :: u in r.users <==> u in s.users && !u.isTestData
    ensures forall p :: p in r.players <==> p in s.players && !OwnedBy(UserIds(s.users, TestUser()))(p)
    ensures forall b :: b in r.bids <==> b in s.bids && b.playerId !in OwnedByTestUsers(s)
  {
    var owners := UserIds(s.users, TestUser());
    s.(users := Filter(s.users, SpareUser(TestUser())),
       players := Filter(s.players, SparePlayer(OwnedBy(owners))),
       bids := Filter(s.bids, SpareBid(OwnedByTestUsers(s), {})))
  }

  /** Statement (4): test teams, unlinking the players and users that referenced them
      and deleting their bids. */
  function ClearTestTeams(s: Snapshot): (r: Snapshot)
    ensures forall t :: t in r.teams <==> t in s.teams && !t.isTestData
    ensures |r.players| == |s.players| && |r.users| == |s.users|
    ensures forall i :: 0 <= i < |s.players| ==>
      r.players[i].id == s.players[i].id && r.players[i].isTestData == s.players[i].isTestData
    ensures forall i :: 0 <= i < |s.users| ==>
      r.users[i].id == s.users[i].id && r.users[i].isTestData == s.users[i].isTestData
  {
    var ids := TeamIds(s.teams, TestTeam());
    Snapshot(UnlinkUsers(s.users, ids), Filter(s.teams, SpareTeam(TestTeam())),
      UnlinkPlayers(s.players, ids), Filter(s.bids, SpareBid({}, ids)))
  }

  function SnapshotOf(l: Ledger): Snapshot
    reads l
  {
    Snapshot(l.users, l.teams, l.players, l.bids)
  }

  /** clearAllTestData: four statements without a transaction. (1) deletes the bids
      of test players; (2) deletes test players; (3) deletes test users, and with
      them the players they own; (4) deletes test teams, nulling the team of the
      players and users that referenced them. A statement that bid_logs blocks
      fails the request and leaves the earlier statements in effect. */
  method ClearAllTestData(l: Ledger) returns (r: Result<()>)
    requires l.Valid()
    modifies l`bids, l`players, l`users, l`teams
    ensures l.Valid()
    ensures r.Failure? ==> r.error == ServerError
    ensures var s1 := ClearTestBids(old(SnapshotOf(l)));
      PlayersBlocked(s1, l.bidLogs) ==> r.Failure? && SnapshotOf(l) == s1
    ensures var s2 := ClearTestPlayers(ClearTestBids(old(SnapshotOf(l))));
      !PlayersBlocked(ClearTestBids(old(SnapshotOf(l))), l.bidLogs) ==>
        if LogsReference(l.bidLogs, OwnedByTestUsers(s2), {}) then r.Failure? && SnapshotOf(l) == s2
        else
          var s3 := ClearTestUsers(s2);
          if LogsReference(l.bidLogs, {}, TeamIds(s3.teams, TestTeam())) then r.Failure? && SnapshotOf(l) == s3
          else r.Success? && SnapshotOf(l) == ClearTestTeams(s3)
  {
    l.bids := Filter(l.bids, SpareBid(PlayerIds(l.players, TestPlayer()), {}));
    ghost var s1 := SnapshotOf(l);
    assert s1 == ClearTestBids(old(SnapshotOf(l)));
    var ok := l.DeletePlayersWhere(TestPlayer());
    if !ok {
      return Failure(ServerError);
    }
    ghost var s2 := SnapshotOf(l);
    assert s2 == ClearTestPlayers(s1);
    ok := l.DeleteUsersWhere(TestUser());
    if !ok {
      return Failure(ServerError);
    }
    ghost var s3 := SnapshotOf(l);
    assert s3 == ClearTestUsers(s2);
    ok := l.DeleteTeamsWhere(TestTeam());
    if !ok {
      return Failure(ServerError);
    }
    assert SnapshotOf(l) == ClearTestTeams(s3);
    r := Success(());
  }

  /** After a successful clear no test row is left in players, users or teams. */
  lemma ClearLeavesNoTestRows(s: Snapshot)
    ensures var c := ClearTestTeams(ClearTestUsers(ClearTestPlayers(ClearTestBids(s))));
      && (forall i :: 0 <= i < |c.players| ==> !c.players[i].isTestData)
      && (forall i :: 0 <= i < |c.users| ==> !c.users[i].isTestData)
      && (forall t :: t in c.teams ==> !t.isTestData)
  {
    var s3 := ClearTestUsers(ClearTestPlayers(ClearTestBids(s)));
    var c := ClearTestTeams(s3);
    forall i | 0 <= i < |c.players|
      ensures !c.players[i].isTestData
    {
      assert s3.players[i] in s3.players;
    }
    forall i | 0 <= i < |c.users|
      ensures !c.users[i].isTestData
    {
      assert s3.users[i] in s3.users;
    }
  }

  /** Unlinking keeps each row's owner, leaves no row on a removed team, and keeps
      every row, with its team nulled when that team was removed. */
  lemma UnlinkedPlayers(ps: seq<Player>, owners: set<int>, ids: set<int>)
    requires forall p :: p in ps ==> !OwnedBy(owners)(p)
    ensures forall q :: q in UnlinkPlayers(ps, ids) ==>
      !OwnedBy(owners)(q) && (q.teamId.None? || q.teamId.value !in ids)
    ensures forall p :: p in ps ==>
      (if p.teamId.Some? && p.teamId.value in ids then p.(teamId := None) else p) in UnlinkPlayers(ps, ids)
  {
    var r := UnlinkPlayers(ps, ids);
    forall q | q in r
      ensures !OwnedBy(owners)(q) && (q.teamId.None? || q.teamId.value !in ids)
    {
      var i :| 0 <= i < |r| && r[i] == q;
      assert ps[i] in ps;
    }
    forall p | p in ps
      ensures (if p.teamId.Some? && p.teamId.value in ids then p.(teamId := None) else p) in r
    {
      var j :| 0 <= j < |ps| && ps[j] == p;
      assert r[j] == (if p.teamId.Some? && p.teamId.value in ids then p.(teamId := None) else p);
    }
  }

  /** Real rows are not safe from the clear. After a successful clear no player is
      owned by a test user, real or not, and none keeps a test team; a real player
      with another owner survives, its team nulled when that team was a test team. */
  lemma ClearReachesRealPlayers(s: Snapshot)
    ensures var c := ClearTestTeams(ClearTestUsers(ClearTestPlayers(ClearTestBids(s))));
      forall q :: q in c.players ==>
        && !OwnedBy(UserIds(s.users, TestUser()))(q)
        && (q.teamId.None? || q.teamId.value !in TeamIds(s.teams, TestTeam()))
    ensures var c := ClearTestTeams(ClearTestUsers(ClearTestPlayers(ClearTestBids(s))));
      var ids := TeamIds(s.teams, TestTeam());
      forall p :: p in s.players && !p.isTestData && !OwnedBy(UserIds(s.users, TestUser()))(p) ==>
        (if p.teamId.Some? && p.teamId.value in ids then p.(teamId := None) else p) in c.players
  {
    var s2 := ClearTestPlayers(ClearTestBids(s));
    var s3 := ClearTestUsers(s2);
    var owners := UserIds(s.users, TestUser());
    assert s2.users == s.users && s3.teams == s.teams;
    assert forall p :: p in s3.players <==> p in s.players && !p.isTestData && !OwnedBy(owners)(p);
    UnlinkedPlayers(s3.players, owners, TeamIds(s.teams, TestTeam()));
  }
}
