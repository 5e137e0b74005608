/** Player registration and the public player lists: the upload filter for photos,
    self-registration, the filtered listings, and the administrator's edits. */
module Players {
  import opened Tables
  import opened Text
  import opened Database

  // ---------------------------------------------------------------------------
  // Upload filter
  // ---------------------------------------------------------------------------

  /** multer's fileSize limit: 5 MiB. */
  const MaxUploadBytes: int := 5 * 1024 * 1024

  /** The position of the last '.' in `s`. */
  function LastDot(s: string): (r: Option<nat>)
    ensures r.Some? ==> r.value < |s| && s[r.value] == '.'
    ensures r.Some? ==> forall k :: r.value < k < |s| ==> s[k] != '.'
    ensures r.None? ==> forall k :: 0 <= k < |s| ==> s[k] != '.'
  {
    if s == [] then None
    else if s[|s| - 1] == '.' then Some(|s| - 1)
    else LastDot(s[..|s| - 1])
  }

  /** Node's path.extname on a file name without '/': from the last '.' to the end,
      except that a name whose only dot is its first character (".png"), a name
      without a dot, and ".." have no extension. */
  function ExtName(name: string): (r: string)
    ensures r != "" ==> r[0] == '.' && |r| < |name| && name[|name| - |r|..] == r
    ensures r != "" ==> forall k :: 1 <= k < |r| ==> r[k] != '.'
    ensures r == "" <==> name == ".." || forall k :: 0 < k < |name| ==> name[k] != '.'
  {
    var d := LastDot(name);
    if d.None? || d.value == 0 || name == ".." then "" else name[d.value..]
  }

  /** The test of the unanchored pattern /jpeg|jpg|png|gif/. */
  predicate ImagePattern(t: string)
  {
    Contains(t, "jpeg") || Contains(t, "jpg") || Contains(t, "png") || Contains(t, "gif")
  }

  /** The upload filter: the pattern must match the lower-cased extension of the
      client's file name and the (not lower-cased) MIME type. */
  predicate UploadAccepted(originalName: string, mimetype: string)
  {
    ImagePattern(Lower(ExtName(originalName))) && ImagePattern(mimetype)
  }

  predicate SizeAccepted(size: int)
  {
    size <= MaxUploadBytes
  }

  /** An occurrence at a known position is found by the search. */
  lemma {:induction false} ContainsAt(s: string, t: string, k: nat)
    requires k + |t| <= |s| && s[k..k + |t|] == t
    ensures Contains(s, t)
  {
    if k > 0 {
      assert s[1..][k - 1..k - 1 + |t|] == s[k..k + |t|];
      ContainsAt(s[1..], t, k - 1);
    } else {
      assert s[..|t|] == t;
    }
  }

  /** A string without the first character of `t` does not contain `t`. */
  lemma {:induction false} MissingFirstChar(s: string, t: string)
    requires |t| > 0 && forall k :: 0 <= k < |s| ==> s[k] != t[0]
    ensures !Contains(s, t)
  {
    if s != [] {
      assert !StartsWith(s, t) by {
        if |t| <= |s| {
          assert s[..|t|][0] == s[0];
        }
      }
      MissingFirstChar(s[1..], t);
    }
  }

  /** An upper-case extension is accepted once lower-cased. */
  lemma AcceptsUpperCaseExtension()
    ensures ExtName("Photo.JPG") == ".JPG"
    ensures UploadAccepted("Photo.JPG", "image/jpeg")
  {
    assert LastDot("Photo.JPG") == Some(5);
    assert Lower(".JPG") == ".jpg";
    assert ".jpg"[1..4] == "jpg";
    ContainsAt(".jpg", "jpg", 1);
    assert "image/jpeg"[6..10] == "jpeg";
    ContainsAt("image/jpeg", "jpeg", 6);
  }

  /** A dot file has no extension, so it is refused whatever its type. */
  lemma RefusesDotFile()
    ensures ExtName(".png") == ""
    ensures !UploadAccepted(".png", "image/png")
  {
    assert forall k :: 0 < k < |".png"| ==> ".png"[k] != '.';
    assert Lower("") == "";
  }

  /** The pattern is not anchored: any extension that merely contains an image
      name passes. */
  lemma AcceptsExtensionContainingImageName()
    ensures ExtName("scan.jpgx") == ".jpgx"
    ensures UploadAccepted("scan.jpgx", "image/png")
  {
    assert LastDot("scan.jpgx") == Some(4);
    assert Lower(".jpgx") == ".jpgx";
    assert ".jpgx"[1..4] == "jpg";
    ContainsAt(".jpgx", "jpg", 1);
    assert "image/png"[6..9] == "png";
    ContainsAt("image/png", "png", 6);
  }

  /** The MIME type is matched as sent: an upper-case type is refused. */
  lemma RefusesUpperCaseMimetype()
    ensures !UploadAccepted("photo.png", "IMAGE/PNG")
  {
    var m := "IMAGE/PNG";
    assert forall k :: 0 <= k < |m| ==> m[k] == '/' || 'A' <= m[k] <= 'Z';
    MissingFirstChar(m, "jpeg");
    MissingFirstChar(m, "jpg");
    MissingFirstChar(m, "png");
    MissingFirstChar(m, "gif");
    assert !ImagePattern(m);
  }

  // ---------------------------------------------------------------------------
  // createPlayer
  // ---------------------------------------------------------------------------

  /** createPlayer: a logged-in user registers a player. Name, sport and year are
      required; a failed photo upload is a server error; the row is pending, at the
      column default base price, not test data, and owned by the caller. */
  method CreatePlayer(l: Ledger, userId: int, name: string, sport: string, year: string,
                      stats: Option<map<string, string>>, photo: Upload, now: int)
    returns (r: Result<Player>)
    requires l.Valid()
    modifies l`players, l`nextPlayerId
    ensures l.Valid()
    ensures name == "" || sport == "" || year == "" ==> r == Failure(BadRequest)
    ensures name != "" && sport != "" && year != "" && photo.UploadFailed? ==> r == Failure(ServerError)
    ensures name != "" && sport != "" && year != "" && !photo.UploadFailed? ==>
      (r.Success? <==> ParseSport(sport).Some? && ParseYear(year).Some? && HasUser(l.users, userId))
    ensures r.Failure? ==> r.error in {BadRequest, ServerError} && l.players == old(l.players)
    ensures r.Success? ==>
      && r.value.id == old(l.nextPlayerId) && r.value.userId == Some(userId) && r.value.name == name
      && SportName(r.value.sport) == sport && YearName(r.value.year) == year
      && r.value.status == Pending && !r.value.isTestData
      && r.value.basePrice == Some(DefaultBasePrice)
      && r.value.photoUrl == UploadedUrl(photo)
      && l.players == old(l.players) + [r.value]
  {
    if name == "" || sport == "" || year == "" {
      return Failure(BadRequest);
    }
    if photo.UploadFailed? {
      return Failure(ServerError);
    }
    r := l.InsertPlayer(userId, name, sport, year, UploadedUrl(photo), stats, DefaultBasePrice, Pending, false, now);
  }

  // ---------------------------------------------------------------------------
  // Listings
  // ---------------------------------------------------------------------------

  /** Test players are hidden when the testgrounds are locked and the caller is not
      an administrator. */
  predicate HidesTestData(rows: seq<AuctionRow>, isAdmin: bool)
  {
    LockedFlag(rows) && !isAdmin
  }

  /** The WHERE clause getAllPlayers builds; an empty filter string adds nothing. */
  function PlayerQuery(hideTest: bool, sport: string, year: string, status: string): Player -> bool
  {
    (p: Player) =>
      && !(hideTest && p.isTestData)
      && (sport == "" || SportName(p.sport) == sport)
      && (year == "" || YearName(p.year) == year)
      && (status == "" || StatusName(p.status) == status)
  }

  function CreatedAt(): Player -> int
  {
    (p: Player) => p.createdAt
  }

  function NegCreatedAt(): Player -> int
  {
    (p: Player) => -p.createdAt
  }

  /** getAllPlayers: the players that pass the filters, newest first. */
  function GetAllPlayers(ps: seq<Player>, rows: seq<AuctionRow>, isAdmin: bool,
                         sport: string, year: string, status: string): (r: seq<Player>)
    ensures forall p :: p in r <==>
      && p in ps
      && !(LockedFlag(rows) && !isAdmin && p.isTestData)
      && (sport == "" || SportName(p.sport) == sport)
      && (year == "" || YearName(p.year) == year)
      && (status == "" || StatusName(p.status) == status)
    ensures forall i, j :: 0 <= i < j < |r| ==> r[i].createdAt >= r[j].createdAt
    ensures multiset(r) == multiset(Filter(ps, PlayerQuery(HidesTestData(rows, isAdmin), sport, year, status)))
  {
    var selected := Filter(ps, PlayerQuery(HidesTestData(rows, isAdmin), sport, year, status));
    var r := SortBy(selected, NegCreatedAt());
    assert SortedBy(r, NegCreatedAt());
    assert forall p :: p in selected <==> p in ps && PlayerQuery(HidesTestData(rows, isAdmin), sport, year, status)(p);
    r
  }

  /** getEligiblePlayers: the eligible players, oldest first. */
  function GetEligiblePlayers(ps: seq<Player>, rows: seq<AuctionRow>, isAdmin: bool): (r: seq<Player>)
    ensures forall p :: p in r <==>
      p in ps && p.status == Eligible && !(LockedFlag(rows) && !isAdmin && p.isTestData)
    ensures forall i, j :: 0 <= i < j < |r| ==> r[i].createdAt <= r[j].createdAt
    ensures multiset(r) == multiset(Filter(ps, PlayerQuery(HidesTestData(rows, isAdmin), "", "", "eligible")))
  {
    var selected := Filter(ps, PlayerQuery(HidesTestData(rows, isAdmin), "", "", "eligible"));
    var r := SortBy(selected, CreatedAt());
    assert forall p: Player :: StatusName(p.status) == "eligible" <==> p.status == Eligible;
    assert SortedBy(r, CreatedAt());
    r
  }

  /** The lockdown only ever hides test players: a real player is listed whether the
      testgrounds are locked or not, and an administrator sees the same list either
      way. */
  lemma LockdownHidesOnlyTestPlayers(ps: seq<Player>, locked: seq<AuctionRow>, open: seq<AuctionRow>,
                                     isAdmin: bool, sport: string, year: string, status: string)
    requires !LockedFlag(open)
    ensures forall p: Player :: !p.isTestData ==>
      (p in GetAllPlayers(ps, locked, isAdmin, sport, year, status) <==> p in GetAllPlayers(ps, open, isAdmin, sport, year, status))
    ensures isAdmin ==> forall p ::
      p in GetAllPlayers(ps, locked, isAdmin, sport, year, status) <==> p in GetAllPlayers(ps, open, isAdmin, sport, year, status)
  {
  }

  // ---------------------------------------------------------------------------
  // Administrator edits
  // ---------------------------------------------------------------------------

  /** The patch updatePlayer builds: name, sport, year, stats and status. */
  function PlayerFormPatch(name: string, sport: string, year: string,
                           stats: Option<map<string, string>>, status: string): PlayerPatch
  {
    PlayerPatch(name, sport, year, None, status, stats, None)
  }

  /** The player form cannot reach the base price or the photo: after any update
      through it, every row keeps both, and every other row is untouched. */
  lemma FormPatchKeepsPriceAndPhoto(ps: seq<Player>, id: int, name: string, sport: string, year: string,
                                    stats: Option<map<string, string>>, status: string)
    requires PatchAdmitted(PlayerFormPatch(name, sport, year, stats, status))
    ensures var r := PatchPlayers(ps, id, false, PlayerFormPatch(name, sport, year, stats, status));
      forall i :: 0 <= i < |ps| ==>
        && r[i].basePrice == ps[i].basePrice && r[i].photoUrl == ps[i].photoUrl
        && (ps[i].id != id ==> r[i] == ps[i])
  {
  }

  /** updatePlayer: an empty form is a bad request; an unknown id is not found; a
      value outside the CHECK constraints fails; otherwise the row is updated. */
  method UpdatePlayer(l: Ledger, id: int, name: string, sport: string, year: string,
                      stats: Option<map<string, string>>, status: string) returns (r: Result<Player>)
    requires l.Valid()
    modifies l`players
    ensures l.Valid()
    ensures (name == "" && sport == "" && year == "" && stats.None? && status == "") <==> r == Failure(BadRequest)
    ensures r != Failure(BadRequest) && !HasPlayer(old(l.players), id, false) <==> r == Failure(NotFound)
    ensures (!(name == "" && sport == "" && year == "" && stats.None? && status == "") && HasPlayer(old(l.players), id, false)
             && PatchAdmitted(PlayerFormPatch(name, sport, year, stats, status)))
            ==> r.Success?
    ensures r.Failure? ==> l.players == old(l.players)
    ensures r.Success? ==>
      var u := PlayerFormPatch(name, sport, year, stats, status);
      PatchAdmitted(u) && l.players == PatchPlayers(old(l.players), id, false, u)
    ensures r.Success? ==> r.value.id == id && r.value.basePrice == old(l.players)[FindPlayer(old(l.players), id).value].basePrice
  {
    var u := PlayerFormPatch(name, sport, year, stats, status);
    r := UpdatePlayerWhere(l, id, false, u);
    if r.Success? {
      ghost var i :| 0 <= i < |old(l.players)| && PlayerMatches(old(l.players)[i], id, false)
        && r.value == PatchRow(old(l.players)[i], u);
      FoundIsOnlyMatch(old(l.players), id, i);
    }
  }

  /** With unique keys, the row holding an id is the one the lookup finds. */
  lemma FoundIsOnlyMatch(ps: seq<Player>, id: int, i: nat)
    requires UniqueKeys(ps, PlayerKey)
    requires i < |ps| && ps[i].id == id
    ensures FindPlayer(ps, id) == Some(i)
  {
    var k := FindPlayer(ps, id).value;
    assert PlayerKey(ps[k]) == PlayerKey(ps[i]);
  }

  /** deletePlayer: deletes the row and its bids; an unknown id is not found; a
      player with bid history cannot be deleted. */
  method DeletePlayer(l: Ledger, id: int) returns (r: Result<()>)
    requires l.Valid()
    modifies l`players, l`bids
    ensures l.Valid()
    ensures !HasPlayer(old(l.players), id, false) <==> r == Failure(NotFound)
    ensures HasPlayer(old(l.players), id, false) ==>
      (r == Failure(ServerError) <==> LogsReference(l.bidLogs, {id}, {}))
    ensures HasPlayer(old(l.players), id, false) && !LogsReference(l.bidLogs, {id}, {}) ==> r.Success?
    ensures r.Failure? ==> l.players == old(l.players) && l.bids == old(l.bids)
    ensures r.Success? ==> forall p :: p in l.players <==> p in old(l.players) && p.id != id
    ensures r.Success? ==> forall b :: b in l.bids <==> b in old(l.bids) && b.playerId != id
  {
    r := DeletePlayerWhere(l, id, false);
    if r.Success? {
      DeletedPlayerRows(old(l.players), old(l.bids), id);
    }
  }

  /** What deleting player `id` leaves of the players and bids tables. */
  lemma DeletedPlayerRows(ps: seq<Player>, bs: seq<BidRow>, id: int)
    ensures forall p :: p in Filter(ps, SparePlayer(PlayerSelected(id, false))) <==> p in ps && p.id != id
    ensures forall b :: b in Filter(bs, SpareBid({id}, {})) <==> b in bs && b.playerId != id
  {
  }

  /** markEligible: sets the status of the row with the id, if any; answers success
      either way. */
  method MarkEligible(l: Ledger, id: int)
    requires l.Valid()
    modifies l`players
    ensures l.Valid()
    ensures l.players == SetStatus(old(l.players), id, false, Eligible)
  {
    var updated := SetStatus(l.players, id, false, Eligible);
    SameIdsKeepKeys(l.players, updated, l.teams, l.teams, l.nextPlayerId, l.nextTeamId);
    l.players := updated;
  }

  /** Marking a player eligible puts it in the eligible list of anyone who may see
      it, and leaves every other player's listing as it was. */
  lemma MarkEligibleLists(ps: seq<Player>, rows: seq<AuctionRow>, isAdmin: bool, id: int)
    ensures forall i :: 0 <= i < |ps| && ps[i].id == id && !(LockedFlag(rows) && !isAdmin && ps[i].isTestData) ==>
      SetStatus(ps, id, false, Eligible)[i] in GetEligiblePlayers(SetStatus(ps, id, false, Eligible), rows, isAdmin)
    ensures forall p: Player :: p.id != id ==>
      (p in GetEligiblePlayers(SetStatus(ps, id, false, Eligible), rows, isAdmin) <==> p in GetEligiblePlayers(ps, rows, isAdmin))
  {
    var after := SetStatus(ps, id, false, Eligible);
    forall p: Player | p.id != id
      ensures p in after <==> p in ps
    {
      if p in after {
        var i :| 0 <= i < |after| && after[i] == p;
        assert ps[i] == p;
      }
      if p in ps {
        var i :| 0 <= i < |ps| && ps[i] == p;
        assert after[i] == p;
      }
    }
  }
}
