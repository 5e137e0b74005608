# Auction ledger model

This project models the ledger behind a college sports player auction. Players register, an
administrator approves them and queues them, and an auctioneer puts one player up at a time.
Teams bid from a wallet and a sold player is charged to the buying team. Test data
(players, teams and users flagged `is_test_data`) lives beside the real data, and a lockdown
flag hides it from the public listings.

The PostgreSQL tables are sequence fields of one `Database.Ledger` object:

- `users`, `teams`, `players`, `bids` and `bid_logs`;
- the `auction_state` rows;
- the counters a `SERIAL` key draws from.

Each request handler is a method on the ledger. It carries three kinds of contract:

- a `modifies` frame naming exactly the tables it may write;
- an explicit `Result` for every refusal: 400, 404 or 500, with the budget carried by a refused bid;
- an `ensures` stating the new tables as a function of the old ones.

Every SQL statement is a named pure function on a table: a filter, a per-row update, or an
ORDER BY as a stable sort. The lemmas beside them state what the handlers promise, and what
they do not enforce.

Modules and files:

- `Tables` (`tables.dfy`): the row filter, the stable sort and the primary-key property.
- `Text` (`text.dfy`): ASCII lower-casing, substring search, decimal rendering and `join`.
- `Database` (`database.dfy`): the schema. It covers the enumerations (the CHECK constraints), the column defaults and the single `auction_state` row. It also holds the referential actions of DELETE and the statements several handlers share (insert, patch, delete by id).
- `Auction` (`auction.dfy`): the lot lifecycle of the auctioneer's controller.
- `Admin` (`admin.dfy`): teams, wallets, the queue, bulk price updates and the CSV export.
- `Testgrounds` (`testgrounds.dfy`): the test-data handlers, the lockdown and the clear-all.
- `Players` (`players.dfy`): the upload filter, registration, the public listings and the administrator's player edits.
- `FixBudgets` (`fix_budgets.dfy`): the budget reconciliation script, and which handlers keep a reconciled ledger reconciled.

Referential actions are modelled as the schema declares them:

- bids cascade with their player and their team;
- bid_logs has no ON DELETE action, so a log row blocks deleting the player or team it names;
- players.team_id and users.team_id are set to NULL;
- players.user_id cascades.

## Model

| member | source | states |
|---|---|---|
| Database.ParseSport | backend/src/config/database.js:48 | a sport string is admitted exactly when it names one of cricket, futsal, volleyball |
| Database.ParseYear | backend/src/config/database.js:62 | a year string is admitted exactly when it is 1st, 2nd or 3rd |
| Database.ParseStatus | backend/src/config/database.js:66 | a status string is admitted exactly when it is one of the six statuses |
| Database.EnumerationsRoundTrip | backend/src/config/database.js:48-66 | the stored name of every enumerated value is admitted and parses back to it |
| Database.TeamWithDefaults | backend/src/config/database.js:49-50 | a team inserted without a budget has budget and remaining budget 2000 |
| Database.PlayerWithDefaults | backend/src/config/database.js:65-68 | a player inserted without values is pending, at base price 50, with no team and no sale price |
| Database.DefaultsAreWellFormed | backend/src/config/database.js:104-110 | the default increment rules ascend from threshold 0; the default minimum bids are 50 for each of the three sports |
| Database.InitAuctionState | backend/src/config/database.js:115-119 | the state row is inserted only into an empty table; an existing table is left as it is |
| Database.InitAuctionStateIdempotent | backend/src/config/database.js:115-119 | initialising twice is initialising once, and leaves exactly one row when there was at most one |
| Database.Ledger.InitializeDatabase | backend/src/config/database.js:115-119 | the state table after initialisation is the conditional insert applied to the old one |
| Database.MinBidFor | backend/src/controllers/auctionController.js:324-326 | `minBids[sport] \|\| 50`: the stored minimum when it is set and nonzero, else 50; never 0 |
| Database.FindPlayer | backend/src/controllers/playerController.js:145 | the first row with the id, and none exactly when no row has it |
| Database.FindTeam | backend/src/controllers/adminController.js:257 | the first team with the id, and none exactly when no team has it |
| Database.SetStatus | backend/src/controllers/adminController.js:579-582 | a status UPDATE changes the status of the selected rows and nothing else |
| Database.SetStatusIdempotent | backend/src/controllers/auctionController.js:415-418 | applying the same status UPDATE twice equals applying it once |
| Database.PatchRow | backend/src/controllers/testgroundsController.js:89-117 | each truthy field of the form replaces its column and every other column is kept |
| Database.UpdatePlayerWhere | backend/src/controllers/testgroundsController.js:112-124 | empty form is 400, no selected row is 404, a CHECK violation on a selected row is 500, each with no change; a non-empty, admissible patch of a selected row always succeeds and patches exactly the selected rows |
| Database.SelectedPlayerIds | backend/src/controllers/playerController.js:224 | a `WHERE id = $1` that selects a row selects exactly that id |
| Database.DeletePlayerWhere | backend/src/controllers/testgroundsController.js:138-145 | no selected row is 404; a bid log naming the player makes the DELETE fail with no change; otherwise the delete always succeeds and removes the row and its bids |
| Database.UnlinkPlayers | backend/src/config/database.js:67 | deleting teams nulls exactly the team of players that referenced them |
| Database.UnlinkUsers | backend/scripts/add_team_owner_assignment.js:36 | deleting teams nulls exactly the team of users that referenced them |
| Database.Ledger.InsertTeam | backend/src/controllers/adminController.js:186-189 | the new row takes the next id and starts with remaining budget equal to budget; a sport outside the enumeration fails with no change |
| Database.Ledger.InsertPlayer | backend/src/controllers/playerController.js:76-81 | the row is appended with the next id exactly when sport and year are admitted and the owning user exists; else 500 with no change |
| Database.Ledger.DeletePlayersWhere | backend/src/config/database.js:77-88 | deleting players removes their bids and fails with no change when a bid log names one of them |
| Database.Ledger.DeleteUsersWhere | backend/src/config/database.js:59 | deleting users deletes the players they own and those players' bids, unless a bid log names one of those players |
| Database.Ledger.DeleteTeamsWhere | backend/src/config/database.js:67-89 | deleting teams nulls the links from players and users and deletes their bids, unless a bid log names one of them |
| Auction.LotBasePrice | backend/src/controllers/auctionController.js:22-25 | `COALESCE(basePrice \|\| null, base_price, 50)` |
| Auction.StartAuction | backend/src/controllers/auctionController.js:10-30 | a falsy id is 400; the lot starts exactly when the player exists and is not sold (else 400 with no change); the player becomes auctioning at the lot base price |
| Auction.StartLotAllowsTwoLots | backend/src/controllers/auctionController.js:20-26 | starting a lot does not stop a second player from also being auctioning |
| Auction.PlaceBid | backend/src/controllers/auctionController.js:60-150 | missing or non-positive input is 400; an unknown team is 404; a bid above the remaining budget is refused with that budget; else one identical row is appended to bids and to bid_logs, and no team or player changes |
| Auction.FirstWithStatus | backend/src/controllers/auctionController.js:157 | the first player with the status, and none exactly when no player has it |
| Auction.HighestBid | backend/src/controllers/auctionController.js:176-188 | the lot's highest bid among bids whose team exists, by amount and not by time |
| Auction.LowerBidKeepsHighest | backend/src/controllers/auctionController.js:176-188 | a later bid that is lower does not change the reported highest bid |
| Auction.CurrentAuction | backend/src/controllers/auctionController.js:152-191 | the lot is the first auctioning row of the players table (that row itself), and there is no lot exactly when none is auctioning; the reported bid is that lot's highest; active only when the first row says so |
| Auction.SettingsView | backend/src/controllers/auctionController.js:216-230 | each setting falls back to its default when the row or the value is missing; registration uses `??`, so a stored false is kept |
| Auction.FallbacksMatchColumnDefaults | backend/src/controllers/auctionController.js:219-229 | a freshly inserted row reads exactly like a missing row |
| Auction.ToggleAuctionState | backend/src/controllers/auctionController.js:199-206 | every state row takes the given flag and nothing else changes |
| Auction.ToggleRegistrationState | backend/src/controllers/auctionController.js:533-540 | every state row takes the given registration flag and nothing else changes |
| Auction.UpdateSportMinBids | backend/src/controllers/auctionController.js:551-562 | a missing object is 400 with no change; a present one always succeeds and every state row stores it |
| Auction.CheckRules | backend/src/controllers/auctionController.js:268-272 | the rules pass exactly when every threshold and increment is numeric, and keep their values |
| Auction.ValidateRules | backend/src/controllers/auctionController.js:263-275 | accepted exactly when the input is a nonempty array of numeric rules; the result is sorted by threshold and a permutation of the input |
| Auction.RulesNeedNoZeroAnchor | backend/src/controllers/auctionController.js:263-275 | a schedule without a threshold-0 rule is accepted |
| Auction.UpdateBidRules | backend/src/controllers/auctionController.js:259-279 | the answer is the validation result; on success every state row stores the sorted rules; else no change |
| Auction.Requeue | backend/src/controllers/auctionController.js:329-332 | the player becomes eligible at the given price; other rows are unchanged |
| Auction.SkipPlayer | backend/src/controllers/auctionController.js:310-344 | a falsy id is 400 and an unknown player 404, with no change; else the player is requeued at its sport's minimum bid, which is answered |
| Auction.SellPlayer | backend/src/controllers/auctionController.js:361-364 | the player becomes sold to the team at the price; other rows are unchanged |
| Auction.ChargeTeam | backend/src/controllers/auctionController.js:367-370 | the team's remaining budget drops by the price; other rows are unchanged |
| Auction.SaleCanOverdraw | backend/src/controllers/auctionController.js:352-372 | a price above the remaining budget drives it negative: no budget check |
| Auction.MarkPlayerSold | backend/src/controllers/auctionController.js:352-372 | a falsy id, team or price is exactly the 400 case; with all three present and the team existing the sale succeeds, the player is sold and the team charged; a missing team fails on the foreign key with no change |
| Auction.MarkPlayerUnsold | backend/src/controllers/auctionController.js:401-418 | a falsy id is 400; any other id succeeds and only the status becomes unsold, keeping team and price |
| Auction.UnsoldKeepsSale | backend/src/controllers/auctionController.js:415-418 | marking unsold keeps team and price and refunds nothing; doing it twice equals doing it once |
| Auction.ResetAuctionBid | backend/src/controllers/auctionController.js:486-525 | no auctioning player is 400; with one the reset always succeeds, only that player's bids are deleted, bid_logs is kept, and base price or 50 is answered |
| Auction.ResetRemovesOnlyLotBids | backend/src/controllers/auctionController.js:501 | the surviving bids are exactly those of other players |
| Admin.CreateTeam | backend/src/controllers/adminController.js:166-189 | name and sport are required (400); a failed logo upload is 500; the team starts with its budget, default 100000, fully remaining |
| Admin.VisibleTeams | backend/src/controllers/adminController.js:202-231 | the listed teams are those of the requested sport, without test teams while locked |
| Admin.UpdateTeamRow | backend/src/controllers/adminController.js:263-287 | a new budget moves the remaining budget by the same difference, so the amount spent is unchanged |
| Admin.UpdateTeam | backend/src/controllers/adminController.js:247-300 | an unknown team is 404, a failed upload 500 and an empty update 400, each with no change; any other update of a known team succeeds and changes only that team's row |
| Admin.DeleteTeam | backend/src/controllers/adminController.js:327-342 | an unknown team is 404 and a bid log naming it is 500, each with no change; otherwise it succeeds, the team and its bids go and links to it are nulled |
| Admin.Unsell | backend/src/controllers/adminController.js:697 | the player becomes unsold with no team and no price |
| Admin.UnsellTeam | backend/src/controllers/adminController.js:348-351 | exactly the players of the team are unsold |
| Admin.ResetWallet | backend/src/controllers/adminController.js:357-358 | budget and remaining budget become 2000 |
| Admin.ResetTeamWallet | backend/src/controllers/adminController.js:344-363 | the team's players are unsold and its bids deleted even when the team is unknown (404); a known team always succeeds, its wallet is reset and other teams are untouched |
| Admin.ResetWallets | backend/src/controllers/adminController.js:385 | every team's wallet is reset |
| Admin.ResetAllWallets | backend/src/controllers/adminController.js:379-385 | every bid is deleted and every wallet reset; no player row changes |
| Admin.RemoveFromQueue | backend/src/controllers/adminController.js:572-584 | an unknown player is 404 with no change; a known one always succeeds and becomes approved |
| Admin.AddToQueueById | backend/src/controllers/adminController.js:661-685 | unknown is 404, sold or already eligible is 400, each with no change; any other known player succeeds and becomes eligible |
| Admin.Release | backend/src/controllers/adminController.js:696-699 | only the player with the id is unsold |
| Admin.ReleasePlayer | backend/src/controllers/adminController.js:693-705 | an unknown player is 404; a known one always succeeds, becomes unsold, and no team is refunded |
| Admin.SetSportBasePrice | backend/src/controllers/adminController.js:602-605 | every non-sold player of the sport takes the price; sold players and other sports are unchanged |
| Admin.BulkUpdateMinBid | backend/src/controllers/adminController.js:592-616 | a missing sport or value is exactly the 400 case, with no change; otherwise it succeeds, the players are repriced and the minimum is stored under the lower-cased key |
| Admin.CapitalisedSportMissesPlayers | backend/src/controllers/adminController.js:603-611 | a capitalised sport reprices no player but still sets the lower-case minimum |
| Admin.ResetReleasedRow | backend/src/controllers/adminController.js:642-645 | an unsold player becomes approved at its sport's minimum with no team and price; any other row is kept |
| Admin.ResetReleased | backend/src/controllers/adminController.js:640-647 | the three per-sport UPDATEs together reset every released player |
| Admin.ResetReleasedOfSport | backend/src/controllers/adminController.js:643-646 | one iteration resets the released players of one sport only |
| Admin.ResetStep | backend/src/controllers/adminController.js:640-646 | each iteration extends the reset to the released players of one more sport and leaves the rest as they were |
| Admin.BulkResetReleasedBids | backend/src/controllers/adminController.js:630-647 | after the loop over the three sports, the players table is the reset of every released player |
| Admin.EscapeQuotes | backend/src/controllers/adminController.js:755 | every double quote is doubled: the name grows by one character per quote and no lone quote is left to end the quoted field |
| Admin.EscapeQuotesRoundTrip | backend/src/controllers/adminController.js:755 | undoubling the escaped name gives the name back (section 2 rule 7 of RFC 4180) |
| Admin.IntOrEmpty | backend/src/controllers/adminController.js:760-761 | a falsy sale price or team renders as an empty field |
| Admin.CsvFields | backend/src/controllers/adminController.js:753-766 | twelve fields matching the header, with the quoted name and the enumerations by name |
| Admin.CsvLines | backend/src/controllers/adminController.js:741-769 | one line per player, in order |
| Admin.ExportRows | backend/src/controllers/adminController.js:716-725 | the players of the requested sport (all when none), in ascending id order, as a permutation of the selection |
| Admin.RenderCsv | backend/src/controllers/adminController.js:738-771 | the for loop produces the header line and one line per player, joined by newlines |
| Admin.ExportPlayersToCsv | backend/src/controllers/adminController.js:712-775 | no selected player is 404; otherwise it succeeds with the CSV of the selected rows |
| Testgrounds.CreateTestPlayer | backend/src/controllers/testgroundsController.js:23-57 | name, sport and year are required; the player is approved, test data, linked to the administrator, at `base_price \|\| 50` |
| Testgrounds.TestPatchEmptyExactly | backend/src/controllers/testgroundsController.js:89-116 | the update is empty exactly when no form field is given and no photo was uploaded; an uploaded photo alone is an update and a zero base price is none |
| Testgrounds.UpdateTestPlayer | backend/src/controllers/testgroundsController.js:82-124 | only test rows are patched; a real or unknown id is 404 with no change; a non-empty admissible update of a test player always succeeds |
| Testgrounds.PatchSparesRealPlayers | backend/src/controllers/testgroundsController.js:119 | the test-only patch leaves every real player as it was |
| Testgrounds.DeleteTestPlayer | backend/src/controllers/testgroundsController.js:134-145 | only a test row is deleted, with its bids; a real or unknown id is 404; a player with bid history cannot be deleted; any other test player is deleted successfully |
| Testgrounds.CreateTestTeam | backend/src/controllers/testgroundsController.js:158-179 | name and sport are required; budget defaults to 2000 and is fully remaining; the team is test data |
| Testgrounds.UpdateTestTeamRow | backend/src/controllers/testgroundsController.js:213-232 | a new budget leaves the remaining budget as it was, unlike updateTeam |
| Testgrounds.TestBudgetChangeShiftsSpent | backend/src/controllers/testgroundsController.js:219-223 | raising a test team's budget raises its apparent spending by the same amount |
| Testgrounds.UpdateTestTeam | backend/src/controllers/testgroundsController.js:204-243 | a failed upload is 500 and an empty update 400; a real or unknown team is 404; any other update of a test team succeeds and changes only that row |
| Testgrounds.DeleteTestTeam | backend/src/controllers/testgroundsController.js:255-268 | a real or unknown team is 404; a bid log naming it blocks the delete; otherwise it succeeds, the team goes, its bids are deleted and links to it are nulled |
| Testgrounds.AddTestPlayerToQueue | backend/src/controllers/testgroundsController.js:404-417 | a test player always succeeds and becomes eligible, even when sold; a real or unknown id is 404 with no change |
| Testgrounds.RemoveTestPlayerFromQueue | backend/src/controllers/testgroundsController.js:424-437 | a test player always succeeds and becomes approved; a real or unknown id is 404 with no change |
| Testgrounds.SetTestStatus | backend/src/controllers/testgroundsController.js:408-415 | the status UPDATE restricted to test rows: 404 exactly when it selects no row, success otherwise |
| Testgrounds.SetLocked | backend/src/controllers/testgroundsController.js:464 | every state row takes the lockdown flag |
| Testgrounds.ToggleTestgroundsLockdown | backend/src/controllers/testgroundsController.js:460-478 | the answer is the negation of the stored flag (missing or NULL counts as unlocked), and every row stores it |
| Testgrounds.ToggleNegates | backend/src/controllers/testgroundsController.js:462-464 | with a state row the flag is negated and toggling twice restores it; without one nothing is stored |
| Testgrounds.ClearTestBids | backend/src/controllers/testgroundsController.js:491 | the bids of test players go |
| Testgrounds.ClearTestPlayers | backend/src/controllers/testgroundsController.js:494 | the test players go |
| Testgrounds.ClearTestUsers | backend/src/controllers/testgroundsController.js:497 | exactly the test users go, exactly the players they own go with them (real or not), and exactly those players' bids |
| Testgrounds.ClearTestTeams | backend/src/controllers/testgroundsController.js:500 | the test teams go; players and users keep their rows |
| Testgrounds.ClearAllTestData | backend/src/controllers/testgroundsController.js:487-500 | the four statements in order; the first blocked by a bid log fails with 500 and the statements before it stay in effect |
| Testgrounds.ClearLeavesNoTestRows | backend/src/controllers/testgroundsController.js:487-500 | after a complete clear no test player, user or team is left |
| Testgrounds.ClearReachesRealPlayers | backend/src/controllers/testgroundsController.js:497-500 | after the four statements no player is owned by a test user and none keeps a test team, even real ones; every other real player survives, its team nulled when that team was a test team |
| Players.LastDot | backend/src/controllers/playerController.js:25 | the position of the last dot, and none exactly when there is no dot |
| Players.ExtName | backend/src/controllers/playerController.js:25 | the extension is a dot-led suffix with no further dot; it is empty exactly for `..` and for names with no dot after the first character |
| Players.ContainsAt | backend/src/controllers/playerController.js:24-26 | an occurrence at a known position satisfies the unanchored pattern test |
| Players.MissingFirstChar | backend/src/controllers/playerController.js:24-26 | a string without the pattern's first character does not match it |
| Players.AcceptsUpperCaseExtension | backend/src/controllers/playerController.js:25-29 | an upper-case extension is accepted once lower-cased |
| Players.RefusesDotFile | backend/src/controllers/playerController.js:25-31 | a dot file has no extension and is refused |
| Players.AcceptsExtensionContainingImageName | backend/src/controllers/playerController.js:24-29 | the unanchored pattern accepts an extension that merely contains an image name |
| Players.RefusesUpperCaseMimetype | backend/src/controllers/playerController.js:26-31 | the MIME type is not lower-cased, so an upper-case type is refused |
| Players.CreatePlayer | backend/src/controllers/playerController.js:50-81 | name, sport and year are required; a failed upload is 500; the player is pending, not test data, owned by the caller, at base price 50 |
| Players.GetAllPlayers | backend/src/controllers/playerController.js:94-132 | test players are hidden exactly when locked and not an administrator; the optional filters apply together; newest first |
| Players.GetEligiblePlayers | backend/src/controllers/playerController.js:255-271 | only eligible players, under the same hiding rule, oldest first |
| Players.LockdownHidesOnlyTestPlayers | backend/src/controllers/playerController.js:108-110 | locking changes no real player's listing, and nothing for an administrator |
| Players.FormPatchKeepsPriceAndPhoto | backend/src/controllers/playerController.js:167-195 | an update through the player form keeps every row's base price and photo and leaves rows of other ids untouched |
| Players.UpdatePlayer | backend/src/controllers/playerController.js:158-208 | an empty form is 400 and an unknown id 404, both with no change; a non-empty admissible form for a known id always succeeds; the row is patched and its base price is kept |
| Players.DeletePlayer | backend/src/controllers/playerController.js:220-228 | an unknown id is 404; a bid log naming the player is 500; otherwise it succeeds and exactly that player and its bids go |
| Players.MarkEligible | backend/src/controllers/playerController.js:238-247 | the player becomes eligible whatever its status, and the answer is success even for an unknown id |
| Players.MarkEligibleLists | backend/src/controllers/playerController.js:242-269 | the marked player joins the eligible list of anyone who may see it; other players' listing is unchanged |
| FixBudgets.Recompute | backend/scripts/fix_budgets.js:9-16 | every team is reconciled afterwards, and only remaining budgets change |
| FixBudgets.FixBudgets | backend/scripts/fix_budgets.js:9-16 | the teams table becomes the recompute over the players; no player row changes |
| FixBudgets.RecomputeIdempotent | backend/scripts/fix_budgets.js:9-16 | a reconciled ledger is a fixed point, so running twice equals running once |
| FixBudgets.NothingSoldSpendsNothing | backend/scripts/fix_budgets.js:11-15 | the COALESCE of an empty sum is 0 |
| FixBudgets.UnsoldTeamGetsFullBudget | backend/scripts/fix_budgets.js:11-15 | a team with no sold players gets remaining budget equal to budget |
| FixBudgets.SpentUpdate | backend/scripts/fix_budgets.js:12-14 | changing one player row changes the sum by the difference of its contributions |
| FixBudgets.SaleKeepsReconciled | backend/src/controllers/auctionController.js:361-370 | selling an existing, not yet sold player keeps a reconciled ledger reconciled |
| FixBudgets.SaleOfMissingPlayerBreaksReconciliation | backend/src/controllers/auctionController.js:361-370 | selling an unknown id still charges the team, which breaks reconciliation |
| FixBudgets.UpdateTeamKeepsReconciled | backend/src/controllers/adminController.js:263-277 | updateTeam keeps a reconciled ledger reconciled |
| FixBudgets.UpdateTestTeamBreaksReconciliation | backend/src/controllers/testgroundsController.js:219-223 | updateTestTeam changing a budget breaks reconciliation |
| FixBudgets.ReleaseBreaksReconciliation | backend/src/controllers/adminController.js:693-699 | releasing a paid-for player leaves the buyer below what the recompute gives |
| FixBudgets.ResetWalletsBreaksReconciliation | backend/src/controllers/adminController.js:379-385 | resetting wallets without unselling breaks reconciliation for any team that had spent |
| Text.Lower | backend/src/controllers/adminController.js:611 | ASCII lower case, character by character, with no upper-case letter left |
| Text.NatToStringRoundTrip | backend/src/controllers/adminController.js:754 | the decimal rendering of a number reads back as that number |
| Text.IntToStringRoundTrip | backend/src/controllers/adminController.js:753-761 | `String(n)` as Array.join renders it: a minus sign exactly for a negative number, then digits that read back as its magnitude |
| Tables.SortBy | backend/src/controllers/adminController.js:722 | ORDER BY: sorted by the key, a permutation of the rows, the same rows |
| Tables.FilterKeepsUniqueKeys | backend/src/config/database.js:58 | deleting rows keeps the primary key unique |

## Left out

- Real-time broadcasts (`req.io.emit`) and the socket server are not modelled: they are transport, not ledger state.
- Transactions and row locks are not modelled. Every handler is one atomic sequential method. For placeBid, a failure after BEGIN rolls back, and in the model a refusal simply changes nothing.
- Foreign calls are taken as inputs or left out:
  - the image store upload is an `Upload` value (no file, a URL, or a failure);
  - bcrypt, multer storage and connection pooling are left out;
  - `JSON.parse` of stats is left out, and stats are a string map.
- Amounts arrive as integers. `Math.round(parseFloat(..))` and `parseInt` are float and string parsing and are not modelled.
- Players.ExtName: names containing `/` are not modelled (Node's basename and trailing-separator handling). The client's file name is taken as a bare name.
- Text.Lower lower-cases ASCII only; other characters are kept as they are.
- Players.UploadAccepted and Players.SizeAccepted state the multer filter and the 5 MiB limit. multer enforces the limit while streaming, and that is not modelled.
- The animation settings (`updateAnimationDuration`, `updateAnimationType`) are not modelled: presentation only.
- `getRecentBids`, `getLeaderboard`, `getDashboardStats`, `getPlayerById`, `getAllTestPlayers` and `getAllTestTeams` are not modelled. They are plain reads with no invariant beyond those already stated for the tables.
- ORDER BY name in getAllTeams is collation-dependent, so Admin.VisibleTeams gives the selected rows in table order.
- Pseudo owners (create, update, delete) and the user handlers are not modelled: password hashing and user accounts are outside the ledger.
- The administrator's own createPlayer and updatePlayer in adminController.js are not modelled; the player controller's versions are.
- A `LIMIT 1` without ORDER BY reads the first row in table order.
- The `current_*` columns of auction_state, and bid `created_at`, are not read by any modelled handler and are left out.
- Integers are unbounded here. PostgreSQL INTEGER columns hold 32 bits, and a value outside that range makes the statement fail with a 500; the model stores it.
- Auction.ValidateRules and Auction.UpdateBidRules take each rule's threshold and increment as an optional integer. JavaScript's `typeof === 'number'` also admits fractions, NaN and infinities. A `null` element makes the handler throw (a 500). Keys other than threshold and increment are stored as sent. None of these three cases is modelled.
- `is_test_data`, which a migration adds to players, teams and users without NOT NULL, is taken as never NULL. So are `budget` and `remaining_budget`, which the CREATE TABLE of teams declares with a default but without NOT NULL.
- Admin.CreateTeam, Testgrounds.CreateTestTeam: an explicit `budget: null` in the request is modelled as an absent budget, which takes the default. In the code the destructuring default applies only to `undefined`, so a null budget is stored as NULL. placeBid then compares the bid with `parseFloat(null)`, which is NaN, and lets every bid through.
- Auction.UpdateSportMinBids, Database.MinBidFor, Auction.SkipPlayer: the minimum-bid object is narrowed to a map from sport to integer. Two inputs the code accepts are not modelled. An array passes the `typeof === 'object'` test but is sent to PostgreSQL as an array literal, which the JSON column rejects (a 500). Non-integer values such as `"abc"` are stored as given, then read back through `|| 50` by skipPlayer and passed on to SQL by bulkResetReleasedBids.
- Year follows the CHECK constraint in backend/src/config/database.js. The widening in backend/scripts/update_constraints.js is not modelled.
- The server never computes a next minimum bid from the increment rules. That is client-side, so nothing models it.
- Admin.VisibleTeams: `is_test_data IS NULL` is not modelled, because the flag is a boolean here.
- FixBudgets.SaleKeepsReconciled requires the player to exist and not be sold already. Reselling a sold player to another team is not covered, since the first buyer is not refunded.

Where the code does not do what a reader of the handlers' comments or messages would expect, the model follows the code:

- startAuction does not stop a second lot (Auction.StartLotAllowsTwoLots).
- placeBid does not require a higher bid or an auctioning player.
- markPlayerSold does not check the budget (Auction.SaleCanOverdraw). It also charges the team when the player id matches no row (FixBudgets.SaleOfMissingPlayerBreaksReconciliation).
- markPlayerUnsold and releasePlayer refund nothing, although releasePlayer's comment says it does (FixBudgets.ReleaseBreaksReconciliation).
- resetAllWallets does not unsell players (FixBudgets.ResetWalletsBreaksReconciliation).
- updateBidRules accepts a schedule without a threshold-0 rule (Auction.RulesNeedNoZeroAnchor).
- resetTeamWallet unsells the team's players and deletes its bids before it finds that the team does not exist. It then answers 404 with those changes kept (Admin.ResetTeamWallet).
- clearAllTestData can touch real rows through the referential actions:
  - a real player owned by a test user is deleted;
  - a real player or user linked to a test team loses the link.
- clearAllTestData fails part-way once any test player has bid history, because bid_logs blocks the delete. The statements before the failure stay in effect (Testgrounds.ClearAllTestData, Testgrounds.ClearReachesRealPlayers).
- bulkUpdateMinBid reprices players with the sport exactly as sent, but stores the minimum under the lower-cased key (Admin.CapitalisedSportMissesPlayers).
