/** The budget reconciliation script: every team's remaining budget is recomputed as
    its budget minus what its sold players cost. The module also relates the
    recompute to the handlers that move money, showing which keep a reconciled
    ledger reconciled and which do not. */
module FixBudgets {
  import opened Tables
  import opened Database
  import Auction
  import Admin
  import Testgrounds

  /** What player `p` adds to `SUM(p.sold_price)` for team `teamId`: its price when
      it is sold to that team, nothing otherwise (SUM skips NULL). */
  function SoldPrice(p: Player, teamId: int): int
  {
    if p.teamId == Some(teamId) && p.status == Sold && p.soldPrice.Some? then p.soldPrice.value else 0
  }

  /** `COALESCE(SUM(p.sold_price), 0)` over the players sold to `teamId`. */
  function Spent(ps: seq<Player>, teamId: int): int
  {
    if ps == [] then 0 else SoldPrice(ps[0], teamId) + Spent(ps[1..], teamId)
  }

  /** Every team's remaining budget is its budget less what it spent. */
  predicate Reconciled(ts: seq<Team>, ps: seq<Player>)
  {
    forall i :: 0 <= i < |ts| ==> ts[i].remainingBudget == ts[i].budget - Spent(ps, ts[i].id)
  }

  /** The UPDATE of the script, applied to every team row. */
  function Recompute(ts: seq<Team>, ps: seq<Player>): (r: seq<Team>)
    ensures |r| == |ts|
    ensures Reconciled(r, ps)
    ensures forall i :: 0 <= i < |ts| ==> r[i].(remainingBudget := ts[i].remainingBudget) == ts[i]
  {
    seq(|ts|, i requires 0 <= i < |ts| => ts[i].(remainingBudget := ts[i].budget - Spent(ps, ts[i].id)))
  }

  /** fixBudgets: only remaining budgets change, and afterwards the ledger is
      reconciled. */
  method FixBudgets(l: Ledger)
    requires l.Valid()
    modifies l`teams
    ensures l.Valid()
    ensures l.teams == Recompute(old(l.teams), l.players)
    ensures Reconciled(l.teams, l.players)
  {
    var fixed := Recompute(l.teams, l.players);
    SameIdsKeepKeys(l.players, l.players, l.teams, fixed, l.nextPlayerId, l.nextTeamId);
    l.teams := fixed;
  }

  /** On a reconciled ledger the recompute changes nothing, so running it twice is
      running it once. */
  lemma RecomputeIdempotent(ts: seq<Team>, ps: seq<Player>)
    ensures Reconciled(ts, ps) ==> Recompute(ts, ps) == ts
    ensures Recompute(Recompute(ts, ps), ps) == Recompute(ts, ps)
  {
    var once := Recompute(ts, ps);
    assert forall i :: 0 <= i < |once| ==> Recompute(once, ps)[i] == once[i];
    if Reconciled(ts, ps) {
      assert forall i :: 0 <= i < |ts| ==> once[i] == ts[i];
    }
  }

  /** A team nobody was sold to spent nothing: COALESCE turns the empty sum into 0. */
  lemma {:induction false} NothingSoldSpendsNothing(ps: seq<Player>, teamId: int)
    requires forall i :: 0 <= i < |ps| ==> !(ps[i].teamId == Some(teamId) && ps[i].status == Sold)
    ensures Spent(ps, teamId) == 0
  {
    if ps != [] {
      NothingSoldSpendsNothing(ps[1..], teamId);
    }
  }

  /** So the recompute gives such a team its whole budget back. */
  lemma UnsoldTeamGetsFullBudget(ts: seq<Team>, ps: seq<Player>, i: nat)
    requires i < |ts|
    requires forall k :: 0 <= k < |ps| ==> !(ps[k].teamId == Some(ts[i].id) && ps[k].status == Sold)
    ensures Recompute(ts, ps)[i].remainingBudget == ts[i].budget
  {
    NothingSoldSpendsNothing(ps, ts[i].id);
  }

  /** Changing one player row changes the sum by the difference of its two
      contributions. */
  lemma {:induction false} SpentUpdate(ps: seq<Player>, i: nat, q: Player, teamId: int)
    requires i < |ps|
    ensures Spent(ps[i := q], teamId) == Spent(ps, teamId) - SoldPrice(ps[i], teamId) + SoldPrice(q, teamId)
  {
    if i > 0 {
      SpentUpdate(ps[1..], i - 1, q, teamId);
      assert ps[i := q][1..] == ps[1..][i - 1 := q];
    }
  }

  /** markPlayerSold keeps a reconciled ledger reconciled when the player exists and
      is not already sold: the running decrement of remaining_budget agrees with the
      recompute. */
  lemma SaleKeepsReconciled(ts: seq<Team>, ps: seq<Player>, i: nat, teamId: int, price: int)
    requires Reconciled(ts, ps) && UniqueKeys(ps, PlayerKey)
    requires i < |ps| && ps[i].status != Sold
    ensures Reconciled(Auction.ChargeTeam(ts, teamId, price), Auction.SellPlayer(ps, ps[i].id, teamId, price))
  {
    var q := ps[i].(status := Sold, teamId := Some(teamId), soldPrice := Some(price));
    var sold := Auction.SellPlayer(ps, ps[i].id, teamId, price);
    assert sold == ps[i := q] by {
      assert UniqueKeys(ps, PlayerKey);
    }
    var charged := Auction.ChargeTeam(ts, teamId, price);
    forall j | 0 <= j < |charged|
      ensures charged[j].remainingBudget == charged[j].budget - Spent(sold, charged[j].id)
    {
      SpentUpdate(ps, i, q, ts[j].id);
    }
  }

  /** markPlayerSold on an id no player has still charges the team, so a reconciled
      ledger stops being reconciled. */
  lemma SaleOfMissingPlayerBreaksReconciliation(ts: seq<Team>, ps: seq<Player>, id: int, j: nat, price: int)
    requires Reconciled(ts, ps)
    requires forall k :: 0 <= k < |ps| ==> ps[k].id != id
    requires j < |ts| && price != 0
    ensures Auction.SellPlayer(ps, id, ts[j].id, price) == ps
    ensures !Reconciled(Auction.ChargeTeam(ts, ts[j].id, price), Auction.SellPlayer(ps, id, ts[j].id, price))
  {
    var charged := Auction.ChargeTeam(ts, ts[j].id, price);
    assert charged[j].remainingBudget != charged[j].budget - Spent(ps, charged[j].id);
  }

  /** updateTeam keeps the ledger reconciled: it moves remaining_budget with the
      budget. */
  lemma UpdateTeamKeepsReconciled(ts: seq<Team>, ps: seq<Player>, i: nat,
                                  name: string, budget: Option<int>, logoUrl: Option<string>)
    requires Reconciled(ts, ps) && i < |ts|
    ensures Reconciled(ts[i := Admin.UpdateTeamRow(ts[i], name, budget, logoUrl)], ps)
  {
  }

  /** updateTestTeam does not: a new budget leaves remaining_budget behind. */
  lemma UpdateTestTeamBreaksReconciliation(ts: seq<Team>, ps: seq<Player>, i: nat, budget: int)
    requires Reconciled(ts, ps) && i < |ts| && budget != ts[i].budget
    ensures !Reconciled(ts[i := Testgrounds.UpdateTestTeamRow(ts[i], "", Some(budget), None)], ps)
  {
    var after := ts[i := Testgrounds.UpdateTestTeamRow(ts[i], "", Some(budget), None)];
    assert after[i].remainingBudget != after[i].budget - Spent(ps, after[i].id);
  }

  /** releasePlayer does not refund: releasing a paid-for player leaves the buyer's
      remaining budget below what the recompute gives. */
  lemma ReleaseBreaksReconciliation(ts: seq<Team>, ps: seq<Player>, i: nat, j: nat)
    requires Reconciled(ts, ps) && UniqueKeys(ps, PlayerKey)
    requires i < |ps| && j < |ts|
    requires ps[i].status == Sold && ps[i].teamId == Some(ts[j].id)
    requires ps[i].soldPrice.Some? && ps[i].soldPrice.value > 0
    ensures Recompute(ts, Admin.Release(ps, ps[i].id))[j].remainingBudget > ts[j].remainingBudget
  {
    var released := Admin.Release(ps, ps[i].id);
    assert released == ps[i := Admin.Unsell(ps[i])] by {
      assert UniqueKeys(ps, PlayerKey);
    }
    SpentUpdate(ps, i, Admin.Unsell(ps[i]), ts[j].id);
  }

  /** resetAllWallets refills wallets without unselling anyone, so a team that had
      spent something is no longer reconciled. */
  lemma ResetWalletsBreaksReconciliation(ts: seq<Team>, ps: seq<Player>, j: nat)
    requires j < |ts| && Spent(ps, ts[j].id) != 0
    ensures !Reconciled(Admin.ResetWallets(ts), ps)
  {
    var reset := Admin.ResetWallets(ts);
    assert reset[j].remainingBudget != reset[j].budget - Spent(ps, reset[j].id);
  }
}
