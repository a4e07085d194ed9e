/** The logic of the user-interface components of `components.js`: the card
    highlighting of `PlayerCard`, the scorecard of `ScorecardView`, and the
    participant-selection state machine and scoring guard of `App`. */
module Components {
  import opened Common
  import opened Ledger
  import opened MatchStats
  import opened PlayerStats
  import opened Session

  // ---------------------------------------------------------------------
  // PlayerCard.cardClasses (components.js:27-34)

  /** The strings of `parts` separated by `sep` (`Array.join`). */
  function Join(parts: seq<string>, sep: string): string {
    if parts == [] then ""
    else if |parts| == 1 then parts[0]
    else Join(parts[..|parts| - 1], sep) + sep + parts[|parts| - 1]
  }

  const StrikerClass := "card-active-striker"
  const NonStrikerClass := "card-active-nonstriker"
  const BowlerClass := "card-active-bowler"
  const OutClass := "opacity-50 grayscale"

  /** The CSS classes of a player card: at most one highlight, the striker's
      taking precedence over the non-striker's, which takes precedence over
      the active bowler's; the greyed-out class is added independently, last,
      when the player is out. */
  method CardClasses(isStriker: bool, isNonStriker: bool, variant: string, isActive: bool, isOut: bool)
    returns (classes: seq<string>, text: string)
    ensures (StrikerClass in classes) <==> isStriker
    ensures (NonStrikerClass in classes) <==> !isStriker && isNonStriker
    ensures (BowlerClass in classes) <==> !isStriker && !isNonStriker && variant == "bowler" && isActive
    ensures (OutClass in classes) <==> isOut
    ensures var highlighted := isStriker || isNonStriker || (variant == "bowler" && isActive);
            |classes| == (if highlighted then 1 else 0) + (if isOut then 1 else 0)
    ensures isOut ==> classes[|classes| - 1] == OutClass
    ensures text == Join(classes, " ")
    ensures text == "" <==> classes == []
  {
    classes := [];
    if isStriker {
      classes := classes + [StrikerClass];
    } else if isNonStriker {
      classes := classes + [NonStrikerClass];
    } else if variant == "bowler" && isActive {
      classes := classes + [BowlerClass];
    }
    if isOut {
      classes := classes + [OutClass];
    }
    text := Join(classes, " ");
    if |classes| == 2 {
      assert classes[..1] == [classes[0]];
    }
  }

  // ---------------------------------------------------------------------
  // ScorecardView.data (components.js:49-61)

  datatype BattingRow = BattingRow(player: Player, stats: BattingStats, status: string, dismissalText: string)

  datatype Scorecard = Scorecard(
    teamName: Option<string>,
    batting: seq<BattingRow>,
    total: nat,
    overs: nat,
    extras: Extras,
    fow: seq<FowEntry>)

  /** The players of team `tm`, in roster order; none when there is no team. */
  function TeamPlayers(players: seq<Player>, tm: Option<string>): (r: seq<Player>)
    ensures |r| <= |players|
    ensures forall p :: p in r <==> p in players && Some(p.team) == tm
  {
    if players == [] then []
    else
      var last := players[|players| - 1];
      assert players == players[..|players| - 1] + [last];
      TeamPlayers(players[..|players| - 1], tm) + (if Some(last.team) == tm then [last] else [])
  }

  /** `team` is taken from `players` in roster order, with repeats kept:
      entry k of the team is the roster entry at position `idx[k]`, the
      positions strictly increase, and every roster position holding a player
      of team `tm` is among them. */
  predicate RosterOrder(team: seq<Player>, players: seq<Player>, tm: Option<string>, idx: seq<nat>) {
    && |idx| == |team|
    && (forall k :: 0 <= k < |idx| ==> idx[k] < |players| && team[k] == players[idx[k]])
    && (forall k, l :: 0 <= k < l < |idx| ==> idx[k] < idx[l])
    && (forall i :: 0 <= i < |players| && Some(players[i].team) == tm ==> i in idx)
  }

  lemma RosterOrderSnoc(team: seq<Player>, players: seq<Player>, tm: Option<string>, idx: seq<nat>, p: Player)
    requires RosterOrder(team, players, tm, idx)
    ensures Some(p.team) == tm ==> RosterOrder(team + [p], players + [p], tm, idx + [|players|])
    ensures Some(p.team) != tm ==> RosterOrder(team, players + [p], tm, idx)
  {
    var all := players + [p];
    assert forall i :: 0 <= i < |players| ==> all[i] == players[i];
  }

  /** The team is the roster's players of that team, in roster order. */
  lemma {:induction false} TeamPlayersInRosterOrder(players: seq<Player>, tm: Option<string>) returns (idx: seq<nat>)
    ensures RosterOrder(TeamPlayers(players, tm), players, tm, idx)
    decreases |players|
  {
    if players == [] {
      idx := [];
    } else {
      var n := |players| - 1;
      var init, last := players[..n], players[n];
      var prev := TeamPlayersInRosterOrder(init, tm);
      assert players == init + [last];
      RosterOrderSnoc(TeamPlayers(init, tm), init, tm, prev, last);
      idx := if Some(last.team) == tm then prev + [n] else prev;
    }
  }

  /** Whether some delivery of innings `inn` is a wicket naming player `id` (`Array.some`). */
  function AnyDismisses(ds: seq<Delivery>, id: PlayerId, inn: int): (r: bool)
    ensures r <==> exists i :: 0 <= i < |ds| && ds[i].inning == inn && ds[i].isWicket && ds[i].wicketPlayer == Some(id)
  {
    if ds == [] then false
    else
      var d := ds[0];
      assert forall i :: 1 <= i < |ds| ==> ds[i] == ds[1..][i - 1];
      if d.inning == inn && d.isWicket && d.wicketPlayer == Some(id) then true
      else
        var rest := AnyDismisses(ds[1..], id, inn);
        if rest then
          var i :| 0 <= i < |ds[1..]| && ds[1..][i].inning == inn && ds[1..][i].isWicket && ds[1..][i].wicketPlayer == Some(id);
          assert ds[i + 1] == ds[1..][i];
          rest
        else rest
  }

  /** The scorecard row of one player: the batting figures of the innings, and
      the status "out" when a wicket of that innings names the player,
      otherwise "batting" once the player has faced a ball, otherwise empty. */
  function Row(p: Player, ds: seq<Delivery>, inn: int): (row: BattingRow)
    ensures row.player == p && row.stats == GetPlayerStats(ds, Some(p.id), inn)
    ensures row.status == "out" <==> AnyDismisses(ds, p.id, inn)
    ensures row.status == "batting" <==> !AnyDismisses(ds, p.id, inn) && row.stats.balls > 0
    ensures row.status == "" <==> !AnyDismisses(ds, p.id, inn) && row.stats.balls == 0
    ensures row.dismissalText == (if row.status == "out" then "out" else "not out")
  {
    var s := GetPlayerStats(ds, Some(p.id), inn);
    var isOut := AnyDismisses(ds, p.id, inn);
    BattingRow(p, s, if isOut then "out" else if s.balls > 0 then "batting" else "", if isOut then "out" else "not out")
  }

  /** One row per player of the team, in roster order. */
  function Rows(tmPlayers: seq<Player>, ds: seq<Delivery>, inn: int): (rows: seq<BattingRow>)
    ensures |rows| == |tmPlayers|
    ensures forall i :: 0 <= i < |rows| ==> rows[i] == Row(tmPlayers[i], ds, inn)
  {
    if tmPlayers == [] then []
    else [Row(tmPlayers[0], ds, inn)] + Rows(tmPlayers[1..], ds, inn)
  }

  /** The scorecard of innings `inn`: absent exactly when that innings has no
      deliveries and is not the first; otherwise the batting side of the
      innings, its total (bat runs plus every extra, summed in one pass), its
      completed overs, and the rows of that side's players. The scorecard
      reports its extras as zero and its fall of wickets as empty. */
  method ScorecardData(m: Option<Match>, players: seq<Player>, deliveries: seq<Delivery>, inn: int)
    returns (r: Option<Scorecard>)
    ensures var dList := InningDeliveries(deliveries, inn);
            r.None? <==> |dList| == 0 && inn != 1
    ensures r.Some? ==>
      var dList := InningDeliveries(deliveries, inn);
      var tm := if inn == 1 then Inning1TeamName(m) else Inning2TeamName(m);
      && r.value.teamName == tm
      && r.value.total == Total(dList)
      && r.value.overs == LegalCount(dList) / 6
      && r.value.batting == Rows(TeamPlayers(players, tm), deliveries, inn)
      && r.value.extras == Extras(0, 0, 0, 0)
      && r.value.fow == []
  {
    var dList := InningDeliveries(deliveries, inn);
    if |dList| == 0 && inn != 1 {
      return None;
    }
    var tm := if inn == 1 then Inning1TeamName(m) else Inning2TeamName(m);
    var batting := Rows(TeamPlayers(players, tm), deliveries, inn);
    var runs := 0;
    var i := 0;
    while i < |dList|
      invariant 0 <= i <= |dList|
      invariant runs == Total(dList[..i])
    {
      var d := dList[i];
      assert dList[..i + 1][..i] == dList[..i];
      runs := runs + d.runs + d.wide + d.noBall + d.byes;
      i := i + 1;
    }
    assert dList[..i] == dList;
    LegalCountIsLegalDeliveries(dList);
    r := Some(Scorecard(tm, batting, runs, |Filter(dList, IsLegal)| / 6, Extras(0, 0, 0, 0), []));
  }

  /** The scorecard of the innings in play shows the same total as the live
      score, and its overs are the completed overs of the live legal-ball count. */
  method ScorecardAgreesWithLiveScore(m: Match, players: seq<Player>, deliveries: seq<Delivery>)
    returns (card: Option<Scorecard>, live: Stats)
    requires m.currentInning != 0
    ensures card.Some? <==> m.currentInning == 1 || |InningDeliveries(deliveries, m.currentInning)| > 0
    ensures card.Some? ==> card.value.total == live.totalRuns && card.value.overs == live.validBalls / 6
  {
    card := ScorecardData(Some(m), players, deliveries, m.currentInning);
    live := ComputeStats(Some(m), deliveries, players);
    var dList := InningDeliveries(deliveries, m.currentInning);
    if dList == [] {
      assert Total(dList) == 0 && LegalCount(dList) == 0;
    }
  }

  // ---------------------------------------------------------------------
  // App: participant selection and scoring (components.js:82-96, 145-146)

  /** The three participant slots the store holds. */
  datatype Slots = Slots(striker: Option<PlayerId>, nonStriker: Option<PlayerId>, bowler: Option<PlayerId>)

  predicate DistinctSlots(sl: Slots) {
    sl.striker.Some? && sl.nonStriker.Some? ==> sl.striker != sl.nonStriker
  }

  function SlotsOf(s: Store): Slots
    reads s
  {
    Slots(s.strikerId, s.nonStrikerId, s.bowlerId)
  }

  /** The slots after player `id` is picked for `role` (`selectPlayer`): a
      batter fills the striker slot if it is empty and the player is not the
      non-striker, else the non-striker slot if it is empty and the player is
      not the striker; any other role fills an empty bowler slot. */
  function Selected(sl: Slots, id: PlayerId, role: string): (r: Slots)
    // a slot that holds a player keeps it
    ensures sl.striker.Some? ==> r.striker == sl.striker
    ensures sl.nonStriker.Some? ==> r.nonStriker == sl.nonStriker
    ensures sl.bowler.Some? ==> r.bowler == sl.bowler
    // batters and bowler are picked independently
    ensures role == "bat" ==> r.bowler == sl.bowler
    ensures role != "bat" ==> r.striker == sl.striker && r.nonStriker == sl.nonStriker
    // the striker slot is tried first
    ensures role == "bat" && sl.striker.None? && Some(id) != sl.nonStriker ==> r.striker == Some(id)
    // a change happens exactly when some slot can take the player
    ensures r != sl <==>
      if role == "bat" then
        (sl.striker.None? && Some(id) != sl.nonStriker) || (sl.nonStriker.None? && Some(id) != sl.striker)
      else sl.bowler.None?
    ensures r != sl ==> r.striker == Some(id) || r.nonStriker == Some(id) || r.bowler == Some(id)
    // a slot that changes takes the picked player
    ensures r.striker != sl.striker ==> r.striker == Some(id)
    ensures r.nonStriker != sl.nonStriker ==> r.nonStriker == Some(id)
    ensures r.bowler != sl.bowler ==> r.bowler == Some(id)
    // at most one slot changes
    ensures || (r.striker == sl.striker && r.nonStriker == sl.nonStriker)
            || (r.striker == sl.striker && r.bowler == sl.bowler)
            || (r.nonStriker == sl.nonStriker && r.bowler == sl.bowler)
    // the same player is never both batters
    ensures DistinctSlots(sl) ==> DistinctSlots(r)
  {
    if role == "bat" then
      if sl.striker.None? && Some(id) != sl.nonStriker then sl.(striker := Some(id))
      else if sl.nonStriker.None? && Some(id) != sl.striker then sl.(nonStriker := Some(id))
      else sl
    else if sl.bowler.None? then sl.(bowler := Some(id))
    else sl
  }

  /** Picking a player from a roster card. */
  method SelectPlayer(s: Store, p: Player, role: string)
    modifies s`strikerId, s`nonStrikerId, s`bowlerId
    ensures SlotsOf(s) == Selected(old(SlotsOf(s)), p.id, role)
  {
    if role == "bat" {
      if s.strikerId.None? && Some(p.id) != s.nonStrikerId {
        s.strikerId := Some(p.id);
      } else if s.nonStrikerId.None? && Some(p.id) != s.strikerId {
        s.nonStrikerId := Some(p.id);
      }
    } else {
      if s.bowlerId.None? {
        s.bowlerId := Some(p.id);
      }
    }
  }

  /** The slots after the card `slot` of the summary is clicked with the
      console in `mode` (`handleCardClick`): outside the normal mode nothing
      changes; otherwise the named slot is emptied. */
  function Cleared(sl: Slots, mode: string, slot: string): (r: Slots)
    ensures mode != "normal" ==> r == sl
    ensures slot != "striker" && slot != "nonStriker" && slot != "bowler" ==> r == sl
    // only the named slot can change, and only to empty
    ensures r.striker == sl.striker || (mode == "normal" && slot == "striker" && r.striker.None?)
    ensures r.nonStriker == sl.nonStriker || (mode == "normal" && slot == "nonStriker" && r.nonStriker.None?)
    ensures r.bowler == sl.bowler || (mode == "normal" && slot == "bowler" && r.bowler.None?)
    // and in the normal mode it is emptied
    ensures mode == "normal" && slot == "striker" ==> r.striker.None?
    ensures mode == "normal" && slot == "nonStriker" ==> r.nonStriker.None?
    ensures mode == "normal" && slot == "bowler" ==> r.bowler.None?
    ensures DistinctSlots(sl) ==> DistinctSlots(r)
  {
    if mode != "normal" then sl
    else if slot == "striker" then sl.(striker := None)
    else if slot == "nonStriker" then sl.(nonStriker := None)
    else if slot == "bowler" then sl.(bowler := None)
    else sl
  }

  /** Clicking a participant card of the summary. */
  method HandleCardClick(s: Store, slot: string)
    modifies s`strikerId, s`nonStrikerId, s`bowlerId
    ensures SlotsOf(s) == Cleared(old(SlotsOf(s)), s.inputMode, slot)
  {
    if s.inputMode != "normal" {
      return;
    }
    if slot == "striker" {
      s.strikerId := None;
    } else if slot == "nonStriker" {
      s.nonStrikerId := None;
    } else if slot == "bowler" {
      s.bowlerId := None;
    }
  }

  /** The scoring pad is enabled when the striker, the non-striker and the
      bowler are all players of the roster. */
  predicate CanScore(s: Store)
    reads s
    ensures CanScore(s) <==>
              && (exists i :: 0 <= i < |s.players| && Some(s.players[i].id) == s.strikerId)
              && (exists i :: 0 <= i < |s.players| && Some(s.players[i].id) == s.nonStrikerId)
              && (exists i :: 0 <= i < |s.players| && Some(s.players[i].id) == s.bowlerId)
    ensures CanScore(s) ==> s.strikerId.Some? && s.nonStrikerId.Some? && s.bowlerId.Some?
  {
    && FindPlayer(s.players, s.strikerId).Some?
    && FindPlayer(s.players, s.nonStrikerId).Some?
    && FindPlayer(s.players, s.bowlerId).Some?
  }

  /** Pressing a run button of the enabled pad while a match is shown: the
      delivery is recorded with all three participants present and on the
      roster. */
  method Score(s: Store, runs: nat, storedId: nat)
    requires s.currentMatch.Some? && CanScore(s)
    modifies s
    ensures s.currentMatch == old(s.currentMatch) && s.players == old(s.players) && s.inputMode == old(s.inputMode)
    ensures |s.deliveries| == |old(s.deliveries)| + 1
    ensures s.deliveries[..|old(s.deliveries)|] == old(s.deliveries)
    ensures var d := s.deliveries[|old(s.deliveries)|];
            && d.id == Some(storedId)
            && d.matchId == s.currentMatch.value.id && d.inning == s.currentMatch.value.currentInning
            && d.over == old(s.LegalBalls()) / 6
            && d.striker == old(s.strikerId) && d.nonStriker == old(s.nonStrikerId) && d.bowler == old(s.bowlerId)
            && d.runs == runs && d.byes == 0
            && d.wide == (if old(s.isWide) then 1 + runs else 0)
            && d.noBall == (if old(s.isNoBall) then 1 else 0)
            && !d.isWicket && d.wicketPlayer.None?
            && d.isLegal == (!old(s.isWide) && !old(s.isNoBall))
    ensures var d := s.deliveries[|old(s.deliveries)|];
            && d.striker.Some? && d.nonStriker.Some? && d.bowler.Some?
            && (exists i :: 0 <= i < |s.players| && Some(s.players[i].id) == d.striker)
            && (exists i :: 0 <= i < |s.players| && Some(s.players[i].id) == d.nonStriker)
            && (exists i :: 0 <= i < |s.players| && Some(s.players[i].id) == d.bowler)
    ensures var legal := !old(s.isWide) && !old(s.isNoBall);
            var swap := SwapsStrike(runs, legal, s.LegalBalls());
            && (swap ==> s.strikerId == old(s.nonStrikerId) && s.nonStrikerId == old(s.strikerId))
            && (!swap ==> s.strikerId == old(s.strikerId) && s.nonStrikerId == old(s.nonStrikerId))
            && s.bowlerId == (if legal && s.LegalBalls() % 6 == 0 then None else old(s.bowlerId))
    ensures s.currentMatch.value.currentInning != 0 ==>
              s.LegalBalls() == old(s.LegalBalls()) + (if !old(s.isWide) && !old(s.isNoBall) then 1 else 0)
    ensures !s.isWide && !s.isNoBall
    ensures old(s.DistinctBatters()) ==> s.DistinctBatters()
    ensures old(s.LedgerOk()) ==> s.LedgerOk()
  {
    s.AddBall(runs, storedId);
  }
}
