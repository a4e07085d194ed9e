/** The scoring session of `store.js`: the state the store holds and the one
    step that changes it, recording a delivery (`addBall`), together with the
    derivation of which team bats in each innings. */
module Session {
  import opened Common
  import opened Ledger
  import opened MatchStats

  /** The team that bats first: the toss winner when they chose to bat,
      otherwise the other side (the home team whenever the toss winner is not
      the home team). */
  function Inning1TeamName(m: Option<Match>): (r: Option<string>)
    ensures r.Some? <==> m.Some?
    ensures m.Some? && m.value.tossChoice == "bat" ==> r == Some(m.value.tossWinner)
    ensures m.Some? && m.value.tossChoice != "bat" ==>
              r.value != m.value.tossWinner || m.value.homeTeam == m.value.awayTeam
    ensures m.Some? && m.value.tossChoice != "bat" ==> r.value == m.value.homeTeam || r.value == m.value.awayTeam
  {
    if m.None? then None
    else if m.value.tossChoice == "bat" then Some(m.value.tossWinner)
    else if m.value.tossWinner == m.value.homeTeam then Some(m.value.awayTeam)
    else Some(m.value.homeTeam)
  }

  /** The team that bats second: whichever of home and away did not bat first. */
  function Inning2TeamName(m: Option<Match>): (r: Option<string>)
    ensures r.Some? <==> m.Some?
    ensures m.Some? ==> r.value == m.value.homeTeam || r.value == m.value.awayTeam
    ensures m.Some? && m.value.homeTeam != m.value.awayTeam ==> r != Inning1TeamName(m)
  {
    if m.None? then None
    else if Inning1TeamName(m) == Some(m.value.homeTeam) then Some(m.value.awayTeam)
    else Some(m.value.homeTeam)
  }

  /** When the toss winner is one of two distinct teams, each team bats in
      exactly one innings, and the toss winner bats first exactly when they
      chose to bat. */
  lemma InningsTeamsPartition(m: Match)
    requires m.homeTeam != m.awayTeam
    requires m.tossWinner == m.homeTeam || m.tossWinner == m.awayTeam
    ensures var first := Inning1TeamName(Some(m)).value;
            var second := Inning2TeamName(Some(m)).value;
            && {first, second} == {m.homeTeam, m.awayTeam}
            && first != second
            && (first == m.tossWinner <==> m.tossChoice == "bat")
  {
  }

  /** The strike-rotation rule: the batters cross on an odd number of bat runs,
      except on the ball that completes an over, where the change of ends
      reverses it so that they swap on an even number. */
  predicate SwapsStrike(runs: nat, isLegal: bool, legalBallsAfter: nat) {
    if isLegal && legalBallsAfter % 6 == 0 then runs % 2 == 0 else runs % 2 == 1
  }

  /** The session state the store keeps: the currentMatch, the delivery log, the
      players, the three selected participants, the input mode and the
      wide/no-ball toggles of the next delivery. */
  class Store {
    var currentMatch: Option<Match>
    var deliveries: seq<Delivery>
    var players: seq<Player>
    var strikerId: Option<PlayerId>
    var nonStrikerId: Option<PlayerId>
    var bowlerId: Option<PlayerId>
    var inputMode: string
    var isWide: bool
    var isNoBall: bool

    /** The legal balls of the innings the statistics describe. */
    function LegalBalls(): nat
      reads this
    {
      LegalCount(InningDeliveries(deliveries, CurInning(currentMatch)))
    }

    /** The striker and the non-striker are never the same player. */
    predicate DistinctBatters()
      reads this
    {
      strikerId.Some? && nonStrikerId.Some? ==> strikerId != nonStrikerId
    }

    predicate LedgerOk()
      reads this
    {
      LedgerWellFormed(deliveries)
    }

    constructor ()
      ensures currentMatch.None? && deliveries == [] && players == []
      ensures strikerId.None? && nonStrikerId.None? && bowlerId.None?
      ensures inputMode == "normal" && !isWide && !isNoBall
      ensures DistinctBatters() && LedgerOk()
    {
      currentMatch := None;
      deliveries := [];
      players := [];
      strikerId, nonStrikerId, bowlerId := None, None, None;
      inputMode := "normal";
      isWide, isNoBall := false, false;
    }

    /** Builds the record of the next delivery from the bat runs and the
        wide/no-ball toggles, appends it to the log, and writes the durable id
        `storedId` the store returned onto the record already in the log. */
    method AppendDelivery(runs: nat, wide: bool, noBall: bool, storedId: nat) returns (stored: Delivery)
      requires currentMatch.Some?
      modifies this`deliveries
      ensures deliveries == old(deliveries) + [stored]
      ensures stored.id == Some(storedId)
      ensures stored.matchId == currentMatch.value.id && stored.inning == currentMatch.value.currentInning
      ensures stored.over == old(LegalBalls()) / 6
      ensures stored.striker == strikerId && stored.nonStriker == nonStrikerId && stored.bowler == bowlerId
      ensures stored.runs == runs && stored.byes == 0
      ensures stored.wide == (if wide then 1 + runs else 0) && stored.noBall == (if noBall then 1 else 0)
      ensures !stored.isWicket && stored.wicketPlayer.None?
      ensures stored.isLegal == (!wide && !noBall) && WellFormed(stored)
    {
      var log := deliveries;
      // `stats.validBalls` before the delivery is recorded.
      var ballsBefore := LegalBalls();
      var delivery := Delivery(None, currentMatch.value.id, currentMatch.value.currentInning, ballsBefore / 6,
                               strikerId, nonStrikerId, bowlerId,
                               runs, if wide then 1 + runs else 0, if noBall then 1 else 0, 0,
                               false, None, !wide && !noBall);
      deliveries := deliveries + [delivery];
      stored := delivery.(id := Some(storedId));
      deliveries := deliveries[..|deliveries| - 1] + [stored];
      assert (log + [delivery])[..|log|] == log;
    }

    /** Applies the strike-rotation rule after a delivery of `runs` bat runs
        that left the innings with `ballsAfter` legal balls: the batters swap
        when the rule says so and there is a non-striker, and the bowler is
        cleared when a legal delivery completes the over. */
    method RotateStrike(runs: nat, wide: bool, noBall: bool, isLegal: bool, ballsAfter: nat)
      requires isLegal == (!wide && !noBall)
      modifies this`strikerId, this`nonStrikerId, this`bowlerId
      ensures var swap := old(nonStrikerId).Some? && SwapsStrike(runs, isLegal, ballsAfter);
        && (swap ==> strikerId == old(nonStrikerId) && nonStrikerId == old(strikerId))
        && (!swap ==> strikerId == old(strikerId) && nonStrikerId == old(nonStrikerId))
      ensures bowlerId == (if isLegal && ballsAfter % 6 == 0 then None else old(bowlerId))
      ensures old(DistinctBatters()) ==> DistinctBatters()
    {
      var rotate := runs % 2 != 0;
      if (wide || noBall) && runs % 2 != 0 {
        rotate := true;
      } else if isLegal && ballsAfter % 6 == 0 {
        rotate := !rotate;
        bowlerId := None;
      }
      if rotate && nonStrikerId.Some? {
        var temp := strikerId;
        strikerId := nonStrikerId;
        nonStrikerId := temp;
      }
    }

    /** Records one delivery of `runs` bat runs with the pending wide/no-ball
        toggles (`addBall`): appends it, rotates the strike, clears the bowler
        at the end of an over and resets the toggles. */
    method AddBall(runs: nat, storedId: nat)
      requires currentMatch.Some?
      modifies this
      ensures currentMatch == old(currentMatch) && players == old(players) && inputMode == old(inputMode)
      ensures |deliveries| == |old(deliveries)| + 1
      ensures deliveries[..|old(deliveries)|] == old(deliveries)
      ensures var d := deliveries[|old(deliveries)|];
        && d.id == Some(storedId)
        && d.matchId == currentMatch.value.id
        && d.inning == currentMatch.value.currentInning
        && d.over == old(LegalBalls()) / 6
        && d.striker == old(strikerId) && d.nonStriker == old(nonStrikerId) && d.bowler == old(bowlerId)
        && d.runs == runs
        && d.wide == (if old(isWide) then 1 + runs else 0)
        && d.noBall == (if old(isNoBall) then 1 else 0)
        && d.byes == 0
        && !d.isWicket && d.wicketPlayer.None?
        && d.isLegal == (!old(isWide) && !old(isNoBall))
        && WellFormed(d)
      ensures var legal := !old(isWide) && !old(isNoBall);
              var swap := old(nonStrikerId).Some? && SwapsStrike(runs, legal, LegalBalls());
        && (swap ==> strikerId == old(nonStrikerId) && nonStrikerId == old(strikerId))
        && (!swap ==> strikerId == old(strikerId) && nonStrikerId == old(nonStrikerId))
        && bowlerId == (if legal && LegalBalls() % 6 == 0 then None else old(bowlerId))
      ensures currentMatch.value.currentInning != 0 ==>
                LegalBalls() == old(LegalBalls()) + (if !old(isWide) && !old(isNoBall) then 1 else 0)
      ensures !isWide && !isNoBall
      ensures old(DistinctBatters()) ==> DistinctBatters()
      ensures old(LedgerOk()) ==> LedgerOk()
    {
      var wide := isWide;
      var noBall := isNoBall;
      var log := deliveries;
      var stored := AppendDelivery(runs, wide, noBall, storedId);
      assert deliveries[..|log|] == log;
      assert LedgerWellFormed(log) ==> LedgerWellFormed(deliveries) by {
        assert forall k :: 0 <= k < |log| ==> deliveries[k] == log[k];
      }
      LegalCountSnoc(log, stored, CurInning(currentMatch));
      // `stats.validBalls`, recomputed now that the delivery is in the log.
      var ballsAfter := LegalBalls();
      RotateStrike(runs, wide, noBall, stored.isLegal, ballsAfter);
      isWide := false;
      isNoBall := false;
    }
  }

  /** The three cases of the rotation rule: a wide or no-ball swaps the
      batters on odd runs; so does a legal ball inside the over; a legal ball
      that completes the over swaps them on even runs. */
  lemma SwapsStrikeCases(runs: nat, isLegal: bool, legalBallsAfter: nat)
    ensures !isLegal ==> (SwapsStrike(runs, isLegal, legalBallsAfter) <==> runs % 2 == 1)
    ensures isLegal && legalBallsAfter % 6 != 0 ==> (SwapsStrike(runs, isLegal, legalBallsAfter) <==> runs % 2 == 1)
    ensures isLegal && legalBallsAfter % 6 == 0 ==> (SwapsStrike(runs, isLegal, legalBallsAfter) <==> runs % 2 == 0)
  {
  }

  /** An over-completing delivery is the legal one bowled after five legal
      balls of the over: with odd runs the batters stay, with even runs they
      swap. */
  lemma OverCompletionParity(runs: nat, legalBallsBefore: nat)
    requires legalBallsBefore % 6 == 5
    ensures SwapsStrike(runs, true, legalBallsBefore + 1) <==> runs % 2 == 0
  {
  }
}
