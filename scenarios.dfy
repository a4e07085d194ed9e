/** Worked sessions of the scoring engine: concrete sequences of deliveries
    recorded through the store, with the statistics the engine then shows. */
module Scenarios {
  import opened Common
  import opened Ledger
  import opened MatchStats
  import opened PlayerStats
  import opened Session

  /** The first-innings fixture every scenario plays in: hosts bat first. */
  function Fixture(): Match {
    Match(1, "Home", "Away", "Home", "bat", 10, 1)
  }

  const Striker: PlayerId := 1
  const NonStriker: PlayerId := 2
  const Bowler: PlayerId := 7

  /** A store holding the fixture with no deliveries and the three
      participants selected. */
  method NewSession() returns (s: Store)
    ensures fresh(s)
    ensures s.currentMatch == Some(Fixture()) && s.deliveries == [] && s.players == []
    ensures s.strikerId == Some(Striker) && s.nonStrikerId == Some(NonStriker) && s.bowlerId == Some(Bowler)
    ensures !s.isWide && !s.isNoBall && s.inputMode == "normal"
    ensures s.LegalBalls() == 0 && s.DistinctBatters() && s.LedgerOk()
  {
    s := new Store();
    s.currentMatch := Some(Fixture());
    s.strikerId, s.nonStrikerId, s.bowlerId := Some(Striker), Some(NonStriker), Some(Bowler);
  }

  /** The statistics depend on nothing but the match, the log and the roster:
      computing them twice gives the same result. */
  method RecomputeIsStable(m: Option<Match>, deliveries: seq<Delivery>, players: seq<Player>)
    returns (a: Stats, b: Stats)
    ensures a == b
  {
    a := ComputeStats(m, deliveries, players);
    b := ComputeStats(m, deliveries, players);
  }

  /** What the engine shows for an innings without deliveries. */
  lemma EmptyInningsShown()
    ensures InningDeliveries([], 1) == []
    ensures Total([]) == 0 && WicketCount([]) == 0 && LegalCount([]) == 0
    ensures ScoreString(Total([]), WicketCount([])) == "0/0" && OverString(LegalCount([])) == "0.0"
    ensures SinceLastWicket([]) == [] && RecentBalls([]) == [] && Fow([], []) == []
  {
  }

  /** Before the first ball: no score, no overs, the default run rate and no
      required rate. */
  method EmptyLedger() returns (s: Stats)
    ensures s.score == "0/0" && s.overs == "0.0"
    ensures s.crr == Default("0.00") && s.rrr.None?
    ensures s.fow == [] && s.recentBalls == [] && s.partnership == Partnership(0, 0)
  {
    EmptyInningsShown();
    s := ComputeStats(Some(Fixture()), [], []);
  }

  /** The sums over a log of one delivery are that delivery's contributions. */
  lemma OneDeliverySums(d: Delivery)
    ensures InningDeliveries([d], d.inning) == [d]
    ensures Total([d]) == TeamRuns(d) && WideSum([d]) == d.wide
    ensures LegalCount([d]) == LegalBall(d) && WicketCount([d]) == WicketBall(d)
    ensures RecentBalls([d]) == [RecentBall(d, Label(d))]
  {
    assert [d] == [] + [d];
    InningDeliveriesSnoc([], d, d.inning);
    SumOfSnoc([], d, TeamRuns);
    SumOfSnoc([], d, WideExtra);
    SumOfSnoc([], d, LegalBall);
    SumOfSnoc([], d, WicketBall);
    var r := RecentBalls([d]);
    assert |r| == 1 && r[0].delivery == d;
  }

  /** The log after the first delivery of a fresh session, of `runs` bat
      runs and called wide or not. */
  method FirstDelivery(runs: nat, wide: bool) returns (ds: seq<Delivery>)
    ensures |ds| == 1
    ensures var d := ds[0];
            && d.inning == 1 && d.striker == Some(Striker) && d.bowler == Some(Bowler)
            && d.runs == runs && d.wide == (if wide then 1 + runs else 0) && d.noBall == 0 && d.byes == 0
            && !d.isWicket && d.isLegal == !wide
  {
    var store := NewSession();
    store.isWide := wide;
    store.AddBall(runs, 1);
    ds := store.deliveries;
  }

  /** What the engine shows after a single legal four. */
  lemma BoundaryShown(d: Delivery)
    requires d.inning == 1 && d.runs == 4 && d.wide == 0 && d.noBall == 0 && d.byes == 0
    requires d.isLegal && !d.isWicket
    ensures InningDeliveries([d], 1) == [d]
    ensures ScoreString(Total([d]), WicketCount([d])) == "4/0" && OverString(LegalCount([d])) == "0.1"
    ensures RunRate(Total([d]), LegalCount([d])) == Exact(24.0)
    ensures RecentBalls([d]) == [RecentBall(d, "4")]
  {
    OneDeliverySums(d);
    assert Label(d) == "4";
    assert ScoreString(Total([d]), WicketCount([d])) == "4/0" by {
      assert ScoreString(4, 0) == "4/0";
    }
    assert OverString(LegalCount([d])) == "0.1" by {
      assert OverString(1) == "0.1";
    }
  }

  /** One legal four: four runs for no wicket after one ball, a run rate of
      24 an over. */
  method OneBoundary() returns (s: Stats)
    ensures s.score == "4/0" && s.overs == "0.1" && s.crr == Exact(24.0)
    ensures |s.recentBalls| == 1 && s.recentBalls[0].tag == "4"
  {
    var ds := FirstDelivery(4, false);
    var d := ds[0];
    assert ds == [d];
    BoundaryShown(d);
    s := ComputeStats(Some(Fixture()), [d], []);
    assert s.score == ScoreString(Total([d]), WicketCount([d])) && s.overs == OverString(LegalCount([d]));
    assert s.crr == RunRate(Total([d]), LegalCount([d]));
    assert s.recentBalls == [RecentBall(d, "4")];
  }

  /** A wide off which one run is taken is shown as "1wd". */
  lemma WideSingleLabel(d: Delivery)
    requires !d.isWicket && d.noBall == 0 && d.wide != 0 && d.runs == 1
    ensures Label(d) == "1wd"
  {
    assert NatToString(1) == "1";
  }

  /** The score and overs shown after a single wide off which one run is taken. */
  lemma WideTotals(d: Delivery)
    requires d.runs == 1 && d.wide == 2 && d.noBall == 0 && d.byes == 0
    requires !d.isLegal && !d.isWicket
    ensures Total([d]) == 3 && WideSum([d]) == 2 && LegalCount([d]) == 0
    ensures ScoreString(Total([d]), WicketCount([d])) == "3/0" && OverString(LegalCount([d])) == "0.0"
  {
    OneDeliverySums(d);
    assert ScoreString(3, 0) == "3/0" && OverString(0) == "0.0";
  }

  /** A wide off which the batters run one. The wide extra is 2 and the ball
      is not legal. The team total is 3, because the bat run is counted beside
      the extra, and the legal-ball count does not move. The striker is
      credited with neither a run nor a ball. */
  method WideWithOneRun() returns (ds: seq<Delivery>)
    ensures |ds| == 1 && ds[0].wide == 2 && !ds[0].isLegal
    ensures InningDeliveries(ds, 1) == ds
    ensures Total(ds) == 3 && WideSum(ds) == 2 && LegalCount(ds) == 0
    ensures ScoreString(Total(ds), WicketCount(ds)) == "3/0" && OverString(LegalCount(ds)) == "0.0"
    ensures RecentBalls(ds) == [RecentBall(ds[0], "1wd")]
    ensures GetPlayerStats(ds, Some(Striker), 1).runs == 0 && GetPlayerStats(ds, Some(Striker), 1).balls == 0
  {
    ds := FirstDelivery(1, true);
    var d := ds[0];
    assert ds == [d];
    OneDeliverySums(d);
    WideSingleLabel(d);
    WideTotals(d);
    assert [] + [d] == ds;
    BattingSnoc([], d, Striker, 1);
  }

  /** One legal single in the fixture: the batters cross, except on the ball
      that completes an over, which also clears the bowler. */
  method PlaySingle(store: Store, storedId: nat)
    requires store.currentMatch == Some(Fixture()) && !store.isWide && !store.isNoBall
    requires store.nonStrikerId.Some?
    modifies store
    ensures store.currentMatch == old(store.currentMatch) && !store.isWide && !store.isNoBall
    ensures store.LegalBalls() == old(store.LegalBalls()) + 1
    ensures store.LegalBalls() % 6 == 0 ==>
              store.strikerId == old(store.strikerId) && store.nonStrikerId == old(store.nonStrikerId)
              && store.bowlerId.None?
    ensures store.LegalBalls() % 6 != 0 ==>
              store.strikerId == old(store.nonStrikerId) && store.nonStrikerId == old(store.strikerId)
              && store.bowlerId == old(store.bowlerId)
  {
    store.AddBall(1, storedId);
  }

  /** A full over of six legal singles: the batters cross on each of the first
      five balls, and on the sixth the change of ends cancels the crossing, so
      the strike stays; the bowler must then be chosen again. */
  method OverOfSingles() returns (strikers: seq<Option<PlayerId>>, bowlerAfter: Option<PlayerId>)
    ensures strikers == [Some(NonStriker), Some(Striker), Some(NonStriker), Some(Striker), Some(NonStriker), Some(NonStriker)]
    ensures bowlerAfter.None?
  {
    var store := NewSession();
    strikers := [];
    var k := 0;
    while k < 5
      invariant 0 <= k <= 5
      invariant store.currentMatch == Some(Fixture()) && store.LegalBalls() == k
      invariant !store.isWide && !store.isNoBall
      invariant store.bowlerId == Some(Bowler)
      invariant |strikers| == k
      invariant forall j :: 0 <= j < k ==> strikers[j] == (if j % 2 == 0 then Some(NonStriker) else Some(Striker))
      invariant store.strikerId == (if k % 2 == 0 then Some(Striker) else Some(NonStriker))
      invariant store.nonStrikerId == (if k % 2 == 0 then Some(NonStriker) else Some(Striker))
    {
      PlaySingle(store, k + 1);
      strikers := strikers + [store.strikerId];
      k := k + 1;
    }
    // The over-completing sixth ball.
    PlaySingle(store, 6);
    strikers := strikers + [store.strikerId];
    bowlerAfter := store.bowlerId;
  }
}
