/** Per-player figures of `store.js`: a batter's runs, balls faced, boundaries
    and strike rate, and a bowler's runs conceded, wickets, overs, economy and
    wides, each for one innings. */
module PlayerStats {
  import opened Common
  import opened Ledger
  import MatchStats

  datatype BattingStats = BattingStats(runs: nat, balls: nat, fours: nat, sixes: nat, sr: Rate)

  datatype BowlerStats = BowlerStats(
    figures: string,
    overs: string,
    maidens: nat,
    runs: nat,
    wickets: nat,
    econ: Rate,
    wides: nat)

  /** The balls player `id` faced in innings `inn`: deliveries with that striker
      that are not wides (a no-ball counts as a ball faced). */
  function Faced(id: PlayerId, inn: int): Delivery -> bool {
    (d: Delivery) => d.inning == inn && d.striker == Some(id) && d.wide == 0
  }

  function FacedBalls(ds: seq<Delivery>, id: PlayerId, inn: int): seq<Delivery> {
    Filter(ds, Faced(id, inn))
  }

  predicate IsFour(d: Delivery) { d.runs == 4 }
  predicate IsSix(d: Delivery) { d.runs == 6 }

  /** The strike rate: runs per hundred balls, "0.0" when no ball was faced. */
  function StrikeRate(runs: nat, balls: nat): (r: Rate)
    ensures balls == 0 ==> r == Default("0.0")
    ensures balls > 0 ==> r.Exact? && r.value * (balls as real) == 100.0 * (runs as real)
  {
    if balls > 0 then Exact((runs as real / balls as real) * 100.0) else Default("0.0")
  }

  /** A batter's figures for one innings; all zero when there is no player. */
  function GetPlayerStats(ds: seq<Delivery>, id: Option<PlayerId>, inn: int): (r: BattingStats)
    ensures id.None? ==> r == BattingStats(0, 0, 0, 0, Default("0.0"))
    ensures r.balls <= |ds| && r.sr == StrikeRate(r.runs, r.balls)
    ensures id.Some? ==> r.balls == |FacedBalls(ds, id.value, inn)|
    ensures id.Some? ==> r.runs == BatRunsSum(FacedBalls(ds, id.value, inn))
    ensures ds == [] ==> r == BattingStats(0, 0, 0, 0, Default("0.0"))
  {
    if id.None? then BattingStats(0, 0, 0, 0, Default("0.0"))
    else
      var balls := FacedBalls(ds, id.value, inn);
      var runs := BatRunsSum(balls);
      BattingStats(runs, |balls|, |Filter(balls, IsFour)|, |Filter(balls, IsSix)|,
                   StrikeRate(runs, |balls|))
  }

  /** Recording delivery `d` changes a batter's figures only when the batter
      faced it: one more ball, its bat runs added, a four or six counted. So a
      wide never changes them and a no-ball counts as a ball. */
  lemma BattingSnoc(ds: seq<Delivery>, d: Delivery, id: PlayerId, inn: int)
    ensures var before := GetPlayerStats(ds, Some(id), inn);
            var after := GetPlayerStats(ds + [d], Some(id), inn);
            var faced := d.inning == inn && d.striker == Some(id) && d.wide == 0;
            && after.balls == before.balls + (if faced then 1 else 0)
            && after.runs == before.runs + (if faced then d.runs else 0)
            && after.fours == before.fours + (if faced && d.runs == 4 then 1 else 0)
            && after.sixes == before.sixes + (if faced && d.runs == 6 then 1 else 0)
  {
    var balls := FacedBalls(ds, id, inn);
    FilterSnoc(ds, d, Faced(id, inn));
    if d.inning == inn && d.striker == Some(id) && d.wide == 0 {
      SumOfSnoc(balls, d, BatRuns);
      FilterSnoc(balls, d, IsFour);
      FilterSnoc(balls, d, IsSix);
    } else {
      assert FacedBalls(ds + [d], id, inn) == balls;
    }
  }

  /** Boundaries are among the balls faced and account for at most the runs scored. */
  lemma {:induction false} BoundaryBounds(balls: seq<Delivery>)
    ensures |Filter(balls, IsFour)| + |Filter(balls, IsSix)| <= |balls|
    ensures 4 * |Filter(balls, IsFour)| + 6 * |Filter(balls, IsSix)| <= BatRunsSum(balls)
    decreases |balls|
  {
    if balls != [] {
      BoundaryBounds(balls[..|balls| - 1]);
    }
  }

  /** The figures of a batter are consistent: boundaries are among the balls
      faced, account for at most the runs, and the strike rate is "0.0" exactly
      when no ball was faced. */
  lemma BattingConsistent(ds: seq<Delivery>, id: Option<PlayerId>, inn: int)
    ensures var s := GetPlayerStats(ds, id, inn);
            && s.fours + s.sixes <= s.balls
            && 4 * s.fours + 6 * s.sixes <= s.runs
            && (s.sr == Default("0.0") <==> s.balls == 0)
  {
    var s := GetPlayerStats(ds, id, inn);
    if id.Some? {
      var balls := FacedBalls(ds, id.value, inn);
      BoundaryBounds(balls);
      assert s.balls == |balls| && s.sr == StrikeRate(s.runs, |balls|);
    }
  }

  /** The deliveries player `id` bowled in innings `inn`. */
  function Bowled(id: PlayerId, inn: int): Delivery -> bool {
    (d: Delivery) => d.inning == inn && d.bowler == Some(id)
  }

  function BowledBalls(ds: seq<Delivery>, id: PlayerId, inn: int): seq<Delivery> {
    Filter(ds, Bowled(id, inn))
  }

  /** What a delivery costs its bowler: bat runs, wide and no-ball extras, but not byes. */
  function Conceded(d: Delivery): nat { d.runs + d.wide + d.noBall }

  /** The economy rate: runs per over, the overs counted as whole overs plus
      the sixths of the current one; "0.00" before any legal ball. */
  function Economy(runs: nat, legalBalls: nat): (r: Rate)
    ensures legalBalls == 0 ==> r == Default("0.00")
    ensures legalBalls > 0 ==> r.Exact? && r.value * (legalBalls as real) == 6.0 * (runs as real)
  {
    var od := (legalBalls / 6) as real + ((legalBalls % 6) as real) / 6.0;
    assert od * 6.0 == legalBalls as real;
    if od > 0.0 then Exact(runs as real / od) else Default("0.00")
  }

  /** A bowler's figures for one innings, accumulated in one pass over the
      deliveries that bowler bowled; fixed defaults when there is no player. */
  method GetBowlerStats(ds: seq<Delivery>, id: Option<PlayerId>, inn: int) returns (r: BowlerStats)
    ensures id.None? ==> r == BowlerStats("0-0 (0.0)", "0.0", 0, 0, 0, Default("0.00"), 0)
    ensures id.Some? ==>
      var balls := BowledBalls(ds, id.value, inn);
      && r.runs == SumOf(balls, Conceded)
      && r.wickets == WicketCount(balls)
      && r.wides == WideSum(balls)
      && r.overs == MatchStats.OverString(LegalCount(balls))
      && r.figures == JoinNumbers(r.wickets, '-', r.runs)
      && r.econ == Economy(r.runs, LegalCount(balls))
      && r.maidens == 0
  {
    if id.None? {
      return BowlerStats("0-0 (0.0)", "0.0", 0, 0, 0, Default("0.00"), 0);
    }
    var balls := BowledBalls(ds, id.value, inn);
    var runs, wkts, legal, wides := 0, 0, 0, 0;
    var i := 0;
    while i < |balls|
      invariant 0 <= i <= |balls|
      invariant runs == SumOf(balls[..i], Conceded) && wkts == WicketCount(balls[..i])
      invariant legal == LegalCount(balls[..i]) && wides == WideSum(balls[..i])
    {
      var d := balls[i];
      assert balls[..i + 1][..i] == balls[..i];
      runs := runs + d.runs + d.wide + d.noBall;
      if d.isWicket {
        wkts := wkts + 1;
      }
      if d.isLegal {
        legal := legal + 1;
      }
      wides := wides + d.wide;
      i := i + 1;
    }
    assert balls[..i] == balls;
    var ov := MatchStats.OverString(legal);
    r := BowlerStats(JoinNumbers(wkts, '-', runs), ov, 0, runs, wkts, Economy(runs, legal), wides);
  }

  /** A bowler is charged everything the team scored off the bowling except byes. */
  lemma ConcededExcludesByes(balls: seq<Delivery>)
    ensures SumOf(balls, Conceded) + ByesSum(balls) == Total(balls)
  {
    SumOfAdd(balls, Conceded, ByesExtra, TeamRuns);
  }

  /** The bowler's `wides` adds up the wide extras, each of which is 1 plus the
      bat runs of that wide, so it is at least the number of wides bowled. */
  lemma {:induction false} WidesSumAtLeastCount(balls: seq<Delivery>)
    requires forall i :: 0 <= i < |balls| ==> balls[i].wide == 0 || balls[i].wide == 1 + balls[i].runs
    ensures WideSum(balls) == |Filter(balls, IsWide)| + BatRunsSum(Filter(balls, IsWide))
    ensures WideSum(balls) >= |Filter(balls, IsWide)|
    decreases |balls|
  {
    if balls != [] {
      var init := balls[..|balls| - 1];
      WidesSumAtLeastCount(init);
      var last := balls[|balls| - 1];
      assert init + [last] == balls;
      FilterSnoc(init, last, IsWide);
      assert WideSum(balls) == WideSum(init) + last.wide;
      if IsWide(last) {
        SumOfSnoc(Filter(init, IsWide), last, BatRuns);
        assert Filter(balls, IsWide) == Filter(init, IsWide) + [last];
        assert last.wide == 1 + last.runs;
      } else {
        assert Filter(balls, IsWide) == Filter(init, IsWide);
      }
    }
  }

  predicate IsWide(d: Delivery) { d.wide != 0 }
}
