/** The match statistics that `store.js` derives from the delivery log on every
    read: score, overs, extras, fall of wickets, the current partnership, the
    last six balls and the run rates. */
module MatchStats {
  import opened Common
  import opened Ledger

  datatype Extras = Extras(wide: nat, noBall: nat, byes: nat, total: nat)

  /** One fall of wicket: the team score and the wicket number at that ball,
      the dismissed player's name when the player is known, and the overs. */
  datatype FowEntry = FowEntry(score: nat, wicket: nat, name: Option<string>, over: string)

  /** A delivery of the recent-ball strip together with its label. */
  datatype RecentBall = RecentBall(delivery: Delivery, tag: string)

  datatype Partnership = Partnership(runs: nat, balls: nat)

  datatype Stats = Stats(
    score: string,
    overs: string,
    crr: Rate,
    rrr: Option<real>,
    validBalls: nat,
    wickets: nat,
    totalRuns: nat,
    recentBalls: seq<RecentBall>,
    partnership: Partnership,
    extras: Extras,
    fow: seq<FowEntry>)

  /** The innings the statistics describe: the match's current innings, or the
      first when there is no match or its innings number is unset (zero). */
  function CurInning(m: Option<Match>): (inn: int)
    ensures inn != 0
    ensures m.None? ==> inn == 1
    ensures m.Some? ==> inn == (if m.value.currentInning == 0 then 1 else m.value.currentInning)
  {
    if m.Some? && m.value.currentInning != 0 then m.value.currentInning else 1
  }

  /** `runs/wickets`. */
  function ScoreString(runs: nat, wickets: nat): string {
    JoinNumbers(runs, '/', wickets)
  }

  /** `overs.balls` for a count of legal balls. */
  function OverString(legalBalls: nat): string {
    JoinNumbers(legalBalls / 6, '.', legalBalls % 6)
  }

  /** The score text determines the total and the wickets. */
  lemma ScoreStringInjective(r: nat, w: nat, r': nat, w': nat)
    requires ScoreString(r, w) == ScoreString(r', w')
    ensures r == r' && w == w'
  {
    JoinNumbersInjective(r, w, r', w', '/');
  }

  /** The overs text determines the number of legal balls. */
  lemma OverStringInjective(v: nat, v': nat)
    requires OverString(v) == OverString(v')
    ensures v == v'
  {
    JoinNumbersInjective(v / 6, v % 6, v' / 6, v' % 6, '.');
  }

  /** The name of a player looked up with `find`, absent when none was found (`p?.name`). */
  function NameOf(p: Option<Player>): Option<string> {
    if p.Some? then Some(p.value.name) else None
  }

  /** The fall-of-wicket entry recorded at delivery `i`: the totals are those
      of the log up to and including that delivery. */
  function FowEntryAt(ds: seq<Delivery>, players: seq<Player>, i: nat): FowEntry
    requires i < |ds|
  {
    var upTo := ds[..i + 1];
    FowEntry(Total(upTo), WicketCount(upTo), NameOf(FindPlayer(players, ds[i].wicketPlayer)),
             OverString(LegalCount(upTo)))
  }

  /** The fall-of-wicket list: one entry per wicket delivery, in log order. */
  function Fow(ds: seq<Delivery>, players: seq<Player>): seq<FowEntry> {
    if ds == [] then []
    else
      Fow(ds[..|ds| - 1], players)
      + (if ds[|ds| - 1].isWicket then [FowEntryAt(ds, players, |ds| - 1)] else [])
  }

  /** There are as many entries as wickets; the wickets are numbered 1, 2, …;
      no entry's score exceeds the total and the scores never decrease. */
  lemma {:induction false} FowShape(ds: seq<Delivery>, players: seq<Player>)
    ensures |Fow(ds, players)| == WicketCount(ds)
    ensures forall k :: 0 <= k < |Fow(ds, players)| ==>
              Fow(ds, players)[k].wicket == k + 1 && Fow(ds, players)[k].score <= Total(ds)
    ensures forall j, k :: 0 <= j < k < |Fow(ds, players)| ==>
              Fow(ds, players)[j].score <= Fow(ds, players)[k].score
    decreases |ds|
  {
    if ds != [] {
      var init := ds[..|ds| - 1];
      FowShape(init, players);
      assert init + [ds[|ds| - 1]] == ds;
      assert ds[..|ds|] == ds;
    }
  }

  /** Entry `e` was recorded at some wicket delivery of `ds`. */
  ghost predicate RecordedAtWicket(ds: seq<Delivery>, players: seq<Player>, e: FowEntry) {
    exists i :: 0 <= i < |ds| && ds[i].isWicket && e == FowEntryAt(ds, players, i)
  }

  /** Every entry was recorded at a wicket delivery of the log. */
  lemma {:induction false} FowEntriesAreWickets(ds: seq<Delivery>, players: seq<Player>)
    ensures forall k :: 0 <= k < |Fow(ds, players)| ==> RecordedAtWicket(ds, players, Fow(ds, players)[k])
    decreases |ds|
  {
    if ds != [] {
      var init := ds[..|ds| - 1];
      FowEntriesAreWickets(init, players);
      var f := Fow(ds, players);
      forall k | 0 <= k < |f|
        ensures RecordedAtWicket(ds, players, f[k])
      {
        if k < |Fow(init, players)| {
          assert RecordedAtWicket(init, players, Fow(init, players)[k]);
          var i :| 0 <= i < |init| && init[i].isWicket && Fow(init, players)[k] == FowEntryAt(init, players, i);
          assert init[..i + 1] == ds[..i + 1];
          assert f[k] == FowEntryAt(ds, players, i);
        } else {
          assert f[k] == FowEntryAt(ds, players, |ds| - 1);
        }
      }
    }
  }

  /** The deliveries since the most recent wicket, which is itself excluded;
      the whole log when there has been no wicket. */
  function SinceLastWicket(ds: seq<Delivery>): (r: seq<Delivery>)
    ensures |r| <= |ds| && r == ds[|ds| - |r|..]
    ensures forall k :: 0 <= k < |r| ==> !r[k].isWicket
    ensures |r| < |ds| ==> ds[|ds| - |r| - 1].isWicket
  {
    if ds == [] then []
    else if ds[|ds| - 1].isWicket then []
    else SinceLastWicket(ds[..|ds| - 1]) + [ds[|ds| - 1]]
  }

  /** A wicket-free tail that starts at the log's start or right after a
      wicket is exactly the span since the last wicket. */
  lemma SinceLastWicketAt(ds: seq<Delivery>, j: nat)
    requires j <= |ds|
    requires forall k :: j <= k < |ds| ==> !ds[k].isWicket
    requires j == 0 || ds[j - 1].isWicket
    ensures SinceLastWicket(ds) == ds[j..]
  {
  }

  /** The partnership never exceeds the innings: its runs are at most the total
      and its balls at most the legal-ball count; with no wicket it is the
      whole innings. */
  lemma PartnershipBounds(ds: seq<Delivery>)
    ensures Total(SinceLastWicket(ds)) <= Total(ds)
    ensures LegalCount(SinceLastWicket(ds)) <= LegalCount(ds)
    ensures (forall k :: 0 <= k < |ds| ==> !ds[k].isWicket) ==> SinceLastWicket(ds) == ds
  {
    var r := SinceLastWicket(ds);
    SumOfSuffix(ds, |ds| - |r|, TeamRuns);
    SumOfSuffix(ds, |ds| - |r|, LegalBall);
  }

  /** The marks of a ball, in this order: "W" for a wicket, "nb" for a
      no-ball, "wd" for a wide. */
  function Marks(d: Delivery): (m: string)
    ensures m == "" <==> !d.isWicket && d.noBall == 0 && d.wide == 0
    ensures forall i :: 0 <= i < |m| ==> !IsDigit(m[i])
  {
    (if d.isWicket then "W" else "") + (if d.noBall != 0 then "nb" else "") + (if d.wide != 0 then "wd" else "")
  }

  /** The label of a recent ball: its marks, prefixed with the bat runs when
      there are any; "0" for a scoreless, unmarked ball. */
  function Label(d: Delivery): (tag: string)
    ensures d.runs > 0 ==> tag == NatToString(d.runs) + Marks(d)
    ensures d.runs == 0 ==> tag == (if Marks(d) == "" then "0" else Marks(d))
    ensures d.runs == 0 && tag != "0" ==> !IsDigit(tag[0])
    ensures tag != []
    ensures tag == "0" <==> !d.isWicket && d.noBall == 0 && d.wide == 0 && d.runs == 0
    ensures ('W' in tag) == d.isWicket
    ensures ('n' in tag) == (d.noBall != 0)
    ensures ('w' in tag) == (d.wide != 0)
    ensures d.runs > 0 ==> |NatToString(d.runs)| <= |tag| && tag[..|NatToString(d.runs)|] == NatToString(d.runs)
  {
    var marks := Marks(d);
    var prefixed := if marks == "" || d.runs > 0
                    then (if d.runs > 0 then NatToString(d.runs) else "") + marks
                    else marks;
    assert d.runs > 0 ==> prefixed[0] == NatToString(d.runs)[0] != '0';
    assert d.runs == 0 && marks != "" ==> prefixed[0] != '0';
    if prefixed == "" then "0" else prefixed
  }

  /** The label determines the bat runs and which marks the ball carries. */
  lemma LabelInjective(d: Delivery, d': Delivery)
    requires Label(d) == Label(d')
    ensures d.runs == d'.runs
    ensures d.isWicket == d'.isWicket && (d.noBall != 0) == (d'.noBall != 0) && (d.wide != 0) == (d'.wide != 0)
  {
    if Label(d) != "0" {
      var x := if d.runs > 0 then NatToString(d.runs) else "";
      var x' := if d'.runs > 0 then NatToString(d'.runs) else "";
      assert Label(d) == x + Marks(d);
      assert Label(d') == x' + Marks(d');
      SplitDigitPrefix(x, Marks(d), x', Marks(d'));
      if d.runs > 0 && d'.runs > 0 {
        NatToStringInjective(d.runs, d'.runs);
      }
    }
  }

  /** The last six deliveries of the innings (all of them when fewer), labelled. */
  function RecentBalls(ds: seq<Delivery>): (r: seq<RecentBall>)
    ensures |r| == if |ds| < 6 then |ds| else 6
    ensures forall k :: 0 <= k < |r| ==>
              r[k].delivery == ds[|ds| - |r| + k] && r[k].tag == Label(r[k].delivery)
  {
    var tail := if |ds| <= 6 then ds else ds[|ds| - 6..];
    seq(|tail|, k requires 0 <= k < |tail| => RecentBall(tail[k], Label(tail[k])))
  }

  /** The current run rate: runs per six legal balls, "0.00" before any legal ball. */
  function RunRate(runs: nat, legalBalls: nat): (r: Rate)
    ensures legalBalls == 0 ==> r == Default("0.00")
    ensures legalBalls > 0 ==> r.Exact? && r.value * (legalBalls as real) == 6.0 * (runs as real)
  {
    if legalBalls > 0 then Exact(runs as real / (legalBalls as real / 6.0)) else Default("0.00")
  }

  /** The required run rate of the second innings: the runs still needed to pass
      the first-innings total, per six of the legal balls that remain. It exists
      only while both are positive. */
  function RequiredRate(m: Option<Match>, firstInningsRuns: nat, runs: nat, legalBalls: nat): (r: Option<real>)
    ensures r.Some? <==> m.Some? && m.value.currentInning == 2
                         && firstInningsRuns + 1 - runs > 0 && m.value.overs * 6 - legalBalls > 0
    ensures r.Some? ==> r.value > 0.0 && r.value * ((m.value.overs * 6 - legalBalls) as real)
                                         == 6.0 * ((firstInningsRuns + 1 - runs) as real)
  {
    if m.Some? && m.value.currentInning == 2 then
      var target := firstInningsRuns + 1;
      var remRuns := target - runs;
      var remBalls := m.value.overs * 6 - legalBalls;
      if remBalls > 0 && remRuns > 0 then Some((remRuns as real / remBalls as real) * 6.0) else None
    else None
  }

  /** The forward pass over the innings: the team total, the wickets, the
      legal balls and the extras by category, and a fall-of-wicket entry
      recorded at each wicket with the totals reached at that delivery. */
  method ForwardPass(ds: seq<Delivery>, players: seq<Player>)
    returns (runs: nat, wickets: nat, validBalls: nat, extras: Extras, fow: seq<FowEntry>)
    ensures runs == Total(ds) && wickets == WicketCount(ds) && validBalls == LegalCount(ds)
    ensures extras == Extras(WideSum(ds), NoBallSum(ds), ByesSum(ds), ExtrasTotal(ds))
    ensures fow == Fow(ds, players)
  {
    runs, wickets, validBalls := 0, 0, 0;
    var exWide, exNoBall, exByes, exTotal := 0, 0, 0, 0;
    fow := [];
    var i := 0;
    while i < |ds|
      invariant 0 <= i <= |ds|
      invariant runs == Total(ds[..i]) && wickets == WicketCount(ds[..i])
      invariant validBalls == LegalCount(ds[..i])
      invariant exWide == WideSum(ds[..i]) && exNoBall == NoBallSum(ds[..i])
      invariant exByes == ByesSum(ds[..i]) && exTotal == ExtrasTotal(ds[..i])
      invariant fow == Fow(ds[..i], players)
    {
      var d := ds[i];
      assert ds[..i + 1][..i] == ds[..i];
      assert ds[..i + 1][i] == d;
      var bx := d.wide + d.noBall + d.byes;
      runs := runs + d.runs + bx;
      exWide, exNoBall, exByes, exTotal := exWide + d.wide, exNoBall + d.noBall, exByes + d.byes, exTotal + bx;
      if d.isLegal {
        validBalls := validBalls + 1;
      }
      if d.isWicket {
        wickets := wickets + 1;
        var name := NameOf(FindPlayer(players, d.wicketPlayer));
        assert ds[..i + 1][..i + 1] == ds[..i + 1];
        fow := fow + [FowEntry(runs, wickets, name, OverString(validBalls))];
      }
      i := i + 1;
    }
    assert ds[..i] == ds;
    extras := Extras(exWide, exNoBall, exByes, exTotal);
  }

  /** The backward scan for the current partnership: the runs and legal balls
      from the latest delivery back to, and not including, the most recent
      wicket, or to the start of the innings. */
  method PartnershipScan(ds: seq<Delivery>) returns (p: Partnership)
    ensures p == Partnership(Total(SinceLastWicket(ds)), LegalCount(SinceLastWicket(ds)))
  {
    var pRuns, pBalls := 0, 0;
    var j := |ds|;
    while j > 0
      invariant 0 <= j <= |ds|
      invariant pRuns == Total(ds[j..]) && pBalls == LegalCount(ds[j..])
      invariant forall k :: j <= k < |ds| ==> !ds[k].isWicket
    {
      if ds[j - 1].isWicket {
        break;
      }
      assert ds[j - 1..] == [ds[j - 1]] + ds[j..];
      SumOfCons(ds[j - 1], ds[j..], TeamRuns);
      SumOfCons(ds[j - 1], ds[j..], LegalBall);
      pRuns := pRuns + ds[j - 1].runs + ds[j - 1].wide + ds[j - 1].noBall + ds[j - 1].byes;
      if ds[j - 1].isLegal {
        pBalls := pBalls + 1;
      }
      j := j - 1;
    }
    SinceLastWicketAt(ds, j);
    p := Partnership(pRuns, pBalls);
  }

  /** The statistics of the current innings, computed as `store.js` does: one
      forward pass accumulating the totals and the fall of wickets, then a
      backward scan for the current partnership. */
  method ComputeStats(m: Option<Match>, deliveries: seq<Delivery>, players: seq<Player>) returns (s: Stats)
    ensures var ds := InningDeliveries(deliveries, CurInning(m));
      && s.totalRuns == Total(ds)
      && s.wickets == WicketCount(ds)
      && s.validBalls == LegalCount(ds)
      && s.extras == Extras(WideSum(ds), NoBallSum(ds), ByesSum(ds), ExtrasTotal(ds))
      && s.fow == Fow(ds, players)
      && s.partnership == Partnership(Total(SinceLastWicket(ds)), LegalCount(SinceLastWicket(ds)))
      && s.recentBalls == RecentBalls(ds)
      && s.score == ScoreString(Total(ds), WicketCount(ds))
      && s.overs == OverString(LegalCount(ds))
      && s.crr == RunRate(Total(ds), LegalCount(ds))
      && s.rrr == RequiredRate(m, Total(InningDeliveries(deliveries, 1)), Total(ds), LegalCount(ds))
    ensures s.partnership.runs <= s.totalRuns && s.partnership.balls <= s.validBalls
    ensures |s.fow| == s.wickets
  {
    var curInning := CurInning(m);
    var ds := InningDeliveries(deliveries, curInning);
    var runs, wickets, validBalls, extras, fow := ForwardPass(ds, players);
    var partnership := PartnershipScan(ds);
    PartnershipBounds(ds);
    FowShape(ds, players);
    var recent := RecentBalls(ds);
    var rrr := RequiredRate(m, Total(InningDeliveries(deliveries, 1)), runs, validBalls);
    var crr := RunRate(runs, validBalls);
    s := Stats(ScoreString(runs, wickets), OverString(validBalls), crr, rrr, validBalls, wickets,
               runs, recent, partnership, extras, fow);
  }
}
