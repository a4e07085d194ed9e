/** The delivery ledger of `store.js`: the records the engine keeps, the
    ordered log of deliveries, and the sums the statistics are folded from. */
module Ledger {
  import opened Common

  /** Player identifiers are the store's auto-increment keys, which start at 1,
      so an identifier is truthy exactly when it is present. */
  type PlayerId = n: nat | n > 0 witness 1

  datatype Player = Player(id: PlayerId, name: string, team: string)

  /** The match fields the engine reads. `overs` is the overs limit. */
  datatype Match = Match(
    id: nat,
    homeTeam: string,
    awayTeam: string,
    tossWinner: string,
    tossChoice: string,
    overs: int,
    currentInning: int)

  /** One bowled ball. `wide`, `noBall` and `byes` are the extras the record
      stores (a missing `byes` reads as 0); `id` is the durable key, filled in
      once the store has written the record. */
  datatype Delivery = Delivery(
    id: Option<nat>,
    matchId: nat,
    inning: int,
    over: nat,
    striker: Option<PlayerId>,
    nonStriker: Option<PlayerId>,
    bowler: Option<PlayerId>,
    runs: nat,
    wide: nat,
    noBall: nat,
    byes: nat,
    isWicket: bool,
    wicketPlayer: Option<PlayerId>,
    isLegal: bool)

  /** A delivery is legal exactly when it carries neither wide nor no-ball extras. */
  predicate WellFormed(d: Delivery) {
    d.isLegal == (d.wide == 0 && d.noBall == 0)
  }

  predicate LedgerWellFormed(ds: seq<Delivery>) {
    forall i :: 0 <= i < |ds| ==> WellFormed(ds[i])
  }

  /** The first player with identifier `id` (`players.find(p => p.id === id)`);
      none when `id` is absent or no player has it. */
  function FindPlayer(players: seq<Player>, id: Option<PlayerId>): (r: Option<Player>)
    ensures r.None? <==> forall i :: 0 <= i < |players| ==> Some(players[i].id) != id
    ensures r.Some? ==> exists i :: 0 <= i < |players| && Some(players[i].id) == id && players[i] == r.value
                                    && forall j :: 0 <= j < i ==> Some(players[j].id) != id
  {
    if players == [] then None
    else if Some(players[0].id) == id then Some(players[0])
    else
      var r := FindPlayer(players[1..], id);
      assert forall i :: 1 <= i < |players| ==> players[i] == players[1..][i - 1];
      if r.Some? then
        var i :| 0 <= i < |players[1..]| && Some(players[1..][i].id) == id && players[1..][i] == r.value
                 && forall j :: 0 <= j < i ==> Some(players[1..][j].id) != id;
        assert Some(players[i + 1].id) == id && players[i + 1] == r.value;
        r
      else r
  }

  /** The deliveries of `ds` that satisfy `p`, in log order (`Array.filter`). */
  function Filter(ds: seq<Delivery>, p: Delivery -> bool): (r: seq<Delivery>)
    ensures |r| <= |ds|
  {
    if ds == [] then []
    else
      var last := ds[|ds| - 1];
      Filter(ds[..|ds| - 1], p) + (if p(last) then [last] else [])
  }

  /** The filtered log holds exactly the deliveries of the log that satisfy `p`. */
  lemma {:induction false} FilterMembers(ds: seq<Delivery>, p: Delivery -> bool)
    ensures forall d :: d in Filter(ds, p) <==> d in ds && p(d)
    decreases |ds|
  {
    if ds != [] {
      var last := ds[|ds| - 1];
      assert ds == ds[..|ds| - 1] + [last];
      FilterMembers(ds[..|ds| - 1], p);
    }
  }

  lemma FilterSnoc(ds: seq<Delivery>, d: Delivery, p: Delivery -> bool)
    ensures Filter(ds + [d], p) == Filter(ds, p) + (if p(d) then [d] else [])
  {
    assert (ds + [d])[..|ds|] == ds;
  }

  function InInning(inn: int): Delivery -> bool {
    (d: Delivery) => d.inning == inn
  }

  /** The deliveries of one innings, in log order. */
  function InningDeliveries(ds: seq<Delivery>, inn: int): seq<Delivery> {
    Filter(ds, InInning(inn))
  }

  lemma InningDeliveriesSnoc(ds: seq<Delivery>, d: Delivery, inn: int)
    ensures InningDeliveries(ds + [d], inn)
         == InningDeliveries(ds, inn) + (if d.inning == inn then [d] else [])
  {
    FilterSnoc(ds, d, InInning(inn));
  }

  /** The sum of `f` over the log (`reduce`, or a `forEach` that accumulates). */
  function SumOf(ds: seq<Delivery>, f: Delivery -> nat): nat {
    if ds == [] then 0 else SumOf(ds[..|ds| - 1], f) + f(ds[|ds| - 1])
  }

  lemma {:induction false} SumOfAppend(a: seq<Delivery>, b: seq<Delivery>, f: Delivery -> nat)
    ensures SumOf(a + b, f) == SumOf(a, f) + SumOf(b, f)
    decreases |b|
  {
    if b != [] {
      var b' := b[..|b| - 1];
      assert (a + b)[..|a + b| - 1] == a + b';
      assert (a + b)[|a + b| - 1] == b[|b| - 1];
      SumOfAppend(a, b', f);
    } else {
      assert a + b == a;
    }
  }

  lemma SumOfCons(d: Delivery, ds: seq<Delivery>, f: Delivery -> nat)
    ensures SumOf([d] + ds, f) == f(d) + SumOf(ds, f)
  {
    SumOfAppend([d], ds, f);
    assert [d][..0] == [];
  }

  lemma SumOfSnoc(ds: seq<Delivery>, d: Delivery, f: Delivery -> nat)
    ensures SumOf(ds + [d], f) == SumOf(ds, f) + f(d)
  {
    assert (ds + [d])[..|ds|] == ds;
  }

  /** A sum over a suffix of the log never exceeds the sum over the whole log. */
  lemma SumOfSuffix(ds: seq<Delivery>, k: nat, f: Delivery -> nat)
    requires k <= |ds|
    ensures SumOf(ds[k..], f) <= SumOf(ds, f)
  {
    assert ds == ds[..k] + ds[k..];
    SumOfAppend(ds[..k], ds[k..], f);
  }

  /** Summing a pointwise sum is the sum of the sums. */
  lemma {:induction false} SumOfAdd(ds: seq<Delivery>, f: Delivery -> nat, g: Delivery -> nat, h: Delivery -> nat)
    requires forall d :: h(d) == f(d) + g(d)
    ensures SumOf(ds, h) == SumOf(ds, f) + SumOf(ds, g)
    decreases |ds|
  {
    if ds != [] {
      SumOfAdd(ds[..|ds| - 1], f, g, h);
    }
  }

  // Per-delivery contributions (store.js:39-42, 53-54).

  predicate IsLegal(d: Delivery) { d.isLegal }
  function BatRuns(d: Delivery): nat { d.runs }
  function WideExtra(d: Delivery): nat { d.wide }
  function NoBallExtra(d: Delivery): nat { d.noBall }
  function ByesExtra(d: Delivery): nat { d.byes }
  function ExtraRuns(d: Delivery): nat { d.wide + d.noBall + d.byes }
  function TeamRuns(d: Delivery): nat { d.runs + ExtraRuns(d) }
  function LegalBall(d: Delivery): nat { if d.isLegal then 1 else 0 }
  function WicketBall(d: Delivery): nat { if d.isWicket then 1 else 0 }

  /** The team total: bat runs plus every extra. */
  function Total(ds: seq<Delivery>): nat { SumOf(ds, TeamRuns) }
  function BatRunsSum(ds: seq<Delivery>): nat { SumOf(ds, BatRuns) }
  function ExtrasTotal(ds: seq<Delivery>): nat { SumOf(ds, ExtraRuns) }
  function WideSum(ds: seq<Delivery>): nat { SumOf(ds, WideExtra) }
  function NoBallSum(ds: seq<Delivery>): nat { SumOf(ds, NoBallExtra) }
  function ByesSum(ds: seq<Delivery>): nat { SumOf(ds, ByesExtra) }
  function LegalCount(ds: seq<Delivery>): nat { SumOf(ds, LegalBall) }
  function WicketCount(ds: seq<Delivery>): nat { SumOf(ds, WicketBall) }

  /** The team total splits into the bat runs and the extras, and the extras
      into their three categories. */
  lemma TotalDecomposes(ds: seq<Delivery>)
    ensures Total(ds) == BatRunsSum(ds) + ExtrasTotal(ds)
    ensures ExtrasTotal(ds) == WideSum(ds) + NoBallSum(ds) + ByesSum(ds)
  {
    SumOfAdd(ds, BatRuns, ExtraRuns, TeamRuns);
    var wn := (d: Delivery) => d.wide + d.noBall;
    SumOfAdd(ds, WideExtra, NoBallExtra, wn);
    SumOfAdd(ds, wn, ByesExtra, ExtraRuns);
  }

  /** The legal-ball count is the number of deliveries marked legal, so it never
      exceeds the number of deliveries. */
  lemma {:induction false} LegalCountIsLegalDeliveries(ds: seq<Delivery>)
    ensures LegalCount(ds) == |Filter(ds, IsLegal)|
    ensures LegalCount(ds) <= |ds|
    decreases |ds|
  {
    if ds != [] {
      LegalCountIsLegalDeliveries(ds[..|ds| - 1]);
    }
  }

  /** Appending one delivery adds one legal ball to its innings' count exactly
      when it is legal and belongs to that innings. */
  lemma LegalCountSnoc(ds: seq<Delivery>, d: Delivery, inn: int)
    ensures LegalCount(InningDeliveries(ds + [d], inn))
         == LegalCount(InningDeliveries(ds, inn)) + (if d.inning == inn && d.isLegal then 1 else 0)
  {
    InningDeliveriesSnoc(ds, d, inn);
    if d.inning == inn {
      SumOfSnoc(InningDeliveries(ds, inn), d, LegalBall);
    } else {
      assert InningDeliveries(ds + [d], inn) == InningDeliveries(ds, inn);
    }
  }

  /** Appending one delivery raises its innings' total by what that delivery
      scores for the team. A wide records `1 + runs` as its extra and its bat
      runs are added as well, so a wide of `r` bat runs adds `2r + 1`. */
  lemma TotalSnoc(ds: seq<Delivery>, d: Delivery, inn: int)
    ensures Total(InningDeliveries(ds + [d], inn))
         == Total(InningDeliveries(ds, inn)) + (if d.inning == inn then TeamRuns(d) else 0)
    ensures d.inning == inn && d.wide == 1 + d.runs && d.noBall == 0 && d.byes == 0 ==>
              Total(InningDeliveries(ds + [d], inn)) == Total(InningDeliveries(ds, inn)) + 2 * d.runs + 1
  {
    InningDeliveriesSnoc(ds, d, inn);
    if d.inning == inn {
      SumOfSnoc(InningDeliveries(ds, inn), d, TeamRuns);
    } else {
      assert InningDeliveries(ds + [d], inn) == InningDeliveries(ds, inn);
    }
  }
}
