/** The leveling engine: accepted papers are folded into a point total by
    venue tier, the total is placed on the quadratic level curve
    `5 * L * (L + 1)`, and the position inside the level is reported as an
    XP bucket and a percentage. Both app components compute this the same
    way; only the shape of the tier test inside the fold differs. */
module Leveling {
  import opened Types
  import opened Records
  import opened LevelCurve
  import opened Progression

  /** The fixed reward of one accepted paper. */
  function TierPoints(tier: ConferenceTier): (pts: nat)
    ensures 5 <= pts <= 50 && pts % 5 == 0
  {
    match tier
    case A => 50
    case B => 25
    case C => 10
    case Other => 5
  }

  /** What one record contributes to the total. */
  function PointsOf(p: PaperRecord): nat
  {
    if p.status == Accepted then TierPoints(p.tier) else 0
  }

  /** Reference definition: the sum of the tier rewards of the accepted records. */
  function Points(papers: seq<PaperRecord>): nat
  {
    if papers == [] then 0 else PointsOf(papers[0]) + Points(papers[1..])
  }

  /** `array.reduce(f, acc)`: a left fold. The last element is folded in
      last, on top of the fold of all the others. */
  function Reduce(f: (int, PaperRecord) -> int, acc: int, ps: seq<PaperRecord>): (r: int)
    ensures ps == [] ==> r == acc
    ensures ps != [] ==> r == f(Reduce(f, acc, ps[..|ps| - 1]), ps[|ps| - 1])
    decreases |ps|
  {
    if ps == [] then acc
    else
      assert |ps| > 1 ==> ps[..|ps| - 1][1..] == ps[1..][..|ps[1..]| - 1];
      Reduce(f, f(acc, ps[0]), ps[1..])
  }

  /** The fold callback of the archive component: one early return per tier. */
  function EarlyReturnScore(acc: int, p: PaperRecord): (r: int)
    ensures r == acc + TierPoints(p.tier)
  {
    if p.tier == A then acc + 50
    else if p.tier == B then acc + 25
    else if p.tier == C then acc + 10
    else acc + 5
  }

  /** The fold callback of the plain component: an else-if chain that sets `score`. */
  function ElseIfScore(acc: int, p: PaperRecord): (r: int)
    ensures r == acc + TierPoints(p.tier)
  {
    var score :=
      if p.tier == A then 50
      else if p.tier == B then 25
      else if p.tier == C then 10
      else 5;
    acc + score
  }

  /** The sum of the tier rewards of every record of `ps`, whatever its status. */
  function TierSum(ps: seq<PaperRecord>): nat
  {
    if ps == [] then 0 else TierPoints(ps[0].tier) + TierSum(ps[1..])
  }

  /** A fold whose callback adds the tier reward computes the tier sum. */
  lemma {:induction false} ReduceIsTierSum(f: (int, PaperRecord) -> int, acc: int, ps: seq<PaperRecord>)
    requires forall a: int, p: PaperRecord :: f(a, p) == a + TierPoints(p.tier)
    ensures Reduce(f, acc, ps) == acc + TierSum(ps)
    decreases |ps|
  {
    if ps != [] {
      ReduceIsTierSum(f, f(acc, ps[0]), ps[1..]);
    }
  }

  /** Summing over the accepted tab is summing the accepted records' rewards. */
  lemma {:induction false} TierSumOfAccepted(papers: seq<PaperRecord>)
    ensures TierSum(ByStatus(papers, Accepted)) == Points(papers)
  {
    if papers != [] {
      TierSumOfAccepted(papers[1..]);
      var head := if papers[0].status == Accepted then [papers[0]] else [];
      assert ByStatus(papers, Accepted) == head + ByStatus(papers[1..], Accepted);
      TierSumConcat(head, ByStatus(papers[1..], Accepted));
    }
  }

  lemma {:induction false} TierSumConcat(a: seq<PaperRecord>, b: seq<PaperRecord>)
    ensures TierSum(a + b) == TierSum(a) + TierSum(b)
  {
    if a == [] {
      assert a + b == b;
    } else {
      assert (a + b)[1..] == a[1..] + b;
      TierSumConcat(a[1..], b);
    }
  }

  /** `totalPoints` of the archive component (index.tsx): filter, then fold with early returns. */
  function TotalPointsEarlyReturn(papers: seq<PaperRecord>): (total: nat)
    ensures total == Points(papers)
  {
    ReduceIsTierSum(EarlyReturnScore, 0, ByStatus(papers, Accepted));
    TierSumOfAccepted(papers);
    Reduce(EarlyReturnScore, 0, ByStatus(papers, Accepted))
  }

  /** `totalPoints` of the plain component (App.tsx): filter, then fold with an else-if chain. */
  function TotalPointsElseIf(papers: seq<PaperRecord>): (total: nat)
    ensures total == Points(papers)
  {
    ReduceIsTierSum(ElseIfScore, 0, ByStatus(papers, Accepted));
    TierSumOfAccepted(papers);
    Reduce(ElseIfScore, 0, ByStatus(papers, Accepted))
  }

  // ---------------------------------------------------------------------
  // Properties of the point total

  lemma {:induction false} PointsConcat(a: seq<PaperRecord>, b: seq<PaperRecord>)
    ensures Points(a + b) == Points(a) + Points(b)
  {
    if a == [] {
      assert a + b == b;
    } else {
      assert (a + b)[1..] == a[1..] + b;
      PointsConcat(a[1..], b);
    }
  }

  /** The total is a multiple of five. */
  lemma {:induction false} PointsMultipleOfFive(papers: seq<PaperRecord>)
    ensures Points(papers) % 5 == 0
  {
    if papers != [] {
      PointsMultipleOfFive(papers[1..]);
    }
  }

  /** Records that are not accepted add nothing: an empty or all-unaccepted list scores 0. */
  lemma {:induction false} PointsWithoutAccepted(papers: seq<PaperRecord>)
    requires forall i :: 0 <= i < |papers| ==> papers[i].status != Accepted
    ensures Points(papers) == 0
  {
    if papers != [] {
      PointsWithoutAccepted(papers[1..]);
    }
  }

  /** The total does not depend on the order of the records. */
  lemma {:induction false} PointsOrderIndependent(a: seq<PaperRecord>, b: seq<PaperRecord>)
    requires multiset(a) == multiset(b)
    ensures Points(a) == Points(b)
    decreases |a|
  {
    if a == [] {
      assert |b| == |multiset(b)| == 0;
    } else {
      var x := a[0];
      assert x in multiset(b);
      var j :| 0 <= j < |b| && b[j] == x;
      var rest := b[..j] + b[j + 1..];
      assert b == b[..j] + [x] + b[j + 1..];
      assert multiset(b) == multiset(b[..j]) + multiset{x} + multiset(b[j + 1..]);
      assert multiset(rest) == multiset(b[..j]) + multiset(b[j + 1..]);
      assert a == [x] + a[1..];
      assert multiset(a) == multiset{x} + multiset(a[1..]);
      assert multiset(a[1..]) == multiset(a) - multiset{x};
      assert multiset(rest) == multiset(b) - multiset{x};
      PointsOrderIndependent(a[1..], rest);
      PointsConcat(b[..j] + [x], b[j + 1..]);
      PointsConcat(b[..j], [x]);
      PointsConcat(b[..j], b[j + 1..]);
      PointsConcat([x], a[1..]);
    }
  }

  /** The number of accepted records of one tier. */
  function AcceptedOfTier(papers: seq<PaperRecord>, tier: ConferenceTier): nat
  {
    if papers == [] then 0
    else (if papers[0].status == Accepted && papers[0].tier == tier then 1 else 0)
         + AcceptedOfTier(papers[1..], tier)
  }

  /** Total = 50 per accepted A paper + 25 per B + 10 per C + 5 per other venue. */
  lemma {:induction false} PointsByTier(papers: seq<PaperRecord>)
    ensures Points(papers) == 50 * AcceptedOfTier(papers, A) + 25 * AcceptedOfTier(papers, B)
                            + 10 * AcceptedOfTier(papers, C) + 5 * AcceptedOfTier(papers, Other)
  {
    if papers != [] {
      PointsByTier(papers[1..]);
    }
  }

  /** `levelingData` of the archive component. */
  function LevelingEarlyReturn(papers: seq<PaperRecord>): (d: LevelingData)
    ensures d == FromTotal(Points(papers))
    ensures d.totalPoints == Points(papers) && d.level == Level(Points(papers))
  {
    FromTotal(TotalPointsEarlyReturn(papers))
  }

  /** `levelingData` of the plain component. */
  function LevelingElseIf(papers: seq<PaperRecord>): (d: LevelingData)
    ensures d == FromTotal(Points(papers))
    ensures d.totalPoints == Points(papers) && d.level == Level(Points(papers))
  {
    FromTotal(TotalPointsElseIf(papers))
  }

  /** The two copies of the engine agree on every record list. */
  lemma CopiesAgree(papers: seq<PaperRecord>)
    ensures LevelingEarlyReturn(papers) == LevelingElseIf(papers)
  {
  }

  // ---------------------------------------------------------------------
  // How store operations move the total

  /** Deleting a record (ids unique) deducts exactly what it contributed:
      its tier reward when accepted, nothing otherwise. */
  lemma {:induction false} DeleteDeductsPoints(papers: seq<PaperRecord>, k: nat)
    requires UniqueIds(papers) && k < |papers|
    ensures Points(RemoveId(papers, papers[k].id)) == Points(papers) - PointsOf(papers[k])
  {
    UniqueIdsTail(papers);
    if k == 0 {
      DeleteHeadDeductsPoints(papers);
    } else {
      assert papers[1..][k - 1] == papers[k];
      DeleteDeductsPoints(papers[1..], k - 1);
      DeleteBehindHead(papers, papers[k].id);
    }
  }

  /** Deleting the first record's id, absent from the rest, deducts its contribution. */
  lemma DeleteHeadDeductsPoints(papers: seq<PaperRecord>)
    requires papers != [] && Find(papers[1..], papers[0].id).None?
    ensures Points(RemoveId(papers, papers[0].id)) == Points(papers) - PointsOf(papers[0])
  {
    var id := papers[0].id;
    RemoveIdCons(papers, id);
    RemoveUnknownIdIsNoOp(papers[1..], id);
    assert RemoveId(papers, id) == [] + papers[1..] == papers[1..];
    assert Points(papers) == PointsOf(papers[0]) + Points(papers[1..]);
  }

  /** Deleting an id the first record does not carry keeps that record's contribution. */
  lemma DeleteBehindHead(papers: seq<PaperRecord>, id: PaperId)
    requires papers != [] && papers[0].id != id
    ensures Points(RemoveId(papers, id)) == PointsOf(papers[0]) + Points(RemoveId(papers[1..], id))
  {
    RemoveIdCons(papers, id);
    PointsConcat([papers[0]], RemoveId(papers[1..], id));
  }

  /** Moving a record (ids unique) to `newStatus` changes the total by the
      difference of its contributions: accepting adds its tier reward,
      leaving Accepted removes it, and other moves change nothing. */
  lemma {:induction false} StatusChangePoints(papers: seq<PaperRecord>, k: nat, newStatus: PaperStatus)
    requires UniqueIds(papers) && k < |papers|
    ensures Points(UpdateStatus(papers, papers[k].id, newStatus))
            == Points(papers) - PointsOf(papers[k]) + PointsOf(WithStatus(papers[k], newStatus))
  {
    var id := papers[k].id;
    var r := UpdateStatus(papers, id, newStatus);
    var rest := UpdateStatus(papers[1..], id, newStatus);
    assert r == [r[0]] + rest;
    PointsConcat([r[0]], rest);
    PointsConcat([papers[0]], papers[1..]);
    assert papers == [papers[0]] + papers[1..];
    if k == 0 {
      forall i | 0 <= i < |papers[1..]| ensures papers[1..][i].id != id {
        assert papers[1..][i] == papers[i + 1];
      }
      assert rest == papers[1..];
    } else {
      assert UniqueIds(papers[1..]);
      assert papers[1..][k - 1] == papers[k];
      StatusChangePoints(papers[1..], k - 1, newStatus);
    }
  }
}
