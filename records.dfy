/** The operations both app components perform on their ordered list of
    paper records: `filter` by a predicate, `map` that rewrites the records
    carrying one id, `find` by id, the status rule, the form merge, and the
    per-status counts. The list is most-recently-created first. */
module Records {
  import opened Types

  /** `xs.filter(keep)`: the elements that satisfy `keep`, in their original order. */
  function Filter<T(==, !new)>(xs: seq<T>, keep: T -> bool): (r: seq<T>)
    ensures |r| <= |xs|
    ensures forall x :: x in r <==> x in xs && keep(x)
    ensures forall x :: multiset(r)[x] == if keep(x) then multiset(xs)[x] else 0
    ensures forall x :: x in xs && !keep(x) ==> |r| < |xs|
  {
    if xs == [] then []
    else
      assert xs == [xs[0]] + xs[1..];
      (if keep(xs[0]) then [xs[0]] else []) + Filter(xs[1..], keep)
  }

  /** Filtering distributes over concatenation, so it keeps the relative order of what it keeps. */
  lemma {:induction false} FilterConcat<T(!new)>(a: seq<T>, b: seq<T>, keep: T -> bool)
    ensures Filter(a + b, keep) == Filter(a, keep) + Filter(b, keep)
  {
    if a == [] {
      assert a + b == b;
    } else {
      assert (a + b)[0] == a[0];
      assert (a + b)[1..] == a[1..] + b;
      FilterConcat(a[1..], b, keep);
    }
  }

  /** When every element is kept, filtering returns the list itself. */
  lemma {:induction false} FilterKeepsAll<T(!new)>(xs: seq<T>, keep: T -> bool)
    requires forall i :: 0 <= i < |xs| ==> keep(xs[i])
    ensures Filter(xs, keep) == xs
  {
    if xs != [] {
      FilterKeepsAll(xs[1..], keep);
    }
  }

  /** `papers.map(p => p.id === id ? f(p) : p)`. */
  function ReplaceById(papers: seq<PaperRecord>, id: PaperId, f: PaperRecord -> PaperRecord): (r: seq<PaperRecord>)
    ensures |r| == |papers|
    ensures forall i :: 0 <= i < |papers| ==> r[i] == if papers[i].id == id then f(papers[i]) else papers[i]
  {
    if papers == [] then []
    else [if papers[0].id == id then f(papers[0]) else papers[0]] + ReplaceById(papers[1..], id, f)
  }

  /** `papers.find(p => p.id === id)`: the first record carrying `id`, if any. */
  function Find(papers: seq<PaperRecord>, id: PaperId): (r: Option<PaperRecord>)
    ensures r.None? <==> forall i :: 0 <= i < |papers| ==> papers[i].id != id
    ensures r.Some? ==> exists k :: 0 <= k < |papers| && papers[k] == r.value && r.value.id == id
                          && forall i :: 0 <= i < k ==> papers[i].id != id
  {
    if papers == [] then None
    else if papers[0].id == id then Some(papers[0])
    else
      var r := Find(papers[1..], id);
      assert r.Some? ==> exists k :: 0 <= k < |papers[1..]| && papers[1..][k] == r.value && r.value.id == id
                          && forall i :: 0 <= i < k ==> papers[1..][i].id != id;
      assert r.Some? ==> exists k :: 0 <= k < |papers| && papers[k] == r.value && r.value.id == id
                          && forall i :: 0 <= i < k ==> papers[i].id != id;
      r
  }

  /** The result a record carries after its status changes to `newStatus`:
      Accepted and Rejected fix it, every other stage keeps the old one. */
  function ResultAfter(newStatus: PaperStatus, oldResult: PaperResult): (r: PaperResult)
    ensures newStatus == Accepted ==> r == ResultAccepted
    ensures newStatus == Rejected ==> r == ResultRejected
    ensures newStatus != Accepted && newStatus != Rejected ==> r == oldResult
    ensures r == oldResult || r == ResultAccepted || r == ResultRejected
  {
    if newStatus == Accepted then ResultAccepted
    else if newStatus == Rejected then ResultRejected
    else oldResult
  }

  /** Applying the same status change twice derives the same result as once. */
  lemma ResultAfterIdempotent(newStatus: PaperStatus, oldResult: PaperResult)
    ensures ResultAfter(newStatus, ResultAfter(newStatus, oldResult)) == ResultAfter(newStatus, oldResult)
  {
  }

  /** One record moved to `newStatus`. */
  function WithStatus(p: PaperRecord, newStatus: PaperStatus): (q: PaperRecord)
    ensures q.status == newStatus
    ensures newStatus == Accepted ==> q.result == ResultAccepted
    ensures newStatus == Rejected ==> q.result == ResultRejected
    ensures newStatus != Accepted && newStatus != Rejected ==> q.result == p.result
    ensures q.(status := p.status, result := p.result) == p
  {
    p.(status := newStatus, result := ResultAfter(newStatus, p.result))
  }

  /** The status change applied to the list: every record with `id` moves
      to `newStatus`; the rest, the order and the length stay as they were. */
  function UpdateStatus(papers: seq<PaperRecord>, id: PaperId, newStatus: PaperStatus): (r: seq<PaperRecord>)
    ensures |r| == |papers|
    ensures forall i :: 0 <= i < |papers| && papers[i].id == id ==> r[i] == WithStatus(papers[i], newStatus)
    ensures forall i :: 0 <= i < |papers| && papers[i].id != id ==> r[i] == papers[i]
  {
    ReplaceById(papers, id, p => WithStatus(p, newStatus))
  }

  /** The form fields of a record: everything except `id` and `createdAt`. */
  function Fields(p: PaperRecord): PaperData
  {
    PaperData(p.title, p.conference, p.tier, p.status, p.submissionDate, p.scoreReleaseDate,
              p.scores, p.rebuttalDate, p.finalScores, p.result, p.content)
  }

  /** `{ ...p, ...data }`: the submitted fields over the record, which keeps its identity. */
  function Merge(p: PaperRecord, data: PaperData): (q: PaperRecord)
    ensures Fields(q) == data
    ensures q.id == p.id && q.createdAt == p.createdAt
  {
    PaperRecord(p.id, data.title, data.conference, data.tier, data.status, data.submissionDate,
                data.scoreReleaseDate, data.scores, data.rebuttalDate, data.finalScores,
                data.result, data.content, p.createdAt)
  }

  /** Submitting the form unchanged leaves a record as it was. */
  lemma MergeOwnFieldsIsIdentity(p: PaperRecord)
    ensures Merge(p, Fields(p)) == p
  {
  }

  /** `{ ...data, id, createdAt }`: a new record built from the form. */
  function NewRecord(data: PaperData, id: PaperId, createdAt: int): (p: PaperRecord)
    ensures Fields(p) == data && p.id == id && p.createdAt == createdAt
  {
    PaperRecord(id, data.title, data.conference, data.tier, data.status, data.submissionDate,
                data.scoreReleaseDate, data.scores, data.rebuttalDate, data.finalScores,
                data.result, data.content, createdAt)
  }

  /** The edit applied to the list: the form's fields go into every record with `id`. */
  function MergeEdit(papers: seq<PaperRecord>, id: PaperId, data: PaperData): (r: seq<PaperRecord>)
    ensures |r| == |papers|
    ensures forall i :: 0 <= i < |papers| && papers[i].id == id ==>
              Fields(r[i]) == data && r[i].id == id && r[i].createdAt == papers[i].createdAt
    ensures forall i :: 0 <= i < |papers| && papers[i].id != id ==> r[i] == papers[i]
  {
    ReplaceById(papers, id, p => Merge(p, data))
  }

  /** The `filter` callbacks of delete and of the tab view. */
  function OtherId(id: PaperId): PaperRecord -> bool
  {
    (p: PaperRecord) => p.id != id
  }

  function InStatus(s: PaperStatus): PaperRecord -> bool
  {
    (p: PaperRecord) => p.status == s
  }

  /** `papers.filter(p => p.id !== id)`. */
  function RemoveId(papers: seq<PaperRecord>, id: PaperId): (r: seq<PaperRecord>)
    ensures forall p :: p in r <==> p in papers && p.id != id
    ensures forall p: PaperRecord :: p.id != id ==> multiset(r)[p] == multiset(papers)[p]
    ensures Find(papers, id).Some? ==> |r| < |papers|
  {
    Filter(papers, OtherId(id))
  }

  lemma RemoveIdCons(papers: seq<PaperRecord>, id: PaperId)
    requires papers != []
    ensures RemoveId(papers, id) == (if papers[0].id != id then [papers[0]] else []) + RemoveId(papers[1..], id)
  {
  }

  /** Removing an id nobody carries leaves the list exactly as it was. */
  lemma RemoveUnknownIdIsNoOp(papers: seq<PaperRecord>, id: PaperId)
    requires Find(papers, id).None?
    ensures RemoveId(papers, id) == papers
  {
    FilterKeepsAll(papers, OtherId(id));
  }

  /** Removal keeps the surviving records in their order: it distributes over concatenation. */
  lemma RemoveIdKeepsOrder(a: seq<PaperRecord>, b: seq<PaperRecord>, id: PaperId)
    ensures RemoveId(a + b, id) == RemoveId(a, id) + RemoveId(b, id)
  {
    FilterConcat(a, b, OtherId(id));
  }

  /** `papers.filter(p => p.status === s)`: one tab of the archive. */
  function ByStatus(papers: seq<PaperRecord>, s: PaperStatus): (r: seq<PaperRecord>)
    ensures forall p :: p in r <==> p in papers && p.status == s
    ensures forall p: PaperRecord :: p.status == s ==> multiset(r)[p] == multiset(papers)[p]
  {
    Filter(papers, InStatus(s))
  }

  /** The tab filter peels off the first record. */
  lemma ByStatusCons(papers: seq<PaperRecord>, s: PaperStatus)
    requires papers != []
    ensures |ByStatus(papers, s)| == (if papers[0].status == s then 1 else 0) + |ByStatus(papers[1..], s)|
  {
    assert papers == [papers[0]] + papers[1..];
  }

  /** The displayed tab keeps list order: it distributes over concatenation. */
  lemma ByStatusKeepsOrder(a: seq<PaperRecord>, b: seq<PaperRecord>, s: PaperStatus)
    ensures ByStatus(a + b, s) == ByStatus(a, s) + ByStatus(b, s)
  {
    FilterConcat(a, b, InStatus(s));
  }

  /** The number of records in each stage, as shown on the tabs. */
  datatype StatusCounts = StatusCounts(accepted: nat, submitted: nat, writing: nat, target: nat, rejected: nat)

  /** The tab counters; every record is counted on exactly one tab. */
  function Stats(papers: seq<PaperRecord>): (c: StatusCounts)
    ensures c.accepted == |ByStatus(papers, Accepted)| && c.submitted == |ByStatus(papers, Submitted)|
    ensures c.writing == |ByStatus(papers, Writing)| && c.target == |ByStatus(papers, Target)|
    ensures c.rejected == |ByStatus(papers, Rejected)|
    ensures c.accepted + c.submitted + c.writing + c.target + c.rejected == |papers|
  {
    StatusCountsCoverAll(papers);
    StatusCounts(|ByStatus(papers, Accepted)|, |ByStatus(papers, Submitted)|, |ByStatus(papers, Writing)|,
                 |ByStatus(papers, Target)|, |ByStatus(papers, Rejected)|)
  }

  /** The five tab filters split the list: their lengths add up to its length. */
  lemma {:induction false} StatusCountsCoverAll(papers: seq<PaperRecord>)
    ensures |ByStatus(papers, Accepted)| + |ByStatus(papers, Submitted)| + |ByStatus(papers, Writing)|
            + |ByStatus(papers, Target)| + |ByStatus(papers, Rejected)| == |papers|
  {
    if papers != [] {
      StatusCountsCoverAll(papers[1..]);
      ByStatusCons(papers, Accepted);
      ByStatusCons(papers, Submitted);
      ByStatusCons(papers, Writing);
      ByStatusCons(papers, Target);
      ByStatusCons(papers, Rejected);
    }
  }

  /** No two records share an id. The source does not enforce it (ids are
      random strings); the lemmas below show every operation keeps it. */
  ghost predicate UniqueIds(papers: seq<PaperRecord>)
  {
    forall i, j :: 0 <= i < j < |papers| ==> papers[i].id != papers[j].id
  }

  lemma UpdateStatusKeepsUniqueIds(papers: seq<PaperRecord>, id: PaperId, newStatus: PaperStatus)
    requires UniqueIds(papers)
    ensures UniqueIds(UpdateStatus(papers, id, newStatus))
  {
    var r := UpdateStatus(papers, id, newStatus);
    assert forall i :: 0 <= i < |r| ==> r[i].id == papers[i].id;
  }

  lemma MergeEditKeepsUniqueIds(papers: seq<PaperRecord>, id: PaperId, data: PaperData)
    requires UniqueIds(papers)
    ensures UniqueIds(MergeEdit(papers, id, data))
  {
    var r := MergeEdit(papers, id, data);
    assert forall i :: 0 <= i < |r| ==> r[i].id == papers[i].id;
  }

  lemma {:induction false} RemoveIdKeepsUniqueIds(papers: seq<PaperRecord>, id: PaperId)
    requires UniqueIds(papers)
    ensures UniqueIds(RemoveId(papers, id))
  {
    if papers != [] {
      RemoveIdKeepsUniqueIds(papers[1..], id);
      var rest := RemoveId(papers[1..], id);
      RemoveIdCons(papers, id);
      forall j | 0 <= j < |rest| ensures rest[j].id != papers[0].id {
        assert rest[j] in papers[1..];
      }
    }
  }

  /** Under unique ids the tail is unique too, and the head's id is not in it. */
  lemma UniqueIdsTail(papers: seq<PaperRecord>)
    requires UniqueIds(papers) && papers != []
    ensures UniqueIds(papers[1..])
    ensures Find(papers[1..], papers[0].id).None?
  {
    forall i | 0 <= i < |papers[1..]| ensures papers[1..][i].id != papers[0].id {
      assert papers[1..][i] == papers[i + 1];
    }
  }

  /** Prepending a record whose id is fresh keeps the ids unique. */
  lemma PrependFreshKeepsUniqueIds(papers: seq<PaperRecord>, p: PaperRecord)
    requires UniqueIds(papers)
    requires Find(papers, p.id).None?
    ensures UniqueIds([p] + papers)
  {
    var r := [p] + papers;
    forall i, j | 0 <= i < j < |r| ensures r[i].id != r[j].id {
      if i > 0 {
        assert r[i] == papers[i - 1] && r[j] == papers[j - 1];
      }
    }
  }
}
