/** The `verifications` table shared by the talent's and the admin's pages:
    its rows, the status badge, the filtered newest-first listing the pages ask
    the database for, and the two writes the pages make (insert a request,
    overwrite a request's status). */
module VerificationLog {

  import opened Common

  /** A row of `verifications`. `status` is free text in the table; the pages
      write only "pending", "approved" and "rejected". `createdAt` is the
      `created_at` timestamp as a number. */
  datatype Verification = Verification(
    id: Id,
    talentId: Id,
    skillId: Id,
    docUrl: string,
    status: string,
    createdAt: int)

  const PendingStatus: string := "pending"
  const ApprovedStatus: string := "approved"
  const RejectedStatus: string := "rejected"

  /** The selector value that applies no status restriction. */
  const AllFilter: string := "all"

  datatype Badge = ApprovedBadge | RejectedBadge | PendingBadge

  /** `getStatusBadge`: any status other than approved or rejected shows as Pending. */
  function StatusBadge(status: string): (b: Badge)
    ensures b == ApprovedBadge <==> status == ApprovedStatus
    ensures b == RejectedBadge <==> status == RejectedStatus
    ensures b == PendingBadge <==> status != ApprovedStatus && status != RejectedStatus
  {
    if status == ApprovedStatus then ApprovedBadge
    else if status == RejectedStatus then RejectedBadge
    else PendingBadge
  }

  /** `if (filter !== 'all') query = query.eq('status', filter)` */
  predicate MatchesFilter(v: Verification, filter: string) {
    filter == AllFilter || v.status == filter
  }

  /** `order('created_at', { ascending: false })`: newest first. */
  ghost predicate NewestFirst(s: seq<Verification>) {
    forall i, j :: 0 <= i < j < |s| ==> s[i].createdAt >= s[j].createdAt
  }

  /** Places `x` before the first row that is strictly older than it. */
  function InsertByTime(x: Verification, s: seq<Verification>): (r: seq<Verification>)
    ensures |r| == |s| + 1
    ensures multiset(r) == multiset(s) + multiset{x}
    ensures r[0] == x || (s != [] && r[0] == s[0])
    decreases |s|
  {
    if s == [] || x.createdAt >= s[0].createdAt then [x] + s
    else
      assert s == [s[0]] + s[1..];
      [s[0]] + InsertByTime(x, s[1..])
  }

  /** Inserting keeps a newest-first list newest first. */
  lemma {:induction false} InsertKeepsOrder(x: Verification, s: seq<Verification>)
    requires NewestFirst(s)
    ensures NewestFirst(InsertByTime(x, s))
    decreases |s|
  {
    if s != [] && x.createdAt < s[0].createdAt {
      InsertKeepsOrder(x, s[1..]);
      HeadNotOlder(x, s);
      ConsNewestFirst(s[0], InsertByTime(x, s[1..]));
    }
  }

  /** The row that stays in front is at least as new as everything inserted behind it. */
  lemma HeadNotOlder(x: Verification, s: seq<Verification>)
    requires NewestFirst(s) && s != [] && x.createdAt < s[0].createdAt
    ensures forall k :: 0 <= k < |InsertByTime(x, s[1..])| ==> s[0].createdAt >= InsertByTime(x, s[1..])[k].createdAt
  {
    var tail := s[1..];
    var rest := InsertByTime(x, tail);
    forall k | 0 <= k < |rest|
      ensures s[0].createdAt >= rest[k].createdAt
    {
      assert rest[k] in multiset(rest);
      if rest[k] != x {
        assert rest[k] in multiset(tail);
        var m :| 0 <= m < |tail| && tail[m] == rest[k];
        assert s[m + 1] == tail[m];
      }
    }
  }

  lemma ConsNewestFirst(h: Verification, rest: seq<Verification>)
    requires NewestFirst(rest)
    requires forall k :: 0 <= k < |rest| ==> h.createdAt >= rest[k].createdAt
    ensures NewestFirst([h] + rest)
  {
    var r := [h] + rest;
    forall i, j | 0 <= i < j < |r|
      ensures r[i].createdAt >= r[j].createdAt
    {
      assert r[j] == rest[j - 1];
      if i > 0 {
        assert r[i] == rest[i - 1];
      }
    }
  }

  /** One ordering the database may return: newest first, equal timestamps in
      table order. */
  function SortNewestFirst(s: seq<Verification>): (r: seq<Verification>)
    ensures NewestFirst(r)
    ensures multiset(r) == multiset(s)
    decreases |s|
  {
    if s == [] then []
    else
      assert s == [s[0]] + s[1..];
      InsertKeepsOrder(s[0], SortNewestFirst(s[1..]));
      InsertByTime(s[0], SortNewestFirst(s[1..]))
  }

  /** What a select with an equality filter `keep` and the newest-first order
      returns from the table `rows`. */
  function Listing(rows: seq<Verification>, keep: Verification -> bool): (r: seq<Verification>)
    ensures NewestFirst(r)
    ensures multiset(r) == multiset(Filter(rows, keep))
    ensures forall v :: v in r <==> v in rows && keep(v)
  {
    var r := SortNewestFirst(Filter(rows, keep));
    assert forall v :: v in r <==> v in multiset(r);
    r
  }

  /** The rows with id `id` get status `status`; nothing else changes. */
  function WithStatus(rows: seq<Verification>, id: Id, status: string): (r: seq<Verification>)
    ensures |r| == |rows|
    ensures forall i :: 0 <= i < |rows| && rows[i].id == id ==> r[i] == rows[i].(status := status)
    ensures forall i :: 0 <= i < |rows| && rows[i].id != id ==> r[i] == rows[i]
  {
    seq(|rows|, i requires 0 <= i < |rows| => if rows[i].id == id then rows[i].(status := status) else rows[i])
  }

  /** The `verifications` table, as the pages change it. */
  class VerificationTable {
    var rows: seq<Verification>

    constructor (initial: seq<Verification>)
      ensures rows == initial
    {
      rows := initial;
    }

    /** `insert([v])`: the database appends the new row. */
    method Insert(v: Verification)
      modifies this
      ensures rows == old(rows) + [v]
    {
      rows := rows + [v];
    }

    /** `update({ status }).eq('id', id)`, row by row. */
    method UpdateStatus(id: Id, status: string)
      modifies this
      ensures rows == WithStatus(old(rows), id, status)
    {
      var i := 0;
      while i < |rows|
        invariant 0 <= i <= |rows| == |old(rows)|
        invariant forall k :: 0 <= k < i ==> rows[k] == WithStatus(old(rows), id, status)[k]
        invariant forall k :: i <= k < |rows| ==> rows[k] == old(rows)[k]
      {
        if rows[i].id == id {
          rows := rows[i := rows[i].(status := status)];
        }
        i := i + 1;
      }
    }
  }

  /** A status update touches only the `status` field of the rows it names:
      ids, talents, skills, documents and timestamps stay as they were. */
  lemma StatusUpdateChangesOnlyStatus(rows: seq<Verification>, id: Id, status: string, i: int)
    requires 0 <= i < |rows|
    ensures WithStatus(rows, id, status)[i].(status := rows[i].status) == rows[i]
    ensures WithStatus(rows, id, status)[i].status == (if rows[i].id == id then status else rows[i].status)
  {
  }
}
