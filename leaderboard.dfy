/**
  The `leaderboard` materialized view of app/api/setup/init-db/route.ts:
  users ordered by `total_earned DESC`, numbered by `ROW_NUMBER()` in that
  order, at most 100 rows.  SQL leaves the order of equal totals open; the
  model keeps the table order for them.
*/
module Leaderboard {
  import opened Wrappers
  import opened Schema

  const Limit: nat := 100

  datatype Row = Row(id: UserId, username: Option<string>, firstName: Option<string>,
                     photoUrl: Option<string>, totalEarned: int, rank: nat)

  function RowOf(u: User, rank: nat): Row {
    Row(u.id, u.username, u.firstName, u.photoUrl, u.totalEarned, rank)
  }

  predicate Descending(s: seq<User>) {
    forall i, j :: 0 <= i < j < |s| ==> s[i].totalEarned >= s[j].totalEarned
  }

  /** Places `u` before the first user who has earned no more than `u`. */
  function InsertByEarnings(u: User, s: seq<User>): seq<User> {
    if s == [] then [u]
    else if s[0].totalEarned > u.totalEarned then [s[0]] + InsertByEarnings(u, s[1..])
    else [u] + s
  }

  lemma {:induction false} InsertByEarningsBag(u: User, s: seq<User>)
    ensures multiset(InsertByEarnings(u, s)) == multiset(s) + multiset{u}
  {
    if s != [] {
      assert s == [s[0]] + s[1..];
      if s[0].totalEarned > u.totalEarned {
        InsertByEarningsBag(u, s[1..]);
      }
    }
  }

  /** No one in `s` has earned more than `b`. */
  predicate AtMost(s: seq<User>, b: int) {
    forall i :: 0 <= i < |s| ==> s[i].totalEarned <= b
  }

  lemma {:induction false} InsertAtMost(u: User, s: seq<User>, b: int)
    requires AtMost(s, b) && u.totalEarned <= b
    ensures AtMost(InsertByEarnings(u, s), b)
  {
    if s != [] && s[0].totalEarned > u.totalEarned {
      InsertAtMost(u, s[1..], b);
    }
  }

  lemma DescendingTail(s: seq<User>)
    requires Descending(s) && s != []
    ensures Descending(s[1..]) && AtMost(s[1..], s[0].totalEarned) && AtMost(s, s[0].totalEarned)
  {
    forall i, j | 0 <= i < j < |s[1..]| ensures s[1..][i].totalEarned >= s[1..][j].totalEarned {
      assert s[1..][i] == s[i + 1] && s[1..][j] == s[j + 1];
    }
    forall i | 0 <= i < |s[1..]| ensures s[1..][i].totalEarned <= s[0].totalEarned {
      assert s[1..][i] == s[i + 1];
    }
  }

  lemma DescendingCons(x: User, s: seq<User>)
    requires Descending(s) && AtMost(s, x.totalEarned)
    ensures Descending([x] + s)
  {
    var r := [x] + s;
    forall i, j | 0 <= i < j < |r| ensures r[i].totalEarned >= r[j].totalEarned {
      assert r[j] == s[j - 1];
      if i > 0 { assert r[i] == s[i - 1]; }
    }
  }

  lemma {:induction false} InsertByEarningsDescending(u: User, s: seq<User>)
    requires Descending(s)
    ensures Descending(InsertByEarnings(u, s))
  {
    if s != [] {
      DescendingTail(s);
      if s[0].totalEarned > u.totalEarned {
        InsertByEarningsDescending(u, s[1..]);
        InsertAtMost(u, s[1..], s[0].totalEarned);
        DescendingCons(s[0], InsertByEarnings(u, s[1..]));
      } else {
        assert AtMost(s, u.totalEarned);
        DescendingCons(u, s);
      }
    }
  }

  /** `ORDER BY total_earned DESC`. */
  function SortByEarnings(users: seq<User>): seq<User> {
    if users == [] then [] else InsertByEarnings(users[0], SortByEarnings(users[1..]))
  }

  lemma {:induction false} SortByEarningsSpec(users: seq<User>)
    ensures multiset(SortByEarnings(users)) == multiset(users)
    ensures Descending(SortByEarnings(users))
  {
    if users != [] {
      SortByEarningsSpec(users[1..]);
      InsertByEarningsBag(users[0], SortByEarnings(users[1..]));
      InsertByEarningsDescending(users[0], SortByEarnings(users[1..]));
      assert users == [users[0]] + users[1..];
    }
  }

  /** The first 100 users in leaderboard order. */
  function Top(users: seq<User>): seq<User> {
    var sorted := SortByEarnings(users);
    if |sorted| <= Limit then sorted else sorted[..Limit]
  }

  /** The view's rows. */
  function View(users: seq<User>): seq<Row> {
    var top := Top(users);
    seq(|top|, i requires 0 <= i < |top| => RowOf(top[i], i + 1))
  }

  /** `Top` is the sorted table, cut at 100 rows. */
  lemma TopSpec(users: seq<User>)
    ensures |Top(users)| == if |users| <= Limit then |users| else Limit
    ensures Descending(Top(users))
    ensures forall i :: 0 <= i < |Top(users)| ==> Top(users)[i] == SortByEarnings(users)[i]
    ensures multiset(SortByEarnings(users)) == multiset(users)
  {
    var sorted := SortByEarnings(users);
    SortByEarningsSpec(users);
    assert |sorted| == |multiset(sorted)| == |users|;
  }

  /**
    The view holds the `min(n, 100)` best earners, ranked 1, 2, ... in order
    of non-increasing totals.
  */
  lemma ViewShape(users: seq<User>)
    ensures |View(users)| == if |users| <= Limit then |users| else Limit
    ensures forall i :: 0 <= i < |View(users)| ==> View(users)[i].rank == i + 1
    ensures forall i, j :: 0 <= i < j < |View(users)| ==> View(users)[i].totalEarned >= View(users)[j].totalEarned
  {
    TopSpec(users);
    var top := Top(users);
    var v := View(users);
    forall i, j | 0 <= i < j < |v| ensures v[i].totalEarned >= v[j].totalEarned {
      assert v[i] == RowOf(top[i], i + 1) && v[j] == RowOf(top[j], j + 1);
    }
  }

  /** Every row of the view is some user's, ranked by its position. */
  lemma ViewRowIsUser(users: seq<User>, i: nat)
    requires i < |View(users)|
    ensures exists u :: u in users && View(users)[i] == RowOf(u, i + 1)
  {
    TopSpec(users);
    var sorted := SortByEarnings(users);
    var u := Top(users)[i];
    assert u == sorted[i];
    assert u in multiset(users);
    assert u in users && View(users)[i] == RowOf(u, i + 1);
  }

  /**
    No one is missing: with at most 100 users all of them are listed, and
    otherwise anyone who earned more than the 100th row is.
  */
  lemma ViewComplete(users: seq<User>, u: User)
    requires u in users
    requires |users| <= Limit || (|View(users)| >= Limit && u.totalEarned > View(users)[Limit - 1].totalEarned)
    ensures exists i :: 0 <= i < |View(users)| && View(users)[i] == RowOf(u, i + 1)
  {
    TopSpec(users);
    var sorted := SortByEarnings(users);
    var v := View(users);
    assert u in multiset(sorted);
    var k :| 0 <= k < |sorted| && sorted[k] == u;
    SortByEarningsSpec(users);
    if k >= Limit {
      assert false;
    }
    assert v[k] == RowOf(u, k + 1);
  }

  /** A row with a strictly higher total always has a strictly smaller rank. */
  lemma HigherTotalBetterRank(users: seq<User>, i: nat, j: nat)
    requires i < |View(users)| && j < |View(users)|
    requires View(users)[i].totalEarned > View(users)[j].totalEarned
    ensures View(users)[i].rank < View(users)[j].rank
  {
    ViewShape(users);
  }
}
