/**
  The `POST` handler of app/api/setup/init-db/route.ts: it sends the four
  migrations to the `exec_sql` RPC one after the other; when a call fails
  it sends a probe query, and when that fails too it logs the migration as
  failed and goes on.  Whatever happened, it answers with success; only an
  exception while building the database client gives a 500.  The SQL the
  migrations contain is modelled by the Schema, Ledger, ReferralCode and
  Leaderboard modules; here only the control flow is.
*/
module Migrations {
  import opened Wrappers

  datatype Migration = UsersTable | TransactionsTable | LeaderboardView | HelperFunctions

  const All: seq<Migration> := [UsersTable, TransactionsTable, LeaderboardView, HelperFunctions]

  /** What the server answered for one migration: did the RPC fail, and did the probe query fail? */
  datatype Outcome = Outcome(rpcFailed: bool, probeFailed: bool)

  datatype Response = Response(status: nat, success: bool, message: string)

  const Initialized := Response(200, true, "Database initialized successfully")

  /** A migration is logged as failed when its RPC and the probe both fail. */
  predicate Logged(o: Outcome) { o.rpcFailed && o.probeFailed }

  /** The 1-based numbers the handler logs, in the order it logs them. */
  function FailedLog(outcomes: seq<Outcome>): seq<nat> {
    if outcomes == [] then []
    else FailedLog(outcomes[..|outcomes| - 1]) + (if Logged(outcomes[|outcomes| - 1]) then [|outcomes|] else [])
  }

  /**
    The log lists, in increasing order, exactly the numbers of the
    migrations whose RPC and probe both failed.
  */
  lemma {:induction false} FailedLogSpec(outcomes: seq<Outcome>)
    ensures forall k :: k in FailedLog(outcomes) <==> 1 <= k <= |outcomes| && Logged(outcomes[k - 1])
    ensures forall i, j :: 0 <= i < j < |FailedLog(outcomes)| ==> FailedLog(outcomes)[i] < FailedLog(outcomes)[j]
  {
    if outcomes != [] {
      var init := outcomes[..|outcomes| - 1];
      FailedLogSpec(init);
      forall k ensures k in FailedLog(outcomes) <==> 1 <= k <= |outcomes| && Logged(outcomes[k - 1]) {
        if 1 <= k < |outcomes| { assert outcomes[k - 1] == init[k - 1]; }
      }
      var log := FailedLog(outcomes);
      forall i, j | 0 <= i < j < |log| ensures log[i] < log[j] {
        if j == |FailedLog(init)| {
          assert log[i] in FailedLog(init);
        }
      }
    }
  }

  /** The handler: `clientError` is an exception raised while creating the database client. */
  method Initialize(clientError: Option<string>, outcomes: seq<Outcome>)
    returns (response: Response, ran: seq<Migration>, log: seq<nat>)
    requires |outcomes| == |All|
    ensures clientError.Some? ==> response == Response(500, false, clientError.value) && ran == [] && log == []
    ensures clientError.None? ==> response == Initialized && ran == All && log == FailedLog(outcomes)
  {
    if clientError.Some? {
      return Response(500, false, clientError.value), [], [];
    }
    ran, log := [], [];
    for i := 0 to |All|
      invariant ran == All[..i]
      invariant log == FailedLog(outcomes[..i])
    {
      ran := ran + [All[i]];
      assert outcomes[..i + 1][..i] == outcomes[..i];
      if outcomes[i].rpcFailed {
        if outcomes[i].probeFailed {
          log := log + [i + 1];
        }
      }
    }
    assert outcomes[..|All|] == outcomes;
    response := Initialized;
  }
}
