/** The theorems about runs hold of the services: whatever they are asked, in any order, they make a run. */
module ServiceTheorems {
  import opened ChatDb
  import opened Runs
  import opened Tables
  import opened ChatInvariant
  import opened BurnTheorems
  import Auth = AuthSpec
  import Presence = PresenceSpec

  /** `after` is what the database held after each of the requests `ops`, in turn. */
  ghost predicate Served(cfg: Config, s: Db, ops: seq<Op>, after: seq<Db>)
    decreases |ops|
  {
    if ops == [] then
      after == []
    else
      after != [] && Performs(cfg, s, ops[0], after[0]) && Served(cfg, after[0], ops[1..], after[1..])
  }

  /** A served sequence of requests is a run, and every state on the way is reachable and consistent. */
  lemma {:induction false} ServedRequestsAreRuns(cfg: Config, s: Db, ops: seq<Op>, after: seq<Db>)
    requires Reachable(cfg, s) && Served(cfg, s, ops, after)
    ensures |after| == |ops| && Run(cfg, s, ops)
    ensures Exec(cfg, s, ops) == if after == [] then s else after[|after| - 1]
    ensures forall i | 0 <= i < |after| :: Reachable(cfg, after[i]) && Consistent(cfg, after[i])
    decreases |ops|
  {
    hide Reachable, Consistent, Step, Enabled;
    if ops != [] {
      ReachableStep(cfg, s, ops[0]);
      ReachableIsConsistent(cfg, after[0]);
      ServedRequestsAreRuns(cfg, after[0], ops[1..], after[1..]);
      assert forall i | 0 < i < |after| :: after[i] == after[1..][i - 1];
    }
  }

  // ----- accounts -----

  /** `after` is what tables and cache held after each of the requests `ops`, in turn. */
  ghost predicate AccountsServed(cfg: Auth.AuthSettings, s: Auth.AuthDb, ops: seq<Auth.AuthOp>, after: seq<Auth.AuthDb>) {
    && |after| == |ops|
    && (ops != [] ==>
          var n := |ops| - 1;
          && AccountsServed(cfg, s, ops[..n], after[..n])
          && Auth.AuPerforms(cfg, if n == 0 then s else after[n - 1], ops[n], after[n]))
  }

  /** A served sequence of account requests is a run, and every state on the way is the run's. */
  lemma {:induction false} AccountRequestsAreRuns(cfg: Auth.AuthSettings, s: Auth.AuthDb, ops: seq<Auth.AuthOp>, after: seq<Auth.AuthDb>)
    requires AccountsServed(cfg, s, ops, after)
    ensures Auth.AuRun(cfg, s, ops)
    ensures forall i | 0 <= i < |ops| :: after[i] == Auth.AuExec(cfg, s, ops[..i + 1])
    ensures Auth.AuExec(cfg, s, ops) == if ops == [] then s else after[|after| - 1]
  {
    hide Auth.AuStep, Auth.AuEnabled;
    if ops != [] {
      var n := |ops| - 1;
      AccountRequestsAreRuns(cfg, s, ops[..n], after[..n]);
      assert ops[..n + 1] == ops;
      forall i | 0 <= i < n ensures after[i] == Auth.AuExec(cfg, s, ops[..i + 1]) {
        assert after[..n][i] == after[i] && ops[..n][..i + 1] == ops[..i + 1];
      }
    }
  }

  // ----- presence -----

  /** `after` is what the gateway and its table held after each statement or event, in turn. */
  ghost predicate PresenceServed(s: Presence.State, ops: seq<Presence.PresenceOp>, after: seq<Presence.State>)
    decreases |ops|
  {
    if ops == [] then
      after == []
    else
      && after != [] && Presence.Possible(s, ops[0]) && after[0] == Presence.After(s, ops[0])
      && PresenceServed(after[0], ops[1..], after[1..])
  }

  /** However the gateway's statements and the scheduler's sweeps interleave, they lead from state to state of the run model. */
  lemma {:induction false} StatementsAreRuns(s: Presence.State, ops: seq<Presence.PresenceOp>, after: seq<Presence.State>)
    requires PresenceServed(s, ops, after)
    ensures |after| == |ops|
    ensures Presence.Leads(s, ops, if after == [] then s else after[|after| - 1])
    decreases |ops|
  {
    hide Presence.Possible, Presence.After;
    if ops != [] {
      StatementsAreRuns(after[0], ops[1..], after[1..]);
    }
  }
}
