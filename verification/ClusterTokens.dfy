/** How many nodes a join token buys in the running cluster: the registrations that a run
    commits with it are counted as they happen. */
module ClusterTokens {
  import opened Types
  import opened Store
  import opened StoreProofs
  import C = Cluster
  import CS = ClusterSafety
  import CP = ClusterProgress

  /** The action commits a registration with that token. */
  ghost predicate Buys(c: C.Cluster, a: C.Action, token: Token)
    requires C.CanAct(c, a)
  {
    a.StoreStep? && a.step.CommitRegister? && c.sys.txs[a.step.t].reg.token == token
  }

  /** The nodes that a run creates with a token, in the order of their commits. */
  ghost function Bought(c: C.Cluster, acts: seq<C.Action>, token: Token): seq<Uuid>
    requires C.Runs(c, acts)
    decreases |acts|
  {
    if acts == [] then []
    else
      (if Buys(c, acts[0], token) then [c.sys.txs[acts[0].step.t].phase.id] else [])
      + Bought(C.Act(c, acts[0]), acts[1..], token)
  }

  lemma BuyingSpends(c: C.Cluster, a: C.Action, token: Token)
    requires CS.Inv(c) && C.CanAct(c, a) && Buys(c, a, token)
    ensures !Spent(c.sys.db, token) && Spent(C.Act(c, a).sys.db, token)
  {
    CommittedRegisterIsSerial(c.sys, a.step);
  }

  /** A run from tables in which the token is used creates no node with it, and any other run
      at most one. */
  lemma {:induction false} BoughtAtMost(c: C.Cluster, acts: seq<C.Action>, token: Token)
    requires CS.Inv(c) && C.Runs(c, acts)
    ensures |Bought(c, acts, token)| <= (if Spent(c.sys.db, token) then 0 else 1)
    decreases |acts|
  {
    if acts != [] {
      if Buys(c, acts[0], token) {
        BuyingSpends(c, acts[0], token);
      }
      CP.ActionExtends(c, acts[0]);
      CS.ActionKeepsInv(c, acts[0]);
      BoughtAtMost(C.Act(c, acts[0]), acts[1..], token);
    }
  }

  /** Over every run, however many agents use a token, restart, and lose their replies, at most
      one registration with it is ever committed. */
  lemma TokenBuysOneNode(c: C.Cluster, acts: seq<C.Action>, token: Token)
    requires C.Initial(c) && C.Runs(c, acts)
    ensures |Bought(c, acts, token)| <= 1
  {
    CS.InitialInv(c);
    BoughtAtMost(c, acts, token);
  }

  // ---------------------------------------------------------------- the count misses nothing

  lemma StatementAddsNode(s: Sys, step: Step, n: Uuid)
    requires Enabled(s, step)
    ensures n in After(s, step).db.nodes <==> n in s.db.nodes || (step.CommitRegister? && n == s.txs[step.t].phase.id)
  {
  }

  lemma ActionAddsNode(c: C.Cluster, a: C.Action, n: Uuid)
    requires C.CanAct(c, a)
    ensures n in C.Act(c, a).sys.db.nodes <==>
              n in c.sys.db.nodes || (a.StoreStep? && a.step.CommitRegister? && n == c.sys.txs[a.step.t].phase.id)
  {
    CP.StatementIs(c, a);
    if CP.StatementOf(c, a).Some? {
      StatementAddsNode(c.sys, CP.StatementOf(c, a).value, n);
    }
  }

  ghost predicate BoughtSome(c: C.Cluster, acts: seq<C.Action>, n: Uuid)
    requires C.Runs(c, acts)
  {
    exists token :: n in Bought(c, acts, token)
  }

  /** The nodes at the end are those at the start and those bought on the way. */
  lemma {:induction false} NodesAreBought(c: C.Cluster, acts: seq<C.Action>, n: Uuid)
    requires C.Runs(c, acts)
    ensures n in C.End(c, acts).sys.db.nodes <==> n in c.sys.db.nodes || BoughtSome(c, acts, n)
    decreases |acts|
  {
    if acts == [] {
      assert forall token :: Bought(c, acts, token) == [];
    } else {
      var c', rest := C.Act(c, acts[0]), acts[1..];
      ActionAddsNode(c, acts[0], n);
      NodesAreBought(c', rest, n);
      BoughtFirst(c, acts, n);
    }
  }

  lemma BoughtFirst(c: C.Cluster, acts: seq<C.Action>, n: Uuid)
    requires C.Runs(c, acts) && acts != []
    ensures BoughtSome(c, acts, n) <==>
              || BoughtSome(C.Act(c, acts[0]), acts[1..], n)
              || (acts[0].StoreStep? && acts[0].step.CommitRegister? && n == c.sys.txs[acts[0].step.t].phase.id)
  {
    var c', rest := C.Act(c, acts[0]), acts[1..];
    if token :| n in Bought(c, acts, token) {
      assert (Buys(c, acts[0], token) && n == c.sys.txs[acts[0].step.t].phase.id) || n in Bought(c', rest, token);
    }
    if token :| n in Bought(c', rest, token) {
      assert n in Bought(c, acts, token);
    }
    if acts[0].StoreStep? && acts[0].step.CommitRegister? && n == c.sys.txs[acts[0].step.t].phase.id {
      assert n in Bought(c, acts, c.sys.txs[acts[0].step.t].reg.token);
    }
  }

  // ---------------------------------------------------------------- after the credential is saved

  lemma RepliesComeFromCommits(c: C.Cluster, a: C.Action, msg: C.Message)
    requires C.CanAct(c, a) && msg in C.Act(c, a).net && msg.RegisterReply?
    ensures msg in c.net || (Buys(c, a, msg.token) && msg.node == c.sys.txs[a.step.t].phase.id)
  {
  }

  /** A registration reply names a node that was bought with its token. */
  lemma {:induction false} RepliesAreBought(c: C.Cluster, acts: seq<C.Action>, msg: C.Message)
    requires C.Runs(c, acts) && msg in C.End(c, acts).net && msg.RegisterReply?
    ensures msg in c.net || msg.node in Bought(c, acts, msg.token)
    decreases |acts|
  {
    if acts != [] {
      RepliesAreBought(C.Act(c, acts[0]), acts[1..], msg);
      if msg in C.Act(c, acts[0]).net {
        RepliesComeFromCommits(c, acts[0], msg);
      }
    }
  }

  /** Once a machine has saved the credential that a token bought, that is the one node created
      with the token so far, and no run ever creates another. */
  lemma SavedTokenIsSpent(c: C.Cluster, before: seq<C.Action>, after: seq<C.Action>, m: nat)
    requires C.Initial(c) && C.Runs(c, before) && C.Runs(C.End(c, before), after)
    requires m in C.End(c, before).machines && C.End(c, before).machines[m].slot.Saved?
    ensures var c1 := C.End(c, before);
            var slot := c1.machines[m].slot;
            exists token :: C.RegisterReply(m, token, slot.node, slot.credential) in c1.net
                            && Bought(c, before, token) == [slot.node] && Bought(c1, after, token) == []
  {
    var c1 := C.End(c, before);
    var slot := c1.machines[m].slot;
    CS.InitialInv(c);
    CS.RunKeepsInv(c, before);
    assert CS.MachineOk(c1.sys.db, c1.net, m, c1.machines[m]);
    var token :| C.RegisterReply(m, token, slot.node, slot.credential) in c1.net;
    ReplySpends(c1, C.RegisterReply(m, token, slot.node, slot.credential));
    RepliesAreBought(c, before, C.RegisterReply(m, token, slot.node, slot.credential));
    TokenBuysOneNode(c, before, token);
    BoughtAtMost(c1, after, token);
    OnlyMember(Bought(c, before, token), slot.node);
  }

  lemma ReplySpends(c: C.Cluster, msg: C.Message)
    requires CS.Inv(c) && msg in c.net && msg.RegisterReply?
    ensures Spent(c.sys.db, msg.token)
  {
    assert CS.MessageOk(c.sys.db, c.machines, msg);
  }

  lemma OnlyMember(s: seq<Uuid>, x: Uuid)
    requires |s| <= 1 && x in s
    ensures s == [x]
  {
  }
}
