/** Consensus and state machine together: every server of a cluster with the databases it stores. The
    apply loop changes them one committed entry at a time and stays in front of a fatal one; a restart
    clears the main database and applies the log again. The replicas never diverge. */
module Replicas {
  import opened RaftServer
  import opened RaftCluster
  import opened RaftLogs
  import S = RaftSafety
  import D = RaftFile
  import M = StateMachine
  import R = Replay

  /** The cluster, what each server's databases hold, and how far each server ever got (a record that no
      step reads). */
  datatype System = System(cluster: Cluster, dbs: map<NodeId, M.Databases>, furthest: map<NodeId, nat>)

  /** There is a committed entry that the server has not applied. */
  predicate HasNext(s: Server) { s.lastApplied < s.commitIndex < |s.log| }

  /** A server's next entry, applied to its databases. */
  function Attempt(w: M.Wiring, y: System, i: NodeId): (M.Databases, M.Result)
    requires i in y.cluster.nodes && i in y.dbs && HasNext(y.cluster.nodes[i])
  {
    M.ApplyEntry(w, y.dbs[i], y.cluster.nodes[i].log[y.cluster.nodes[i].lastApplied + 1])
  }

  predicate Stored(y: System) {
    y.dbs.Keys == y.cluster.nodes.Keys && y.furthest.Keys == y.cluster.nodes.Keys
  }

  /** The actions of the cluster. The apply loop does not get past a fatal entry, and a server starts
      with lastApplied set to 0. */
  predicate CanStep(w: M.Wiring, y: System, a: Action)
    requires Stored(y)
  {
    && Enabled(y.cluster, a)
    && (a.ApplyEntry? && HasNext(y.cluster.nodes[a.node]) ==> Attempt(w, y, a.node).1 != M.Fatal)
    && (a.Restart? ==> a.applied == 0)
  }

  ghost function NextSystem(w: M.Wiring, y: System, a: Action): System
    requires Stored(y) && CanStep(w, y, a)
  {
    var c := Next(y.cluster, a);
    if a.ApplyEntry? && HasNext(y.cluster.nodes[a.node]) then
      System(c, y.dbs[a.node := Attempt(w, y, a.node).0],
             y.furthest[a.node := R.Max(y.furthest[a.node], y.cluster.nodes[a.node].lastApplied + 1)])
    else if a.Restart? then System(c, y.dbs[a.node := R.Restarted(y.dbs[a.node])], y.furthest)
    else System(c, y.dbs, y.furthest)
  }

  ghost predicate Starts(first: M.Databases, y: System) {
    && Init(y.cluster) && Stored(y)
    && forall i :: i in y.cluster.nodes ==> y.dbs[i] == first && y.furthest[i] == 0
  }

  ghost predicate Steps(w: M.Wiring, y: System, a: Action, y': System) {
    Stored(y) && CanStep(w, y, a) && y' == NextSystem(w, y, a)
  }

  ghost predicate IsSystemRun(w: M.Wiring, first: M.Databases, ys: seq<System>, actions: seq<Action>) {
    && |ys| == |actions| + 1 && Starts(first, ys[0])
    && forall k :: 0 <= k < |actions| ==> Steps(w, ys[k], actions[k], ys[k + 1])
  }

  /** The clusters of a run of the system. */
  ghost function Clusters(ys: seq<System>): (r: seq<Cluster>)
    ensures |r| == |ys| && forall k :: 0 <= k < |ys| ==> r[k] == ys[k].cluster
  {
    if ys == [] then [] else [ys[0].cluster] + Clusters(ys[1..])
  }

  /** A run of the system is a run of its cluster. */
  lemma {:induction false} ClusterRun(w: M.Wiring, first: M.Databases, ys: seq<System>, actions: seq<Action>)
    requires IsSystemRun(w, first, ys, actions)
    ensures IsRun(Clusters(ys), actions)
  {
    hide Enabled, Next, Init;
    forall k | 0 <= k < |actions|
      ensures Taken(Clusters(ys)[k], actions[k], Clusters(ys)[k + 1])
    {
      assert Steps(w, ys[k], actions[k], ys[k + 1]);
    }
  }

  // ------------------------------------------------------------------ the invariant

  /** The entries a server knows to be committed. */
  function Committed(s: Server): seq<LogEntry>
    requires s.commitIndex < |s.log|
  {
    s.log[1..s.commitIndex + 1]
  }

  /** What server i stores is exactly its applied entries folded in, none of them fatal, and its log
      database exactly the longest prefix it ever applied. */
  ghost predicate ServerSound(w: M.Wiring, first: M.Databases, y: System, i: NodeId) {
    && i in y.cluster.nodes && i in y.dbs && i in y.furthest
    && y.cluster.nodes[i].commitIndex < |y.cluster.nodes[i].log|
    && R.Sound(w, first, Committed(y.cluster.nodes[i]),
               R.Node(y.dbs[i], y.cluster.nodes[i].lastApplied, y.furthest[i]))
  }

  ghost predicate SystemSound(w: M.Wiring, first: M.Databases, y: System) {
    Stored(y) && forall i :: i in y.cluster.nodes ==> ServerSound(w, first, y, i)
  }

  predicate NoRestarts(actions: seq<Action>) {
    forall k :: 0 <= k < |actions| ==> !actions[k].Restart?
  }

  /** Replaying what the server has committed is invisible. */
  ghost predicate SteadyServer(w: M.Wiring, first: M.Databases, s: Server) {
    s.commitIndex < |s.log| && M.NoLogRename(Committed(s)) && R.Steady(w, first, Committed(s))
  }

  /** Restarts are clean, and if there are any, replaying what was committed is invisible. */
  ghost predicate Orderly(w: M.Wiring, first: M.Databases, ys: seq<System>, actions: seq<Action>) {
    && first.main == map[]
    && CleanRestarts(Clusters(ys), actions)
    && (NoRestarts(actions) ||
        forall k, i :: 0 <= k < |ys| && i in ys[k].cluster.nodes ==> SteadyServer(w, first, ys[k].cluster.nodes[i]))
  }

  /** A prefix of committed entries stays one. */
  lemma {:induction false} SoundExtends(w: M.Wiring, first: M.Databases, es: seq<LogEntry>, more: seq<LogEntry>, n: R.Node)
    requires R.Sound(w, first, es, n) && es <= more
    ensures R.Sound(w, first, more, n)
  {
    hide M.After, M.Clean;
    assert more[..n.applied] == es[..n.applied] && more[..n.furthest] == es[..n.furthest];
  }

  lemma {:induction false} SameApplied(c: Cluster, a: Action)
    requires Enabled(c, a) && !a.ApplyEntry? && !a.Restart?
    ensures NextServer(c, a).lastApplied == c.nodes[Actor(a)].lastApplied
  {
    hide AppendNew, CommitSearch, ConflictIndex, SetAll;
  }

  /** The apply loop's step on the stored databases is a step of the replay model. */
  lemma {:induction false} ApplySound(w: M.Wiring, first: M.Databases, es: seq<LogEntry>, n: R.Node)
    requires first.main == map[] && R.Sound(w, first, es, n) && n.applied < |es|
    requires n.applied == n.furthest || (M.NoLogRename(es) && R.Steady(w, first, es))
    requires M.ApplyEntry(w, n.dbs, es[n.applied]).1 != M.Fatal
    ensures R.Sound(w, first, es, R.Node(M.ApplyEntry(w, n.dbs, es[n.applied]).0, n.applied + 1,
                                         R.Max(n.furthest, n.applied + 1)))
  {
    hide M.ApplyEntry, M.After, M.Clean, M.NoLogRename, R.Steady;
    if n.applied < n.furthest {
      R.ApplyNextKeeps(w, first, es, n);
    } else {
      M.AfterSnoc(w, first, es, n.applied);
      assert n.dbs == M.After(w, first, es[..n.applied]);
    }
  }

  /** Without restarts nothing is ever applied twice. */
  lemma {:induction false} NeverBehind(w: M.Wiring, first: M.Databases, ys: seq<System>, actions: seq<Action>,
                      k: nat, i: NodeId)
    requires IsSystemRun(w, first, ys, actions) && NoRestarts(actions) && k < |ys| && i in ys[k].cluster.nodes
    ensures i in ys[k].furthest && ys[k].cluster.nodes[i].lastApplied == ys[k].furthest[i]
  {
    hide Enabled, NextServer, Record, Sent, Attempt, IsRun;
    if k > 0 {
      var y, a := ys[k - 1], actions[k - 1];
      assert Steps(w, y, a, ys[k]);
      assert Actor(a) in y.cluster.nodes by { ActorIsServer(y.cluster, a); }
      NeverBehind(w, first, ys, actions, k - 1, i);
      if i == Actor(a) {
        ClusterRun(w, first, ys, actions);
        assert CleanRestarts(Clusters(ys), actions);
        S.CommittedForever(Clusters(ys), actions, k - 1, k - 1, i);
        if a.ApplyEntry? { ApplyAdvances(y.cluster, a); } else { SameApplied(y.cluster, a); }
      }
    }
  }

  lemma {:induction false} ActorIsServer(c: Cluster, a: Action)
    requires Enabled(c, a)
    ensures Actor(a) in c.nodes
  {
  }

  lemma {:induction false} ApplyAdvances(c: Cluster, a: Action)
    requires Enabled(c, a) && a.ApplyEntry?
    ensures var s := c.nodes[a.node];
            NextServer(c, a) == if s.lastApplied < s.commitIndex then s.(lastApplied := s.lastApplied + 1) else s
  {
  }

  lemma {:induction false} RestartReloads(c: Cluster, a: Action)
    requires D.FilesOk(c) && Enabled(c, a) && a.Restart? && CleanAction(c, a)
    ensures var s, s' := c.nodes[a.node], NextServer(c, a);
            s'.lastApplied == a.applied && s'.log == s.log && s'.commitIndex == s.commitIndex
  {
    hide D.FilesOk, Load, NoTail, AllLegible;
    D.CleanLog(c, a.node);
  }

  lemma {:induction false} SliceFrom(a: Log, b: Log, n: nat)
    requires 1 <= n <= |a| && n <= |b| && a[..n] == b[..n]
    ensures a[1..n] == b[1..n]
  {
    assert a[1..n] == a[..n][1..] && b[1..n] == b[..n][1..];
  }

  /** What a server knows to be committed only gets longer. */
  lemma {:induction false} CommittedGrows(states: seq<Cluster>, actions: seq<Action>, k1: nat, k2: nat, i: NodeId)
    requires IsRun(states, actions) && CleanRestarts(states, actions) && k1 <= k2 < |states| && i in states[k1].nodes
    ensures i in states[k2].nodes
    ensures var s1, s2 := states[k1].nodes[i], states[k2].nodes[i];
            && s1.commitIndex < |s1.log| && s2.commitIndex < |s2.log|
            && Committed(s1) <= Committed(s2)
  {
    hide IsRun, CleanRestarts;
    S.CommittedForever(states, actions, k1, k1, i);
    S.CommittedForever(states, actions, k1, k2, i);
    var s1, s2 := states[k1].nodes[i], states[k2].nodes[i];
    assert s1.log[..s1.commitIndex + 1] == s2.log[..s1.commitIndex + 1];
    SliceFrom(s1.log, s2.log, s1.commitIndex + 1);
  }

  lemma {:induction false} StartSound(w: M.Wiring, first: M.Databases, y: System)
    requires Starts(first, y)
    ensures SystemSound(w, first, y)
  {
    forall i | i in y.cluster.nodes
      ensures ServerSound(w, first, y, i)
    {
      R.StartSound(w, first, Committed(y.cluster.nodes[i]));
    }
  }

  /** One step of one server. */
  lemma {:induction false} ActorSound(w: M.Wiring, first: M.Databases, y: System, a: Action, y': System)
    requires first.main == map[] && Steps(w, y, a, y') && D.FilesOk(y.cluster) && CleanAction(y.cluster, a)
    requires ServerSound(w, first, y, Actor(a))
    requires var s := y.cluster.nodes[Actor(a)];
             s.lastApplied == y.furthest[Actor(a)] || SteadyServer(w, first, s)
    requires var s, s' := y.cluster.nodes[Actor(a)], y'.cluster.nodes[Actor(a)];
             && s.lastApplied <= s.commitIndex && s'.commitIndex < |s'.log|
             && Committed(s) <= Committed(s')
    ensures ServerSound(w, first, y', Actor(a))
  {
    hide R.Sound, Enabled, NextServer, Record, Sent, M.ApplyEntry, CleanAction, M.NoLogRename, R.Steady, D.FilesOk;
    var i := Actor(a);
    var s := y.cluster.nodes[i];
    var n := R.Node(y.dbs[i], s.lastApplied, y.furthest[i]);
    if a.ApplyEntry? {
      ApplyAdvances(y.cluster, a);
      if HasNext(s) {
        assert Committed(s)[s.lastApplied] == s.log[s.lastApplied + 1];
        ApplySound(w, first, Committed(s), n);
      }
    } else if a.Restart? {
      RestartReloads(y.cluster, a);
      R.RestartKeeps(w, first, Committed(s), n);
    } else {
      SameApplied(y.cluster, a);
      SoundExtends(w, first, Committed(s), Committed(y'.cluster.nodes[i]), n);
    }
  }

  /** On every run of the system, messages lost, delayed, duplicated or reordered and servers restarted,
      every server stores exactly what its applied entries make of the empty directory. */
  lemma {:induction false} StoredIsApplied(w: M.Wiring, first: M.Databases, ys: seq<System>, actions: seq<Action>, k: nat)
    requires IsSystemRun(w, first, ys, actions) && Orderly(w, first, ys, actions) && k < |ys|
    ensures SystemSound(w, first, ys[k])
  {
    hide ServerSound, IsRun, CleanRestarts, SteadyServer, CanStep, NextSystem, CleanAction, Init;
    if k == 0 {
      StartSound(w, first, ys[0]);
    } else {
      StoredIsApplied(w, first, ys, actions, k - 1);
      assert Steps(w, ys[k - 1], actions[k - 1], ys[k]);
      ClusterRun(w, first, ys, actions);
      StepSound(w, first, ys, actions, k);
    }
  }

  lemma {:induction false} StepSound(w: M.Wiring, first: M.Databases, ys: seq<System>, actions: seq<Action>, k: nat)
    requires IsSystemRun(w, first, ys, actions) && Orderly(w, first, ys, actions) && 0 < k < |ys|
    requires IsRun(Clusters(ys), actions) && SystemSound(w, first, ys[k - 1])
    ensures SystemSound(w, first, ys[k])
  {
    hide IsRun, Orderly, ServerSound, Steps;
    var y, a := ys[k - 1], actions[k - 1];
    assert Steps(w, y, a, ys[k]);
    StepServers(w, y, a, ys[k]);
    forall i | i in ys[k].cluster.nodes
      ensures ServerSound(w, first, ys[k], i)
    {
      assert ServerSound(w, first, y, i);
      if i == Actor(a) {
        ActorStepSound(w, first, ys, actions, k);
      } else {
        OtherSound(w, first, y, a, ys[k], i);
      }
    }
  }

  /** No step adds or removes a server. */
  lemma {:induction false} StepServers(w: M.Wiring, y: System, a: Action, y': System)
    requires Steps(w, y, a, y')
    ensures Stored(y') && y'.cluster.nodes.Keys == y.cluster.nodes.Keys && Actor(a) in y.cluster.nodes
  {
    hide NextServer, Record, Sent, Attempt;
    ActorIsServer(y.cluster, a);
  }

  /** The server that takes a step of the run. */
  lemma {:induction false} ActorStepSound(w: M.Wiring, first: M.Databases, ys: seq<System>, actions: seq<Action>, k: nat)
    requires IsSystemRun(w, first, ys, actions) && Orderly(w, first, ys, actions) && 0 < k < |ys|
    requires IsRun(Clusters(ys), actions) && Actor(actions[k - 1]) in ys[k - 1].cluster.nodes
    requires ServerSound(w, first, ys[k - 1], Actor(actions[k - 1]))
    ensures ServerSound(w, first, ys[k], Actor(actions[k - 1]))
  {
    hide IsRun, CleanRestarts, SteadyServer, NextSystem, CanStep, CleanAction, D.FilesOk, R.Sound;
    var y, a := ys[k - 1], actions[k - 1];
    var i := Actor(a);
    assert Steps(w, y, a, ys[k]);
    CleanAt(Clusters(ys), actions, k - 1);
    D.RunFiles(Clusters(ys), actions, k - 1);
    S.CommittedForever(Clusters(ys), actions, k - 1, k - 1, i);
    CommittedGrows(Clusters(ys), actions, k - 1, k, i);
    if NoRestarts(actions) { NeverBehind(w, first, ys, actions, k - 1, i); }
    ActorSound(w, first, y, a, ys[k]);
  }

  lemma {:induction false} CleanAt(states: seq<Cluster>, actions: seq<Action>, k: nat)
    requires CleanRestarts(states, actions) && k < |actions|
    ensures CleanAction(states[k], actions[k])
  {
  }

  /** A step leaves everyone but the actor alone. */
  lemma {:induction false} OtherSound(w: M.Wiring, first: M.Databases, y: System, a: Action, y': System, i: NodeId)
    requires Steps(w, y, a, y') && i != Actor(a) && ServerSound(w, first, y, i)
    ensures ServerSound(w, first, y', i)
  {
    hide R.Sound, Enabled, NextServer, Record, Sent, Attempt;
  }

  // ------------------------------------------------------------------- the theorems

  /** Committed entries of any two servers, at any two moments, agree as far as both go. */
  lemma {:induction false} SameCommitted(states: seq<Cluster>, actions: seq<Action>, k1: nat, k2: nat,
                      i: NodeId, j: NodeId, n: nat)
    requires IsRun(states, actions) && CleanRestarts(states, actions) && k1 < |states| && k2 < |states|
    requires i in states[k1].nodes && j in states[k2].nodes
    requires n <= states[k1].nodes[i].commitIndex && n <= states[k2].nodes[j].commitIndex
    ensures var s1, s2 := states[k1].nodes[i], states[k2].nodes[j];
            && s1.commitIndex < |s1.log| && s2.commitIndex < |s2.log|
            && Committed(s1)[..n] == Committed(s2)[..n]
  {
    hide IsRun, CleanRestarts;
    S.CommittedForever(states, actions, k1, k1, i);
    S.CommittedForever(states, actions, k2, k2, j);
    if k1 <= k2 { S.StateMachineSafety(states, actions, k1, k2, i, j, n); }
    else { S.StateMachineSafety(states, actions, k2, k1, j, i, n); }
    var s1, s2 := states[k1].nodes[i], states[k2].nodes[j];
    assert s1.log[..n + 1] == s2.log[..n + 1];
    SliceFrom(s1.log, s2.log, n + 1);
    assert Committed(s1)[..n] == s1.log[1..n + 1] && Committed(s2)[..n] == s2.log[1..n + 1];
  }

  /** The server is not in the middle of a replay. */
  predicate CaughtUp(y: System, i: NodeId)
    requires i in y.cluster.nodes && i in y.furthest
  {
    y.cluster.nodes[i].lastApplied == y.furthest[i]
  }

  /** Replicas never diverge. Two servers that have applied equally many entries, at whatever two moments
      of a run, store the same main database, and the same databases altogether if neither is replaying.
      A server that is behind stores what the other one stored when it was there. */
  lemma {:induction false} ReplicasAgree(w: M.Wiring, first: M.Databases, ys: seq<System>, actions: seq<Action>,
                      k1: nat, k2: nat, i: NodeId, j: NodeId)
    requires IsSystemRun(w, first, ys, actions) && Orderly(w, first, ys, actions) && k1 < |ys| && k2 < |ys|
    requires i in ys[k1].cluster.nodes && j in ys[k2].cluster.nodes
    requires ys[k1].cluster.nodes[i].lastApplied <= ys[k2].cluster.nodes[j].lastApplied
    ensures var s1, s2 := ys[k1].cluster.nodes[i], ys[k2].cluster.nodes[j];
            && Stored(ys[k1]) && Stored(ys[k2]) && s2.lastApplied <= s2.commitIndex < |s2.log|
            && ys[k1].dbs[i].main == M.After(w, first, Committed(s2)[..s1.lastApplied]).main
            && (CaughtUp(ys[k1], i) ==> ys[k1].dbs[i] == M.After(w, first, Committed(s2)[..s1.lastApplied]))
            && (s1.lastApplied == s2.lastApplied ==>
                  && ys[k1].dbs[i].main == ys[k2].dbs[j].main
                  && (CaughtUp(ys[k1], i) && CaughtUp(ys[k2], j) ==> ys[k1].dbs[i] == ys[k2].dbs[j]))
  {
    hide IsSystemRun, IsRun, CleanRestarts, SteadyServer, M.After, M.Clean;
    ClusterRun(w, first, ys, actions);
    StoredIsApplied(w, first, ys, actions, k1);
    StoredIsApplied(w, first, ys, actions, k2);
    assert ServerSound(w, first, ys[k1], i) && ServerSound(w, first, ys[k2], j);
    var s1, s2 := ys[k1].cluster.nodes[i], ys[k2].cluster.nodes[j];
    var n := s1.lastApplied;
    SameCommitted(Clusters(ys), actions, k1, k2, i, j, n);
    assert s1.lastApplied == s2.lastApplied ==> Committed(s2)[..n] == Committed(s2)[..s2.lastApplied];
  }

  /** A fatal entry stops every server at the same index: if one server, not replaying, is stopped in
      front of its next committed entry, no server at any moment of the run has ever got past it. */
  lemma {:induction false} FatalStopsAll(w: M.Wiring, first: M.Databases, ys: seq<System>, actions: seq<Action>,
                      k1: nat, k2: nat, i: NodeId, j: NodeId)
    requires IsSystemRun(w, first, ys, actions) && Orderly(w, first, ys, actions) && k1 < |ys| && k2 < |ys|
    requires i in ys[k1].cluster.nodes && j in ys[k2].cluster.nodes && Stored(ys[k1]) && CaughtUp(ys[k1], i)
    requires HasNext(ys[k1].cluster.nodes[i]) && Attempt(w, ys[k1], i).1 == M.Fatal
    ensures j in ys[k2].furthest
    ensures ys[k2].cluster.nodes[j].lastApplied <= ys[k2].furthest[j] <= ys[k1].cluster.nodes[i].lastApplied
  {
    hide IsSystemRun, IsRun, Orderly, CleanRestarts, M.After, M.Clean, M.ApplyEntry, ServerSound, Committed;
    ClusterRun(w, first, ys, actions);
    OrderlyClean(w, first, ys, actions);
    StoredIsApplied(w, first, ys, actions, k1);
    StoredIsApplied(w, first, ys, actions, k2);
    SoundParts(w, first, ys[k1], i);
    SoundParts(w, first, ys[k2], j);
    var s1, s2 := ys[k1].cluster.nodes[i], ys[k2].cluster.nodes[j];
    var n := s1.lastApplied;
    if ys[k2].furthest[j] > n {
      SameCommitted(Clusters(ys), actions, k1, k2, i, j, n + 1);
      StoppedThere(w, first, Committed(s1), Committed(s2), n, ys[k2].furthest[j]);
    }
  }

  /** What soundness says of one server. */
  lemma {:induction false} SoundParts(w: M.Wiring, first: M.Databases, y: System, i: NodeId)
    requires ServerSound(w, first, y, i)
    ensures i in y.cluster.nodes && i in y.furthest && i in y.dbs
    ensures var s := y.cluster.nodes[i];
            && s.commitIndex < |s.log| && |Committed(s)| == s.commitIndex
            && s.lastApplied <= y.furthest[i] <= s.commitIndex
            && M.Clean(w, first, Committed(s)[..y.furthest[i]])
            && (CaughtUp(y, i) ==> y.dbs[i] == M.After(w, first, Committed(s)[..s.lastApplied]))
            && (HasNext(s) ==> Committed(s)[s.lastApplied] == s.log[s.lastApplied + 1])
  {
    hide M.After, M.Clean;
  }

  lemma {:induction false} OrderlyClean(w: M.Wiring, first: M.Databases, ys: seq<System>, actions: seq<Action>)
    requires Orderly(w, first, ys, actions)
    ensures CleanRestarts(Clusters(ys), actions)
  {
  }

  /** Where one sequence of entries is stopped, no other with the same beginning gets past. */
  lemma {:induction false} StoppedThere(w: M.Wiring, first: M.Databases, es1: seq<LogEntry>, es2: seq<LogEntry>,
                      n: nat, far: nat)
    requires n < |es1| && n < far <= |es2| && es1[..n + 1] == es2[..n + 1]
    requires M.ApplyEntry(w, M.After(w, first, es1[..n]), es1[n]).1 == M.Fatal
    ensures !M.Clean(w, first, es2[..far])
  {
    hide M.After, M.Clean, M.ApplyEntry;
    assert es2[..n] == es2[..n + 1][..n] == es1[..n + 1][..n] == es1[..n];
    assert es2[n] == es2[..n + 1][n] == es1[..n + 1][n] == es1[n];
    M.AfterSnoc(w, first, es2, n);
    if M.Clean(w, first, es2[..far]) {
      assert es2[..far][..n + 1] == es2[..n + 1];
      M.CleanPrefix(w, first, es2[..far], n + 1);
    }
  }
}
