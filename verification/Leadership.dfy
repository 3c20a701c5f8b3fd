/** Leadership: one etcd key, leases that expire, and nodes that acquire, lose and give up the leader role. */
module Leadership {
  import opened Entries
  import opened SyncSpec

  // ---- The store ----

  /** The primary key (with the lease attached to it, if present), the live leases, and the next lease to grant. */
  datatype Store = Store(key: Option<nat>, live: set<nat>, next: nat)

  function Granted(st: Store): Store {
    st.(live := st.live + {st.next}, next := st.next + 1)
  }

  /** The transaction of TryAcquire: create the key if it is absent; a put needs a live lease. */
  predicate Commits(st: Store, lease: nat) {
    st.key.None? && lease in st.live
  }

  function Committed(st: Store, lease: nat): Store {
    if Commits(st, lease) then st.(key := Some(lease)) else st
  }

  /** Revocation or expiry of a lease takes the key with it if it is attached. */
  function Ended(st: Store, lease: nat): Store {
    st.(live := st.live - {lease}, key := if st.key == Some(lease) then None else st.key)
  }

  // ---- Nodes ----

  datatype Role = Standby | Leader

  /** Where a node stands in TryAcquire; `Beaten` has seen its transaction fail, `Unsure` had an error. */
  datatype Attempt = Idle | Asking(lease: nat) | Winner(lease: nat) | Beaten(lease: nat) | Unsure(lease: nat)

  datatype Node = Node(role: Role, session: Option<nat>, attempt: Attempt, seenPrimary: bool)

  datatype State = State(store: Store, nodes: seq<Node>)

  datatype Step =
    | Poll(n: nat)
    | Grant(n: nat, startup: bool)
    | GrantUnanswered(n: nat, startup: bool)
    | Commit(n: nat)
    | CommitUnanswered(n: nat, reached: bool)
    | GiveUp(n: nat, revoked: bool)
    | Promote(n: nat)
    | FailPromotion(n: nat)
    | Demote(n: nat)
    | Crash(n: nat)
    | Expire(lease: nat)

  predicate Enabled(s: State, step: Step) {
    (!step.Expire? ==> step.n < |s.nodes|) &&
    match step
    case Poll(n) => s.nodes[n].role == Standby
    case Grant(n, startup) =>
      s.nodes[n].role == Standby && s.nodes[n].attempt.Idle? && (startup || s.nodes[n].seenPrimary)
    case GrantUnanswered(n, startup) =>
      s.nodes[n].role == Standby && s.nodes[n].attempt.Idle? && (startup || s.nodes[n].seenPrimary)
    case Commit(n) => s.nodes[n].attempt.Asking?
    case CommitUnanswered(n, _) => s.nodes[n].attempt.Asking?
    case GiveUp(n, _) => s.nodes[n].attempt.Beaten? || s.nodes[n].attempt.Unsure?
    case Promote(n) => s.nodes[n].attempt.Winner?
    case FailPromotion(n) => s.nodes[n].role == Leader && s.nodes[n].session.Some?
    case Demote(n) => s.nodes[n].role == Leader
    case Crash(_) => true
    case Expire(_) => true
  }

  function With(s: State, n: nat, node: Node): State
    requires n < |s.nodes|
  {
    s.(nodes := s.nodes[n := node])
  }

  function Do(s: State, step: Step): State
    requires Enabled(s, step)
  {
    match step
    case Poll(n) => With(s, n, s.nodes[n].(seenPrimary := s.nodes[n].seenPrimary || s.store.key.Some?))
    case Grant(n, _) =>
      With(s, n, s.nodes[n].(attempt := Asking(s.store.next))).(store := Granted(s.store))
    case GrantUnanswered(_, _) => s.(store := Granted(s.store))
    case Commit(n) =>
      var l := s.nodes[n].attempt.lease;
      With(s, n, s.nodes[n].(attempt := if Commits(s.store, l) then Winner(l) else Beaten(l)))
        .(store := Committed(s.store, l))
    case CommitUnanswered(n, reached) =>
      var l := s.nodes[n].attempt.lease;
      With(s, n, s.nodes[n].(attempt := Unsure(l))).(store := if reached then Committed(s.store, l) else s.store)
    case GiveUp(n, revoked) =>
      With(s, n, s.nodes[n].(attempt := Idle))
        .(store := if revoked then Ended(s.store, s.nodes[n].attempt.lease) else s.store)
    case Promote(n) => With(s, n, Node(Leader, Some(s.nodes[n].attempt.lease), Idle, s.nodes[n].seenPrimary))
    // The role is not taken back when a promotion fails; only the lease is given up.
    case FailPromotion(n) => s.(store := Ended(s.store, s.nodes[n].session.value))
    // A demoted node polls anew, and asks for the key only once it has seen another primary.
    case Demote(n) => With(s, n, Node(Standby, None, Idle, false))
    case Crash(n) => With(s, n, Node(Standby, None, Idle, false))
    case Expire(l) => s.(store := Ended(s.store, l))
  }

  ghost predicate Legal(s: State, steps: seq<Step>)
    decreases steps
  {
    steps == [] || (Enabled(s, steps[0]) && Legal(Do(s, steps[0]), steps[1..]))
  }

  ghost function Final(s: State, steps: seq<Step>): State
    requires Legal(s, steps)
    decreases steps
  {
    if steps == [] then s else Final(Do(s, steps[0]), steps[1..])
  }

  // ---- The invariant ----

  /** The lease a node holds or is about to ask with. */
  function LeaseOf(node: Node): Option<nat> {
    if node.session.Some? then node.session
    else if node.attempt.Idle? then None
    else Some(node.attempt.lease)
  }

  /** The node believes that the key is attached to its lease. */
  predicate Holding(node: Node) {
    node.session.Some? || node.attempt.Winner?
  }

  predicate HoldsLive(s: State, n: nat)
    requires n < |s.nodes|
  {
    Holding(s.nodes[n]) && LeaseOf(s.nodes[n]).value in s.store.live
  }

  ghost predicate NodeOk(s: State, n: nat)
    requires n < |s.nodes|
  {
    var node := s.nodes[n];
    && (node.role == Standby ==> node.session.None?)
    && (node.role == Leader ==> node.session.Some? && node.attempt.Idle?)
    && (LeaseOf(node).Some? ==> LeaseOf(node).value < s.store.next)
    && (HoldsLive(s, n) ==> s.store.key == LeaseOf(node))
    && (node.attempt.Asking? || node.attempt.Beaten? ==> s.store.key != Some(node.attempt.lease))
  }

  ghost predicate Inv(s: State) {
    && (s.store.key.Some? ==> s.store.key.value in s.store.live)
    && (forall l :: l in s.store.live ==> l < s.store.next)
    && (forall n :: 0 <= n < |s.nodes| ==> NodeOk(s, n))
    && (forall m, n :: 0 <= m < |s.nodes| && 0 <= n < |s.nodes| && m != n && LeaseOf(s.nodes[m]).Some?
          ==> LeaseOf(s.nodes[m]) != LeaseOf(s.nodes[n]))
  }

  /** Every node a standby that has done nothing yet, and no key. */
  ghost predicate Start(s: State) {
    && s.store.key.None? && s.store.live == {}
    && forall n :: 0 <= n < |s.nodes| ==> s.nodes[n] == Node(Standby, None, Idle, false)
  }

  lemma StepKeepsNode(s: State, step: Step, n: nat)
    requires Inv(s) && Enabled(s, step) && n < |s.nodes|
    ensures NodeOk(Do(s, step), n)
  {
    assert NodeOk(s, n);
    if !step.Expire? {
      assert NodeOk(s, step.n);
    }
  }

  lemma StepKeepsLeasesApart(s: State, step: Step, m: nat, n: nat)
    requires Inv(s) && Enabled(s, step) && m < |s.nodes| && n < |s.nodes| && m != n
    requires LeaseOf(Do(s, step).nodes[m]).Some?
    ensures LeaseOf(Do(s, step).nodes[m]) != LeaseOf(Do(s, step).nodes[n])
  {
    assert NodeOk(s, m) && NodeOk(s, n);
  }

  lemma StepKeepsInv(s: State, step: Step)
    requires Inv(s) && Enabled(s, step)
    ensures Inv(Do(s, step))
  {
    var s' := Do(s, step);
    forall n | 0 <= n < |s'.nodes| ensures NodeOk(s', n) {
      StepKeepsNode(s, step, n);
    }
    forall m, n | 0 <= m < |s'.nodes| && 0 <= n < |s'.nodes| && m != n && LeaseOf(s'.nodes[m]).Some?
      ensures LeaseOf(s'.nodes[m]) != LeaseOf(s'.nodes[n])
    {
      StepKeepsLeasesApart(s, step, m, n);
    }
  }

  lemma {:induction false} RunKeepsInv(s: State, steps: seq<Step>)
    requires Inv(s) && Legal(s, steps)
    ensures Inv(Final(s, steps))
    decreases steps
  {
    if steps != [] {
      StepKeepsInv(s, steps[0]);
      RunKeepsInv(Do(s, steps[0]), steps[1..]);
    }
  }

  /** In the leader role with a lease that etcd still honours. */
  predicate RightfulLeader(s: State, n: nat)
    requires n < |s.nodes|
  {
    s.nodes[n].role == Leader && s.nodes[n].session.Some? && s.nodes[n].session.value in s.store.live
  }

  /** Lease exclusivity: in every run there is at most one such node, and the key is attached to its lease. */
  lemma LeaseExclusivity(s0: State, steps: seq<Step>, m: nat, n: nat)
    requires Start(s0) && Legal(s0, steps)
    requires m < |Final(s0, steps).nodes| && n < |Final(s0, steps).nodes|
    requires RightfulLeader(Final(s0, steps), m) && RightfulLeader(Final(s0, steps), n)
    ensures m == n
    ensures Final(s0, steps).store.key == Final(s0, steps).nodes[m].session
  {
    RunKeepsInv(s0, steps);
    var s := Final(s0, steps);
    assert NodeOk(s, m) && NodeOk(s, n);
  }

  /** A node started as leader asks for the key without having seen a primary. */
  predicate StartsAsLeader(step: Step) {
    (step.Grant? || step.GrantUnanswered?) && step.startup
  }

  /**
   * Standbys never elect a first leader among themselves: as long as no node is started as leader, nobody
   * sees a primary, nobody asks for the key, and nobody takes the role.
   */
  lemma {:induction false} NoLeaderWithoutStartup(s: State, steps: seq<Step>)
    requires Legal(s, steps) && forall i :: 0 <= i < |steps| ==> !StartsAsLeader(steps[i])
    requires s.store.key.None? && forall n :: 0 <= n < |s.nodes| ==> s.nodes[n] == Node(Standby, None, Idle, false)
    ensures var s' := Final(s, steps);
            s'.store.key.None? && s'.nodes == s.nodes
    decreases steps
  {
    if steps != [] {
      assert !StartsAsLeader(steps[0]);
      assert Do(s, steps[0]).nodes == s.nodes;
      NoLeaderWithoutStartup(Do(s, steps[0]), steps[1..]);
    }
  }

  /** A node that loses, or does not know whether it won, removes no key but its own; a beaten one removes none. */
  lemma LoserRemovesNoOtherKey(s0: State, steps: seq<Step>, step: Step)
    requires Start(s0) && Legal(s0, steps) && step.GiveUp? && Enabled(Final(s0, steps), step)
    ensures var s := Final(s0, steps);
            var attempt := s.nodes[step.n].attempt;
            && (attempt.Beaten? ==> Do(s, step).store.key == s.store.key)
            && (Do(s, step).store.key != s.store.key ==> s.store.key == Some(attempt.lease))
            && forall m: nat :: m < |s.nodes| && m != step.n && HoldsLive(s, m) ==>
                 Do(s, step).store.key == LeaseOf(s.nodes[m])
  {
    RunKeepsInv(s0, steps);
    var s := Final(s0, steps);
    assert NodeOk(s, step.n);
    forall m: nat | m < |s.nodes| && m != step.n && HoldsLive(s, m)
      ensures Do(s, step).store.key == LeaseOf(s.nodes[m])
    {
      assert NodeOk(s, m);
    }
  }

  /** The steps by which node `n` acquires the key and takes the leader role. */
  function Acquire(n: nat): seq<Step> {
    [Grant(n, true), Commit(n), Promote(n)]
  }

  lemma AcquireSucceeds(s: State, n: nat)
    requires n < |s.nodes| && s.nodes[n] == Node(Standby, None, Idle, false) && s.store.key.None?
    ensures Legal(s, Acquire(n))
    ensures var s' := Final(s, Acquire(n));
            && s'.nodes == s.nodes[n := Node(Leader, Some(s.store.next), Idle, false)]
            && s'.store.key == Some(s.store.next) && s'.store.live == s.store.live + {s.store.next}
  {
    var s1 := Do(s, Grant(n, true));
    var s2 := Do(s1, Commit(n));
    assert Acquire(n)[1..] == [Commit(n), Promote(n)] && Acquire(n)[1..][1..] == [Promote(n)];
    assert Legal(Do(s2, Promote(n)), []);
    assert Legal(s2, [Promote(n)]) && Final(s2, [Promote(n)]) == Do(s2, Promote(n));
    assert Legal(s1, [Commit(n), Promote(n)]) && Final(s1, [Commit(n), Promote(n)]) == Do(s2, Promote(n));
  }

  lemma {:induction false} RunConcat(s: State, a: seq<Step>, b: seq<Step>)
    requires Legal(s, a) && Legal(Final(s, a), b)
    ensures Legal(s, a + b) && Final(s, a + b) == Final(Final(s, a), b)
    decreases a
  {
    if a == [] {
      assert a + b == b;
    } else {
      assert (a + b)[1..] == a[1..] + b;
      RunConcat(Do(s, a[0]), a[1..], b);
    }
  }

  /** Extends a run that has reached `s` by one step. */
  lemma Then(s0: State, steps: seq<Step>, s: State, step: Step) returns (steps': seq<Step>, s': State)
    requires Legal(s0, steps) && Final(s0, steps) == s && Enabled(s, step)
    ensures steps' == steps + [step] && s' == Do(s, step)
    ensures Legal(s0, steps') && Final(s0, steps') == s'
  {
    assert [step][1..] == [] && Legal(Do(s, step), []);
    assert Legal(s, [step]) && Final(s, [step]) == Do(s, step);
    RunConcat(s0, steps, [step]);
    steps', s' := steps + [step], Do(s, step);
  }

  // ---- When a standby asks, and what it gets ----

  /** Node `n` has neither been demoted nor crashed between steps `i` and `m`. */
  ghost predicate Undisturbed(steps: seq<Step>, n: nat, i: nat, m: nat)
    requires m <= |steps|
  {
    forall j: nat :: i < j < m ==> steps[j] != Demote(n) && steps[j] != Crash(n)
  }

  lemma {:induction false} LegalUpTo(s: State, steps: seq<Step>, m: nat)
    requires Legal(s, steps) && m <= |steps|
    ensures Legal(s, steps[..m])
    decreases steps
  {
    if m > 0 {
      LegalUpTo(Do(s, steps[0]), steps[1..], m - 1);
      assert steps[..m][1..] == steps[1..][..m - 1];
    }
  }

  /** The state after the first `m` steps. */
  ghost function Reached(s0: State, steps: seq<Step>, m: nat): State
    requires Legal(s0, steps) && m <= |steps|
  {
    LegalUpTo(s0, steps, m);
    Final(s0, steps[..m])
  }

  lemma {:induction false} ReachedNext(s: State, steps: seq<Step>, m: nat)
    requires Legal(s, steps) && m < |steps|
    ensures Enabled(Reached(s, steps, m), steps[m])
    ensures Reached(s, steps, m + 1) == Do(Reached(s, steps, m), steps[m])
    decreases steps
  {
    LegalUpTo(s, steps, m);
    LegalUpTo(s, steps, m + 1);
    if m == 0 {
      var one := steps[..1];
      assert one[1..] == [] && one[0] == steps[0] && steps[..0] == [];
      assert Final(s, one) == Final(Do(s, one[0]), one[1..]);
    } else {
      ReachedNext(Do(s, steps[0]), steps[1..], m - 1);
      assert steps[..m][1..] == steps[1..][..m - 1] && steps[..m + 1][1..] == steps[1..][..m];
    }
  }

  /** Among the first `m` steps, `n` polled while the key was held, and was undisturbed since. */
  ghost predicate Saw(s0: State, steps: seq<Step>, n: nat, m: nat)
    requires Legal(s0, steps) && m <= |steps|
  {
    exists i: nat :: i < m && steps[i] == Poll(n) && Reached(s0, steps, i).store.key.Some? && Undisturbed(steps, n, i, m)
  }

  /** Among the first `m` steps, `n` was promoted, and was undisturbed since. */
  ghost predicate Took(steps: seq<Step>, n: nat, m: nat)
    requires m <= |steps|
  {
    exists i: nat :: i < m && steps[i] == Promote(n) && Undisturbed(steps, n, i, m)
  }

  lemma NextSaw(s0: State, steps: seq<Step>, n: nat, m: nat)
    requires Legal(s0, steps) && m < |steps|
    ensures Saw(s0, steps, n, m + 1) <==>
              && steps[m] != Demote(n) && steps[m] != Crash(n)
              && (Saw(s0, steps, n, m) || (steps[m] == Poll(n) && Reached(s0, steps, m).store.key.Some?))
  {
    if Saw(s0, steps, n, m) && steps[m] != Demote(n) && steps[m] != Crash(n) {
      var i: nat :| i < m && steps[i] == Poll(n) && Reached(s0, steps, i).store.key.Some? && Undisturbed(steps, n, i, m);
      assert Undisturbed(steps, n, i, m + 1);
    }
    if steps[m] == Poll(n) {
      assert Undisturbed(steps, n, m, m + 1);
    }
    if Saw(s0, steps, n, m + 1) {
      var i: nat :| i < m + 1 && steps[i] == Poll(n) && Reached(s0, steps, i).store.key.Some? && Undisturbed(steps, n, i, m + 1);
      assert i < m ==> Undisturbed(steps, n, i, m);
    }
  }

  lemma NextTook(steps: seq<Step>, n: nat, m: nat)
    requires m < |steps|
    ensures Took(steps, n, m + 1) <==>
              steps[m] != Demote(n) && steps[m] != Crash(n) && (Took(steps, n, m) || steps[m] == Promote(n))
  {
    if Took(steps, n, m) && steps[m] != Demote(n) && steps[m] != Crash(n) {
      var i: nat :| i < m && steps[i] == Promote(n) && Undisturbed(steps, n, i, m);
      assert Undisturbed(steps, n, i, m + 1);
    }
    if steps[m] == Promote(n) {
      assert Undisturbed(steps, n, m, m + 1);
    }
    if Took(steps, n, m + 1) {
      var i: nat :| i < m + 1 && steps[i] == Promote(n) && Undisturbed(steps, n, i, m + 1);
      assert i < m ==> Undisturbed(steps, n, i, m);
    }
  }

  lemma {:induction false} NodeRemembers(s0: State, steps: seq<Step>, n: nat, m: nat)
    requires Start(s0) && Legal(s0, steps) && m <= |steps| && n < |s0.nodes|
    ensures var s := Reached(s0, steps, m);
            && |s.nodes| == |s0.nodes|
            && (s.nodes[n].seenPrimary <==> Saw(s0, steps, n, m))
            && (s.nodes[n].role == Leader <==> Took(steps, n, m))
  {
    if m == 0 {
      assert Reached(s0, steps, 0) == s0;
    } else {
      NodeRemembers(s0, steps, n, m - 1);
      ReachedNext(s0, steps, m - 1);
      NextSaw(s0, steps, n, m - 1);
      NextTook(steps, n, m - 1);
    }
  }

  /**
   * In every run a node is in the leader role exactly when it was promoted and neither demoted nor restarted since. A
   * standby that is not asking yet may ask exactly when it has polled while the key was held, since it last
   * became a standby.
   */
  lemma StandbyAsksIff(s0: State, steps: seq<Step>, n: nat)
    requires Start(s0) && Legal(s0, steps) && n < |s0.nodes|
    ensures var s := Final(s0, steps);
            && |s.nodes| == |s0.nodes|
            && (s.nodes[n].role == Leader <==> Took(steps, n, |steps|))
            && (Enabled(s, Grant(n, false)) <==>
                  !Took(steps, n, |steps|) && s.nodes[n].attempt.Idle? && Saw(s0, steps, n, |steps|))
  {
    assert steps[..|steps|] == steps;
    NodeRemembers(s0, steps, n, |steps|);
  }

  /**
   * Takeover. From any state in which the key is held, an idle standby that polls, outlives the holder's lease and
   * asks becomes the rightful leader.
   */
  lemma StandbyTakesOver(s: State, n: nat) returns (s': State)
    requires n < |s.nodes| && s.nodes[n].role == Standby && s.nodes[n].attempt.Idle? && s.store.key.Some?
    ensures var steps := [Poll(n), Expire(s.store.key.value), Grant(n, false), Commit(n), Promote(n)];
            Legal(s, steps) && Final(s, steps) == s'
    ensures n < |s'.nodes| && RightfulLeader(s', n) && s'.store.key == s'.nodes[n].session
  {
    var steps := [];
    s' := s;
    steps, s' := Then(s, steps, s', Poll(n));
    steps, s' := Then(s, steps, s', Expire(s.store.key.value));
    steps, s' := Then(s, steps, s', Grant(n, false));
    steps, s' := Then(s, steps, s', Commit(n));
    steps, s' := Then(s, steps, s', Promote(n));
    assert steps == [Poll(n), Expire(s.store.key.value), Grant(n, false), Commit(n), Promote(n)];
  }

  /** A rightful leader whose promotion fails frees the key and keeps the role; one that is demoted or dies keeps the key held. */
  lemma LeavingTheKey(s0: State, steps: seq<Step>, n: nat)
    requires Start(s0) && Legal(s0, steps) && n < |Final(s0, steps).nodes| && RightfulLeader(Final(s0, steps), n)
    ensures var s := Final(s0, steps);
            && Do(s, FailPromotion(n)).store.key == None && Do(s, FailPromotion(n)).nodes[n].role == Leader
            && Do(s, Demote(n)).store == s.store && Do(s, Demote(n)).nodes[n].role == Standby
            && Do(s, Crash(n)).store == s.store && Do(s, Crash(n)).nodes[n].role == Standby
  {
    RunKeepsInv(s0, steps);
    assert NodeOk(Final(s0, steps), n);
  }

  /**
   * An attempt that does not end with a session and whose revocation arrives leaves key and leases as they were,
   * whether the transaction was beaten, lost, or went through without an answer; a grant that goes unanswered
   * leaves one more lease, which nobody holds.
   */
  lemma FailedAttemptLeavesStore(s: State, n: nat, reached: bool) returns (s': State, s'': State)
    requires Inv(s) && Enabled(s, Grant(n, true))
    ensures var steps := [Grant(n, true), CommitUnanswered(n, reached), GiveUp(n, true)];
            Legal(s, steps) && Final(s, steps) == s'
    ensures s'.store.key == s.store.key && s'.store.live == s.store.live && s'.nodes == s.nodes
    ensures Enabled(s, GrantUnanswered(n, true)) && s'' == Do(s, GrantUnanswered(n, true))
    ensures s''.nodes == s.nodes && s''.store.key == s.store.key && s''.store.live == s.store.live + {s.store.next}
    ensures forall m: nat :: m < |s.nodes| ==> LeaseOf(s.nodes[m]) != Some(s.store.next)
    ensures s.store.key.Some? ==>
              && Legal(s, [Grant(n, true), Commit(n), GiveUp(n, true)])
              && Final(s, [Grant(n, true), Commit(n), GiveUp(n, true)]) == s'
  {
    var steps := [];
    s' := s;
    steps, s' := Then(s, steps, s', Grant(n, true));
    steps, s' := Then(s, steps, s', CommitUnanswered(n, reached));
    steps, s' := Then(s, steps, s', GiveUp(n, true));
    assert steps == [Grant(n, true), CommitUnanswered(n, reached), GiveUp(n, true)];
    assert s.store.next !in s.store.live;
    assert s'.nodes == s.nodes;
    s'' := Do(s, GrantUnanswered(n, true));
    forall m: nat | m < |s.nodes| ensures LeaseOf(s.nodes[m]) != Some(s.store.next) {
      assert NodeOk(s, m);
    }
    if s.store.key.Some? {
      var beaten, b := Then(s, [], s, Grant(n, true));
      beaten, b := Then(s, beaten, b, Commit(n));
      beaten, b := Then(s, beaten, b, GiveUp(n, true));
      assert beaten == [Grant(n, true), Commit(n), GiveUp(n, true)];
    }
  }

  /**
   * A node whose winning transaction goes unanswered and whose revocation is lost leaves the key held by nobody:
   * no node is a rightful leader, and no transaction succeeds until that lease expires.
   */
  lemma LostWinBlocksKey(s: State, n: nat) returns (s': State)
    requires Inv(s) && s.store.key.None? && Enabled(s, Grant(n, true))
    ensures var steps := [Grant(n, true), CommitUnanswered(n, true), GiveUp(n, false)];
            Legal(s, steps) && Final(s, steps) == s'
    ensures s'.store.key == Some(s.store.next)
    ensures forall m: nat :: m < |s'.nodes| ==> !RightfulLeader(s', m)
    ensures forall lease: nat :: !Commits(s'.store, lease)
    ensures forall lease: nat :: Ended(s'.store, lease).key == None <==> lease == s.store.next
  {
    var steps := [];
    s' := s;
    steps, s' := Then(s, steps, s', Grant(n, true));
    steps, s' := Then(s, steps, s', CommitUnanswered(n, true));
    steps, s' := Then(s, steps, s', GiveUp(n, false));
    assert steps == [Grant(n, true), CommitUnanswered(n, true), GiveUp(n, false)];
    forall m: nat | m < |s'.nodes| ensures !RightfulLeader(s', m) {
      assert NodeOk(s, m);
    }
  }

  /**
   * The leader role itself is not exclusive: when a leader's lease has expired and it has not noticed,
   * another node takes the role. The first one is no longer rightful.
   */
  lemma TwoNodesInLeaderRole() returns (s0: State, steps: seq<Step>)
    ensures Start(s0) && Legal(s0, steps)
    ensures var s := Final(s0, steps);
            && |s.nodes| == 2 && s.nodes[0].role == Leader && s.nodes[1].role == Leader
            && !RightfulLeader(s, 0) && RightfulLeader(s, 1)
  {
    var fresh' := Node(Standby, None, Idle, false);
    s0 := State(Store(None, {}, 0), [fresh', fresh']);
    AcquireSucceeds(s0, 0);
    var s1 := Final(s0, Acquire(0));
    var s2 := Do(s1, Expire(0));
    assert Legal(s2, []) && Legal(s1, [Expire(0)]) && Final(s1, [Expire(0)]) == s2;
    RunConcat(s0, Acquire(0), [Expire(0)]);
    AcquireSucceeds(s2, 1);
    RunConcat(s0, Acquire(0) + [Expire(0)], Acquire(1));
    steps := Acquire(0) + [Expire(0)] + Acquire(1);
  }

  // ---- TryAcquire against a store nobody else is using meanwhile ----

  class Etcd {
    var key: Option<nat>
    var live: set<nat>
    var next: nat

    ghost function View(): Store
      reads this
    {
      Store(key, live, next)
    }

    /** Leases are numbered as they are granted, and a key is attached to a live one. */
    ghost predicate Valid()
      reads this
    {
      && (key.Some? ==> key.value in live)
      && forall l :: l in live ==> l < next
    }

    method Grant() returns (lease: nat)
      modifies this
      ensures lease == old(next) && View() == Granted(old(View()))
    {
      lease := next;
      live, next := live + {lease}, next + 1;
    }

    method CreateIfAbsent(lease: nat) returns (ok: bool)
      modifies this`key
      ensures ok == Commits(old(View()), lease) && View() == Committed(old(View()), lease)
    {
      ok := key.None? && lease in live;
      if ok {
        key := Some(lease);
      }
    }

    method Revoke(lease: nat)
      modifies this
      ensures View() == Ended(old(View()), lease)
    {
      live := live - {lease};
      if key == Some(lease) {
        key := None;
      }
    }

    /**
     * The three calls have fates of their own. A session is returned exactly when the first two are delivered
     * and the key was free. Otherwise the key is as it was found, except when the transaction went through, its
     * reply was lost and the revocation did not arrive: the key is then attached to a lease nobody keeps alive.
     */
    method TryAcquire(grant: Fate, commit: Fate, revoke: Fate) returns (session: Option<nat>)
      requires Valid()
      modifies this
      ensures Valid()
      ensures session.Some? <==> grant.Delivered? && commit.Delivered? && old(key).None?
      ensures session.Some? ==> key == session && session.value !in old(live) && live == old(live) + {session.value}
      ensures session.None? ==>
                var leaked := grant.ReplyLost? || (grant.Delivered? && revoke.RequestLost?);
                var stuck := old(key).None? && grant.Delivered? && commit.ReplyLost? && revoke.RequestLost?;
                && live == old(live) + (if leaked then {old(next)} else {})
                && key == if stuck then Some(old(next)) else old(key)
    {
      if grant.RequestLost? { return None; }
      var lease := Grant();
      if grant.ReplyLost? { return None; }
      var ok := false;
      if !commit.RequestLost? {
        ok := CreateIfAbsent(lease);
      }
      if ok && commit.Delivered? { return Some(lease); }
      if !revoke.RequestLost? {
        Revoke(lease);
      }
      return None;
    }
  }
}
