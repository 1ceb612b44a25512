/**
 The parallel address scan (src/dipiscan/scan.c): workers claim address indices,
 probe them in any order, and report in index order through a claim and commit
 counter. Every list of actions is a run of any number of workers, with a stop
 signal arriving at any point.
 */
module ScanJob {
  // One constructor per place a worker can be; `k` of `n` probed ports are reported.
  datatype Worker =
    | Starting
    | Claiming
    | Claimed(i: nat)
    | Probing(i: nat, n: nat)
    | Waiting(i: nat, n: nat)
    | Reporting(i: nat, n: nat, k: nat)
    | Committing(i: nat)
    | StopWaiting(i: nat)
    | Ending
    | Exited

  // A report line: address index and port offset.
  datatype Line = Line(i: nat, port: nat)

  // `asleep`: workers blocked on the condition variable.
  datatype Job = Job(total: nat, ports: nat, nextClaim: nat, nextCommit: nat, stop: bool, workers: seq<Worker>,
                     log: seq<Line>, asleep: set<nat>)

  datatype Action =
    | Signal               // the stop signal arrives
    | Fail(w: nat)         // a worker cannot allocate its buffers
    | Wake(w: nat)         // a wait returns without a broadcast
    | Step(w: nat)

  function Init(total: nat, ports: nat, workers: nat): Job {
    Job(total, ports, 0, 1, false, seq(workers, _ => Starting), [], {})
  }

  function Go(j: Job, w: nat, x: Worker): Job
    requires w < |j.workers|
  {
    j.(workers := j.workers[w := x])
  }

  /** What a worker that is awake does next; both commits broadcast. */
  function Move(j: Job, w: nat): Job
    requires w < |j.workers|
  {
    match j.workers[w]
    case Starting => Go(j, w, Claiming)
    case Claiming =>
      var i := j.nextClaim + 1;
      Go(j.(nextClaim := i), w, if i > j.total then Exited else Claimed(i))
    case Claimed(i) => Go(j, w, if j.stop then StopWaiting(i) else Probing(i, 0))
    case Probing(i, n) =>
      Go(j, w, if j.stop || n + 1 >= j.ports then Waiting(i, n + 1) else Probing(i, n + 1))
    case Waiting(i, n) => if j.nextCommit == i then Go(j, w, Reporting(i, n, 0)) else j
    case Reporting(i, n, k) =>
      if k < n then Go(j.(log := j.log + [Line(i, k)]), w, Reporting(i, n, k + 1)) else Go(j, w, Committing(i))
    case Committing(i) => Go(j.(nextCommit := i + 1, asleep := {}), w, Ending)
    case StopWaiting(i) => if j.nextCommit == i then Go(j.(nextCommit := i + 1, asleep := {}), w, Exited) else j
    case Ending => Go(j, w, if j.stop then Exited else Claiming)
    case Exited => j
  }

  /** A worker waits for its turn. */
  predicate MustWait(j: Job, x: Worker) {
    (x.Waiting? || x.StopWaiting?) && x.i != j.nextCommit
  }

  /** The check under the mutex either lets a worker go on or puts it to sleep. */
  function WorkerStep(j: Job, w: nat): Job
    requires w < |j.workers|
  {
    if w in j.asleep then j
    else if MustWait(j, j.workers[w]) then j.(asleep := j.asleep + {w})
    else Move(j, w)
  }

  function Act(j: Job, a: Action): Job {
    match a
    case Signal => j.(stop := true)
    case Wake(w) => j.(asleep := j.asleep - {w})
    case Fail(w) => if w < |j.workers| && j.workers[w].Starting? then Go(j, w, Exited) else j
    case Step(w) => if w < |j.workers| then WorkerStep(j, w) else j
  }

  function Exec(j: Job, acts: seq<Action>): Job {
    if acts == [] then j else Act(Exec(j, acts[..|acts| - 1]), acts[|acts| - 1])
  }

  // ---- invariant ----

  predicate Owns(x: Worker, i: nat) {
    (x.Claimed? || x.Probing? || x.Waiting? || x.Reporting? || x.Committing? || x.StopWaiting?) && x.i == i
  }

  /** In the section between the two lock acquisitions, where reports are written. */
  predicate InReport(x: Worker) { x.Reporting? || x.Committing? }

  /** A claimed index is committed or in the hands of exactly one worker. */
  ghost predicate Ownership(j: Job) {
    && (forall w, i: nat :: 0 <= w < |j.workers| && Owns(j.workers[w], i) ==>
        j.nextCommit <= i <= j.nextClaim && i <= j.total)
    && (forall v, w, i: nat ::
        0 <= v < |j.workers| && 0 <= w < |j.workers| && Owns(j.workers[v], i) && Owns(j.workers[w], i) ==> v == w)
    && (forall i: nat :: j.nextCommit <= i <= j.nextClaim && i <= j.total ==> Owned(j, i))
    && 1 <= j.nextCommit <= j.nextClaim + 1
  }

  ghost predicate Owned(j: Job, i: nat) {
    exists w :: 0 <= w < |j.workers| && Owns(j.workers[w], i)
  }

  predicate LineBefore(a: Line, b: Line) { a.i < b.i || (a.i == b.i && a.port < b.port) }

  ghost predicate LogOrdered(j: Job) { forall x, y :: 0 <= x < y < |j.log| ==> LineBefore(j.log[x], j.log[y]) }

  /** Lines of the index whose turn it is are those of its reporter so far. */
  ghost predicate LogCurrent(j: Job) {
    forall x :: 0 <= x < |j.log| && j.log[x].i == j.nextCommit ==>
      exists w :: 0 <= w < |j.workers| && InReport(j.workers[w])
        && (j.workers[w].Reporting? ==> j.log[x].port < j.workers[w].k)
  }

  /** The log is in strictly increasing order and covers exactly what was reported. */
  ghost predicate LogOk(j: Job) {
    && LogOrdered(j) && LogCurrent(j)
    && (forall x :: 0 <= x < |j.log| ==> 1 <= j.log[x].i <= j.nextCommit)
    && (!j.stop ==> forall i, p :: 1 <= i < j.nextCommit && 0 <= p < j.ports ==> Line(i, p) in j.log)
  }

  ghost predicate WorkerOk(j: Job, x: Worker) {
    match x
    case Probing(_, n) => n < j.ports
    case Waiting(_, n) => n <= j.ports && (!j.stop ==> n == j.ports)
    case Reporting(i, n, k) =>
      i == j.nextCommit && k <= n <= j.ports && (!j.stop ==> n == j.ports)
        && forall p :: 0 <= p < k ==> Line(i, p) in j.log
    case Committing(i) => i == j.nextCommit && (!j.stop ==> forall p :: 0 <= p < j.ports ==> Line(i, p) in j.log)
    case StopWaiting(_) => j.stop
    case _ => true
  }

  ghost predicate Inv(j: Job) {
    && j.ports >= 1 && Ownership(j) && LogOk(j)
    && (forall w :: 0 <= w < |j.workers| ==> WorkerOk(j, j.workers[w]))
  }

  lemma InitInv(total: nat, ports: nat, workers: nat)
    requires ports >= 1
    ensures Inv(Init(total, ports, workers))
  {}

  // ---- each step keeps it ----

  /** A worker that keeps its index, or has none, changes nothing for the others. */
  lemma KeepOwnership(j: Job, w: nat, x: Worker)
    requires Ownership(j) && w < |j.workers| && forall i: nat :: Owns(x, i) == Owns(j.workers[w], i)
    ensures Ownership(Go(j, w, x))
  {
    hide Owns;
    var j' := Go(j, w, x);
    forall i: nat | Owned(j, i) ensures Owned(j', i) {
      var v :| 0 <= v < |j.workers| && Owns(j.workers[v], i);
      assert Owns(j'.workers[v], i);
    }
  }

  /** Taking the next index makes the taker its only owner. */
  lemma ClaimOwnership(j: Job, w: nat)
    requires Ownership(j) && w < |j.workers| && j.workers[w].Claiming?
    ensures Ownership(Move(j, w))
  {
    var j', n := Move(j, w), j.nextClaim + 1;
    forall i: nat | j'.nextCommit <= i <= j'.nextClaim && i <= j'.total ensures Owned(j', i) {
      if i == n {
        assert Owns(j'.workers[w], i);
      } else {
        assert Owned(j, i);
        var v :| 0 <= v < |j.workers| && Owns(j.workers[v], i);
        assert Owns(j'.workers[v], i);
      }
    }
  }

  /** Committing the lowest index passes the turn to the owner of the next one. */
  lemma CommitOwnership(j: Job, w: nat)
    requires Ownership(j) && w < |j.workers| && (j.workers[w].Committing? || j.workers[w].StopWaiting?)
             && j.workers[w].i == j.nextCommit
    ensures Ownership(Move(j, w))
  {
    var j' := Move(j, w);
    assert Owns(j.workers[w], j.nextCommit);
    forall i: nat | j'.nextCommit <= i <= j'.nextClaim && i <= j'.total ensures Owned(j', i) {
      assert Owned(j, i);
      var v :| 0 <= v < |j.workers| && Owns(j.workers[v], i);
      assert Owns(j'.workers[v], i);
    }
  }

  lemma OneReporter(j: Job, v: nat, w: nat)
    requires Inv(j) && v < |j.workers| && w < |j.workers| && InReport(j.workers[v]) && InReport(j.workers[w])
    ensures v == w
  {
    hide LogOk;
    assert WorkerOk(j, j.workers[v]) && WorkerOk(j, j.workers[w]);
    assert Owns(j.workers[v], j.nextCommit) && Owns(j.workers[w], j.nextCommit);
  }

  /** Moves outside the report section leave the log alone. */
  lemma QuietMove(j: Job, w: nat, j': Job)
    requires Inv(j) && w < |j.workers| && Ownership(j')
    requires |j'.workers| == |j.workers|
             && j' == j.(nextClaim := j'.nextClaim, workers := j.workers[w := j'.workers[w]])
    requires !InReport(j.workers[w]) && WorkerOk(j', j'.workers[w])
    ensures Inv(j')
  {
    hide Ownership, InReport;
    forall x | 0 <= x < |j'.log| && j'.log[x].i == j'.nextCommit
      ensures exists v ::
                && 0 <= v < |j'.workers| && InReport(j'.workers[v])
                && (j'.workers[v].Reporting? ==> j'.log[x].port < j'.workers[v].k)
    {
      var v :| 0 <= v < |j.workers| && InReport(j.workers[v])
        && (j.workers[v].Reporting? ==> j.log[x].port < j.workers[v].k);
      assert j'.workers[v] == j.workers[v];
    }
  }

  lemma ReportInv(j: Job, w: nat)
    requires Inv(j) && w < |j.workers| && j.workers[w].Reporting?
    ensures Inv(Move(j, w))
  {
    var j' := Move(j, w);
    assert WorkerOk(j, j.workers[w]);
    KeepOwnership(j, w, j'.workers[w]);
    assert Ownership(j') by { SameOwnership(Go(j, w, j'.workers[w]), j'); }
    forall v | 0 <= v < |j.workers| && v != w ensures !InReport(j.workers[v]) {
      if InReport(j.workers[v]) { OneReporter(j, v, w); }
    }
    ReportLog(j, w);
    hide Ownership, LogOk;
    assert forall l :: l in j.log ==> l in j'.log;
    forall v | 0 <= v < |j'.workers| ensures WorkerOk(j', j'.workers[v]) {
      assert WorkerOk(j, j.workers[v]);
    }
  }

  /** The only reporter adds the line after all its earlier ones. */
  lemma ReportLog(j: Job, w: nat)
    requires LogOk(j) && 1 <= j.nextCommit && w < |j.workers| && j.workers[w].Reporting? && WorkerOk(j, j.workers[w])
    requires forall v :: 0 <= v < |j.workers| && v != w ==> !InReport(j.workers[v])
    ensures LogOk(Move(j, w))
  {
    hide LogOrdered, LogCurrent;
    ReportOrdered(j, w);
    var j' := Move(j, w);
    assert forall l :: l in j.log ==> l in j'.log;
  }

  lemma ReportOrdered(j: Job, w: nat)
    requires LogOrdered(j) && LogCurrent(j) && (forall x :: 0 <= x < |j.log| ==> 1 <= j.log[x].i <= j.nextCommit)
    requires w < |j.workers| && j.workers[w].Reporting? && j.workers[w].i == j.nextCommit
    requires forall v :: 0 <= v < |j.workers| && v != w ==> !InReport(j.workers[v])
    ensures LogOrdered(Move(j, w)) && LogCurrent(Move(j, w))
  {
    var j' := Move(j, w);
    var Reporting(i, n, k) := j.workers[w];
    forall x | 0 <= x < |j.log| ensures LineBefore(j.log[x], Line(i, k)) {
      assert j.log[x].i == j.nextCommit ==> j.log[x].port < k;
    }
    assert InReport(j'.workers[w]);
  }

  lemma SameOwnership(j: Job, j': Job)
    requires Ownership(j) && j' == j.(log := j'.log)
    ensures Ownership(j')
  {
    assert forall i: nat :: Owned(j, i) ==> Owned(j', i);
  }

  lemma CommitInv(j: Job, w: nat)
    requires Inv(j) && w < |j.workers|
             && (j.workers[w].Committing? || (j.workers[w].StopWaiting? && j.workers[w].i == j.nextCommit))
    ensures Inv(Move(j, w))
  {
    var j' := Move(j, w);
    assert WorkerOk(j, j.workers[w]);
    CommitOwnership(j, w);
    assert Owns(j.workers[w], j.nextCommit);
    forall v | 0 <= v < |j'.workers| ensures WorkerOk(j', j'.workers[v]) {
      assert WorkerOk(j, j.workers[v]);
      assert InReport(j.workers[v]) ==> Owns(j.workers[v], j.nextCommit);
    }
    hide Ownership;
  }

  /** Who is asleep does not matter for the order of reports. */
  lemma AnyoneAsleep(j: Job, a: set<nat>)
    requires Inv(j)
    ensures Inv(j.(asleep := a))
  {
    var j' := j.(asleep := a);
    assert forall i: nat :: Owned(j, i) ==> Owned(j', i);
    forall w | 0 <= w < |j.workers| ensures WorkerOk(j', j.workers[w]) { assert WorkerOk(j, j.workers[w]); }
  }

  /** Whoever sleeps has reason to: it is not its turn. */
  ghost predicate SleepOk(j: Job) {
    forall w :: w in j.asleep ==> w < |j.workers| && MustWait(j, j.workers[w])
  }

  lemma ActSleepOk(j: Job, a: Action)
    requires SleepOk(j)
    ensures SleepOk(Act(j, a))
  {
  }

  lemma {:induction false} ExecSleepOk(j: Job, acts: seq<Action>)
    requires SleepOk(j)
    ensures SleepOk(Exec(j, acts))
  {
    hide SleepOk, Act;
    if acts != [] {
      ExecSleepOk(j, acts[..|acts| - 1]);
      ActSleepOk(Exec(j, acts[..|acts| - 1]), acts[|acts| - 1]);
    }
  }

  lemma MoveInv(j: Job, w: nat)
    requires Inv(j) && w < |j.workers|
    ensures Inv(Move(j, w))
  {
    var j', x := Move(j, w), j.workers[w];
    assert WorkerOk(j, x);
    match x {
      case Claiming => ClaimOwnership(j, w); QuietMove(j, w, j');
      case Reporting(_, _, _) => ReportInv(j, w);
      case Committing(_) => CommitInv(j, w);
      case StopWaiting(i) => if i == j.nextCommit { CommitInv(j, w); }
      case Waiting(i, _) => if i == j.nextCommit { KeepOwnership(j, w, j'.workers[w]); QuietMove(j, w, j'); }
      case Exited =>
      case _ => KeepOwnership(j, w, j'.workers[w]); QuietMove(j, w, j');
    }
  }

  lemma ActInv(j: Job, a: Action)
    requires Inv(j)
    ensures Inv(Act(j, a))
  {
    match a
    case Signal =>
      assert forall i: nat :: Owned(j, i) ==> Owned(j.(stop := true), i);
      forall w | 0 <= w < |j.workers|
        ensures WorkerOk(j.(stop := true), j.workers[w]) { assert WorkerOk(j, j.workers[w]); }
    case Fail(w) =>
      if w < |j.workers| && j.workers[w].Starting? {
        KeepOwnership(j, w, Exited);
        QuietMove(j, w, Go(j, w, Exited));
      }
    case Wake(w) => AnyoneAsleep(j, j.asleep - {w});
    case Step(w) =>
      if w < |j.workers| {
        AnyoneAsleep(j, j.asleep + {w});
        MoveInv(j, w);
      }
  }

  lemma {:induction false} ExecInv(j: Job, acts: seq<Action>)
    requires Inv(j)
    ensures Inv(Exec(j, acts))
  {
    hide Inv, Act;
    if acts != [] {
      ExecInv(j, acts[..|acts| - 1]);
      ActInv(Exec(j, acts[..|acts| - 1]), acts[|acts| - 1]);
    }
  }

  // ---- results over every run ----

  /** Reports come out in strictly increasing order, and at most one worker is writing them. */
  lemma OrderedReports(total: nat, ports: nat, workers: nat, acts: seq<Action>, v: nat, w: nat)
    requires ports >= 1
    ensures var j := Exec(Init(total, ports, workers), acts);
            && (forall x, y :: 0 <= x < y < |j.log| ==> LineBefore(j.log[x], j.log[y]))
            && (v < |j.workers| && w < |j.workers| && InReport(j.workers[v]) && InReport(j.workers[w]) ==> v == w)
  {
    var j := Exec(Init(total, ports, workers), acts);
    InitInv(total, ports, workers);
    ExecInv(Init(total, ports, workers), acts);
    hide Exec, Ownership;
    if v < |j.workers| && w < |j.workers| && InReport(j.workers[v]) && InReport(j.workers[w]) {
      OneReporter(j, v, w);
    }
  }

  lemma {:induction false} SizesFixed(j: Job, acts: seq<Action>)
    ensures var j' := Exec(j, acts); j'.total == j.total && j'.ports == j.ports && |j'.workers| == |j.workers|
  {
    if acts != [] {
      SizesFixed(j, acts[..|acts| - 1]);
    }
  }

  /** Without a stop, once every worker is gone and the indices ran out, every port of every
      address was reported. */
  lemma CompleteReports(total: nat, ports: nat, workers: nat, acts: seq<Action>, i: nat, p: nat)
    requires ports >= 1 && 1 <= i <= total && p < ports
    requires var j := Exec(Init(total, ports, workers), acts);
             !j.stop && j.nextClaim > total && forall w :: 0 <= w < |j.workers| ==> j.workers[w].Exited?
    ensures Line(i, p) in Exec(Init(total, ports, workers), acts).log
  {
    var j := Exec(Init(total, ports, workers), acts);
    InitInv(total, ports, workers);
    ExecInv(Init(total, ports, workers), acts);
    SizesFixed(Init(total, ports, workers), acts);
    hide Exec;
    assert j.nextCommit <= total ==> Owned(j, j.nextCommit);
  }

  /**
   * No deadlock and no lost wake-up: while a claimed index is uncommitted, the worker whose turn
   * it is is not asleep, and it can move.
   */
  lemma SomebodyMoves(total: nat, ports: nat, workers: nat, acts: seq<Action>) returns (w: nat)
    requires ports >= 1
    requires var j := Exec(Init(total, ports, workers), acts); j.nextCommit <= j.nextClaim && j.nextCommit <= total
    ensures var j := Exec(Init(total, ports, workers), acts);
            && w < |j.workers| && Owns(j.workers[w], j.nextCommit)
            && w !in j.asleep && WorkerStep(j, w).workers[w] != j.workers[w]
  {
    var j := Exec(Init(total, ports, workers), acts);
    InitInv(total, ports, workers);
    ExecInv(Init(total, ports, workers), acts);
    ExecSleepOk(Init(total, ports, workers), acts);
    SizesFixed(Init(total, ports, workers), acts);
    hide Exec;
    assert Owned(j, j.nextCommit);
    w :| 0 <= w < |j.workers| && Owns(j.workers[w], j.nextCommit);
    assert Move(j, w).workers[w] != j.workers[w];
  }

  /** A worker asleep is always waiting for an index that is still to be committed by another. */
  lemma SleepersWait(total: nat, ports: nat, workers: nat, acts: seq<Action>, w: nat)
    requires ports >= 1 && w in Exec(Init(total, ports, workers), acts).asleep
    ensures var j := Exec(Init(total, ports, workers), acts);
            w < |j.workers| && (j.workers[w].Waiting? || j.workers[w].StopWaiting?) && j.nextCommit < j.workers[w].i
  {
    var j := Exec(Init(total, ports, workers), acts);
    InitInv(total, ports, workers);
    ExecInv(Init(total, ports, workers), acts);
    ExecSleepOk(Init(total, ports, workers), acts);
    hide Exec;
    assert Owns(j.workers[w], j.workers[w].i);
  }

  // ---- the scan ends ----

  /** How many steps a worker can be from its exit, as far as its present index goes. */
  function Left(ports: nat, x: Worker): int {
    match x
    case Starting => 2
    case Claiming => 1
    case Claimed(_) => 7 + 2 * ports
    case Probing(_, n) => 6 + 2 * ports - n
    case Waiting(_, n) => 5 + n
    case Reporting(_, n, k) => 4 + n - k
    case Committing(_) => 3
    case StopWaiting(_) => 1
    case Ending => 2
    case Exited => 0
  }

  function LeftAll(ports: nat, ws: seq<Worker>): int {
    if ws == [] then 0 else LeftAll(ports, ws[..|ws| - 1]) + Left(ports, ws[|ws| - 1])
  }

  function Unclaimed(j: Job): nat { if j.nextClaim < j.total then j.total - j.nextClaim else 0 }

  function Work(j: Job): int { Unclaimed(j) * (7 + 2 * j.ports) + LeftAll(j.ports, j.workers) }

  lemma {:induction false} LeftChanges(ports: nat, ws: seq<Worker>, w: nat, x: Worker)
    requires w < |ws|
    ensures LeftAll(ports, ws[w := x]) == LeftAll(ports, ws) + Left(ports, x) - Left(ports, ws[w])
  {
    hide Left;
    var n := |ws| - 1;
    if w == n {
      assert ws[w := x][..n] == ws[..n];
    } else {
      assert ws[w := x][..n] == ws[..n][w := x];
      LeftChanges(ports, ws[..n], w, x);
    }
  }

  lemma {:induction false} LeftPositive(j: Job, n: nat)
    requires Inv(j) && n <= |j.workers|
    ensures LeftAll(j.ports, j.workers[..n]) >= 0
  {
    hide Ownership, LogOk;
    if n > 0 {
      assert j.workers[..n][..n - 1] == j.workers[..n - 1];
      assert WorkerOk(j, j.workers[n - 1]);
      LeftPositive(j, n - 1);
    }
  }

  lemma WorkPositive(j: Job)
    requires Inv(j)
    ensures Work(j) >= 0
  {
    assert j.workers[..|j.workers|] == j.workers;
    LeftPositive(j, |j.workers|);
  }

  /** Every move of a worker brings the scan closer to its end. */
  lemma MoveShrinks(j: Job, w: nat)
    requires Inv(j) && w < |j.workers| && Move(j, w).workers[w] != j.workers[w]
    ensures Work(Move(j, w)) < Work(j)
  {
    hide Ownership, LogOk, LeftAll;
    assert WorkerOk(j, j.workers[w]);
    LeftChanges(j.ports, j.workers, w, Move(j, w).workers[w]);
    var c := 7 + 2 * j.ports;
    assert Unclaimed(j) > 0 ==> (Unclaimed(j) - 1) * c == Unclaimed(j) * c - c;
  }

  /** As long as somebody has not exited, somebody awake can move. */
  lemma SomeoneMoves(j: Job) returns (w: nat)
    requires Inv(j) && SleepOk(j) && exists v :: 0 <= v < |j.workers| && !j.workers[v].Exited?
    ensures w < |j.workers| && w !in j.asleep && !MustWait(j, j.workers[w]) && Move(j, w).workers[w] != j.workers[w]
  {
    if j.nextCommit <= j.nextClaim && j.nextCommit <= j.total {
      assert Owned(j, j.nextCommit);
      w :| 0 <= w < |j.workers| && Owns(j.workers[w], j.nextCommit);
    } else {
      w :| 0 <= w < |j.workers| && !j.workers[w].Exited?;
      var x := j.workers[w];
      if !x.Starting? && !x.Claiming? && !x.Ending? {
        assert Owns(x, x.i);
      }
    }
  }

  lemma ExecAppend(j: Job, acts: seq<Action>, a: Action)
    ensures Exec(j, acts + [a]) == Act(Exec(j, acts), a)
  {
    hide Act;
    assert (acts + [a])[..|acts|] == acts;
  }

  /** No stop, and somebody is left or the indices have run out. */
  ghost predicate Goes(j: Job) {
    !j.stop && (j.nextClaim > j.total || exists w :: 0 <= w < |j.workers| && !j.workers[w].Exited?)
  }

  /** A worker exits only when it finds no index left. */
  lemma StepGoes(j: Job, w: nat)
    requires Inv(j) && Goes(j) && w < |j.workers|
    ensures Goes(Move(j, w))
  {
    hide Ownership, LogOk;
    assert WorkerOk(j, j.workers[w]);
    var j' := Move(j, w);
    if j.nextClaim <= j.total {
      var v :| 0 <= v < |j.workers| && !j.workers[v].Exited?;
      if v != w {
        assert !j'.workers[v].Exited?;
      } else {
        assert j'.workers[w].Exited? ==> j'.nextClaim > j'.total;
      }
    }
  }

  lemma {:induction false} Finishes(j0: Job, acts: seq<Action>) returns (more: seq<Action>)
    requires Inv(Exec(j0, acts)) && SleepOk(Exec(j0, acts))
    ensures forall a :: a in more ==> a.Step?
    ensures var j := Exec(j0, acts + more);
            && Inv(j) && (forall w :: 0 <= w < |j.workers| ==> j.workers[w].Exited?)
            && (Goes(Exec(j0, acts)) ==> Goes(j))
    decreases Work(Exec(j0, acts))
  {
    hide Exec, Inv, SleepOk, Work, Goes, Move;
    var j := Exec(j0, acts);
    more := [];
    assert acts + [] == acts;
    if exists v :: 0 <= v < |j.workers| && !j.workers[v].Exited? {
      var w := SomeoneMoves(j);
      ExecAppend(j0, acts, Step(w));
      MoveInv(j, w);
      ActSleepOk(j, Step(w));
      MoveShrinks(j, w);
      WorkPositive(Move(j, w));
      if Goes(j) { StepGoes(j, w); }
      var rest := Finishes(j0, acts + [Step(w)]);
      more := [Step(w)] + rest;
      assert acts + more == acts + [Step(w)] + rest;
    }
  }

  /**
   * From every reachable state the workers can bring the scan to its end by themselves, without spurious
   * wake-ups; and if it has not been stopped and anyone is still working, every port of every address is
   * then reported, each once and in order.
   */
  lemma ScanEnds(total: nat, ports: nat, workers: nat, acts: seq<Action>) returns (more: seq<Action>)
    requires ports >= 1
    ensures forall a :: a in more ==> a.Step?
    ensures var j, j' := Exec(Init(total, ports, workers), acts), Exec(Init(total, ports, workers), acts + more);
            && (forall w :: 0 <= w < |j'.workers| ==> j'.workers[w].Exited?)
            && (forall x, y :: 0 <= x < y < |j'.log| ==> LineBefore(j'.log[x], j'.log[y]))
            && (!j.stop && (exists w :: 0 <= w < |j.workers| && !j.workers[w].Exited?) ==>
                  forall i, p :: 1 <= i <= total && 0 <= p < ports ==> Line(i, p) in j'.log)
  {
    hide Exec, Inv;
    var j0 := Init(total, ports, workers);
    InitInv(total, ports, workers);
    ExecInv(j0, acts);
    ExecSleepOk(j0, acts);
    more := Finishes(j0, acts);
    OrderedReports(total, ports, workers, acts + more, 0, 0);
    var j, j' := Exec(j0, acts), Exec(j0, acts + more);
    SizesFixed(j0, acts + more);
    SizesFixed(j0, acts);
    if Goes(j) {
      forall i, p | 1 <= i <= total && 0 <= p < ports ensures Line(i, p) in j'.log {
        CompleteReports(total, ports, workers, acts + more, i, p);
      }
    }
  }

  /** Once the scan is stopped nobody begins to probe an address or probes a further port of one. */
  lemma {:induction false} StopEndsProbing(j: Job, acts: seq<Action>, w: nat)
    requires j.stop && w < |j.workers|
    ensures var j' := Exec(j, acts);
            && j'.stop && |j'.workers| == |j.workers|
            && (j'.workers[w].Probing? ==> j'.workers[w] == j.workers[w])
            && (j'.workers[w].Waiting? ==>
                  j'.workers[w] == j.workers[w]
                  || (j.workers[w].Probing? && j'.workers[w] == Waiting(j.workers[w].i, j.workers[w].n + 1)))
  {
    if acts != [] {
      StopEndsProbing(j, acts[..|acts| - 1], w);
    }
  }

  // ---- the address behind an index ----

  type Octet = n: nat | n < 256

  /** A big-endian address as a number. */
  function Value(a: seq<Octet>): nat {
    if a == [] then 0 else Value(a[..|a| - 1]) * 256 + a[|a| - 1]
  }

  function Pow256(n: nat): (r: nat)
    ensures r > 0
  {
    if n == 0 then 1 else 256 * Pow256(n - 1)
  }

  // A product of two numbers that both vary.
  function Times(x: nat, y: nat): nat {
    x * y
  }

  lemma TimesFacts(x: nat, y: nat)
    ensures Times(x, 256 * y) == 256 * Times(x, y) && Times(x, 1) == x && Times(0, y) == 0
  {
  }

  lemma {:induction false} ValueSplit(a: seq<Octet>, p: nat)
    requires p <= |a|
    ensures Value(a) == Times(Value(a[..p]), Pow256(|a| - p)) + Value(a[p..])
    decreases |a| - p
  {
    hide Times;
    if p == |a| {
      assert a[..p] == a;
      TimesFacts(Value(a), 1);
    } else {
      var n := |a| - 1;
      ValueSplit(a[..n], p);
      assert a[..n][..p] == a[..p] && a[..n][p..] == a[p..][..n - p];
      TimesFacts(Value(a[..p]), Pow256(n - p));
    }
  }

  lemma {:induction false} ValueBound(a: seq<Octet>)
    ensures Value(a) < Pow256(|a|)
  {
    if a != [] {
      ValueBound(a[..|a| - 1]);
    }
  }

  function Low(n: nat): Octet {
    n % 256
  }

  /** What is left to add at octet p, with the octets from p on already settled. */
  ghost predicate Adding(start: seq<Octet>, d: nat, a: seq<Octet>, p: nat, delta: nat) {
    && p <= |a| == |start| && a[..p] == start[..p]
    && Times(Value(start[..p]) + delta, Pow256(|a| - p)) + Value(a[p..]) == Value(start) + d
  }

  /** addr_at: index `i` names the address `i - 1` past the first one, wrapping at the top of the
      address space. The carry loop works in place from the last octet. */
  method AddrAt(start: seq<Octet>, i: nat) returns (a: array<Octet>)
    requires 1 <= i
    ensures fresh(a) && a.Length == |start|
    ensures Value(a[..]) == (Value(start) + (i - 1)) % Pow256(|start|)
  {
    a := new Octet[|start|](k requires 0 <= k < |start| => start[k]);
    var delta: nat := i - 1;
    var p: nat := a.Length;
    assert a[..] == start;
    AddingStart(start, i - 1);
    hide Adding;
    while p > 0 && delta > 0
      invariant 0 <= p <= a.Length == |start|
      invariant Adding(start, i - 1, a[..], p, delta)
    {
      ghost var was := a[..];
      p := p - 1;
      var sum: nat := a[p] + delta % 256;
      a[p] := Low(sum);
      AddingStep(start, i - 1, was, p, delta);
      assert a[..] == was[p := Low(sum)];
      delta := delta / 256 + sum / 256;
    }
    AddingEnd(start, i - 1, a[..], p, delta);
  }

  lemma AddingStart(start: seq<Octet>, d: nat)
    ensures Adding(start, d, start, |start|, d)
  {
    assert start[..|start|] == start && start[|start|..] == [];
    TimesFacts(Value(start) + d, 1);
  }

  lemma AddingStep(start: seq<Octet>, d: nat, a: seq<Octet>, p: nat, delta: nat)
    requires p < |a| && Adding(start, d, a, p + 1, delta)
    ensures var sum := a[p] + delta % 256;
            Adding(start, d, a[p := Low(sum)], p, delta / 256 + sum / 256)
  {
    var x := Low(a[p] + delta % 256);
    var r, rest := a[p := x], a[p + 1..];
    assert start[..p + 1][..p] == start[..p] && a[..p + 1][p] == start[p];
    assert r[p..] == [x] + rest && r[..p] == a[..p + 1][..p];
    assert Value(start[..p + 1]) == Value(start[..p]) * 256 + start[p];
    hide Value, Times;
    StepOk(Value(start[..p]), start[p], delta, Pow256(|rest|), x, rest);
  }

  lemma StepOk(high: nat, octet: Octet, delta: nat, w: nat, x: Octet, rest: seq<Octet>)
    requires w == Pow256(|rest|) && x == Low(octet + delta % 256)
    ensures Times(high * 256 + octet + delta, w) + Value(rest)
         == Times(high + (delta / 256 + (octet + delta % 256) / 256), 256 * w) + Value([x] + rest)
  {
    hide Value, Pow256, Times;
    ValueSplit([x] + rest, 1);
    assert ([x] + rest)[..1] == [x] && ([x] + rest)[1..] == rest;
    ValueOne(x);
    CarryStep(high, octet, delta, w);
  }

  lemma ValueOne(x: Octet)
    ensures Value([x]) == x
  {
    assert [x][..0] == [];
  }

  /** One octet of schoolbook addition. */
  lemma CarryStep(high: nat, octet: Octet, delta: nat, w: nat)
    ensures var sum := octet + delta % 256;
            Times(high * 256 + octet + delta, w)
              == Times(high + (delta / 256 + sum / 256), 256 * w) + Times(Low(sum), w)
  {
    hide Times;
    var sum := octet + delta % 256;
    assert high * 256 + octet + delta == (high + (delta / 256 + sum / 256)) * 256 + sum % 256;
    Distribute(high + (delta / 256 + sum / 256), sum % 256, w);
  }

  lemma Distribute(x: nat, y: nat, w: nat)
    ensures Times(x * 256 + y, w) == Times(x, 256 * w) + Times(y, w)
  {
  }

  lemma AddingEnd(start: seq<Octet>, d: nat, a: seq<Octet>, p: nat, delta: nat)
    requires Adding(start, d, a, p, delta) && (p == 0 || delta == 0)
    ensures Value(a) == (Value(start) + d) % Pow256(|start|)
  {
    hide Pow256, Times;
    ValueSplit(a, p);
    ValueBound(a);
    if p == 0 {
      assert a[0..] == a && start[..0] == [];
    } else {
      TimesFacts(0, Pow256(|start|));
    }
    hide Value;
    Remainder(Value(start) + d, if p == 0 then delta else 0, Pow256(|start|), Value(a));
  }

  lemma Remainder(x: nat, carry: nat, m: nat, r: nat)
    requires x == Times(carry, m) + r && r < m
    ensures x % m == r
  {
    var q := x / m;
    assert x == Times(q, m) + x % m;
    if carry < q {
      Larger(carry, q, m);
    }
    if q < carry {
      Larger(q, carry, m);
    }
  }

  lemma Larger(x: nat, y: nat, m: nat)
    requires x < y
    ensures Times(x, m) + m <= Times(y, m)
  {
    assert y * m == x * m + m + (y - x - 1) * m;
  }
}
