/** Greedy task allocation (internal/team/allocation.go:48-113, 207-215). */
module Allocation {
  datatype Task = Task(role: string, blockedBy: seq<string>)

  datatype Worker = Worker(name: string, role: string, primaryRole: string)

  datatype Reason = NoAvailableWorkers | Selected(name: string, score: int)

  datatype Decision = Decision(owner: string, reason: Reason)

  /** The order in which the source compares names. */
  predicate Less(a: string, b: string) {
    b != [] && (a == [] || a[0] < b[0] || (a[0] == b[0] && Less(a[1..], b[1..])))
  }

  lemma {:induction false} LessIsTotal(a: string, b: string)
    ensures !(Less(a, b) && Less(b, a))
    ensures Less(a, b) || Less(b, a) || a == b
    ensures a == b ==> !Less(a, b)
  {
    if a != [] && b != [] {
      LessIsTotal(a[1..], b[1..]);
      assert a == [a[0]] + a[1..] && b == [b[0]] + b[1..];
    }
  }

  lemma {:induction false} LessIsTransitive(a: string, b: string, c: string)
    requires Less(a, b) && Less(b, c)
    ensures Less(a, c)
  {
    if a != [] && a[0] == b[0] && b[0] == c[0] {
      LessIsTransitive(a[1..], b[1..], c[1..]);
    }
  }

  /** How many of the assignments went to a worker. */
  function Load(assignments: seq<Decision>, name: string): nat {
    if assignments == [] then 0
    else Load(assignments[..|assignments| - 1], name) + if assignments[|assignments| - 1].owner == name then 1 else 0
  }

  method CountAssignments(assignments: seq<Decision>, name: string) returns (count: nat)
    ensures count == Load(assignments, name)
  {
    count := 0;
    for i := 0 to |assignments|
      invariant count == Load(assignments[..i], name)
    {
      assert assignments[..i + 1][..i] == assignments[..i];
      if assignments[i].owner == name {
        count := count + 1;
      }
    }
    assert assignments[..|assignments|] == assignments;
  }

  function EffectiveRole(worker: Worker): string {
    if worker.role == "" then worker.primaryRole else worker.role
  }

  /** The part of a score that does not grow with the load. */
  function Affinity(task: Task, worker: Worker, held: nat): int {
    (if task.role != "" && worker.primaryRole == task.role then 18 else 0)
    + (if task.role != "" && EffectiveRole(worker) == task.role then 12 else 0)
    + (if task.role != "" && worker.primaryRole == "" && held == 0 then 5 else 0)
  }

  function Score(task: Task, worker: Worker, held: nat): int {
    Affinity(task, worker, held) - held * 4 - if |task.blockedBy| > 0 then held else 0
  }

  method ScoreWorker(task: Task, worker: Worker, held: nat) returns (score: int)
    ensures score == Score(task, worker, held)
  {
    score := 0;
    var role := if worker.role == "" then worker.primaryRole else worker.role;
    if task.role != "" && worker.primaryRole == task.role {
      score := score + 18;
    }
    if task.role != "" && role == task.role {
      score := score + 12;
    }
    if task.role != "" && worker.primaryRole == "" && held == 0 {
      score := score + 5;
    }
    score := score - held * 4;
    if |task.blockedBy| > 0 {
      score := score - held;
    }
  }

  datatype Bid = Bid(score: int, held: nat, name: string)

  function BidOf(task: Task, worker: Worker, current: seq<Decision>): Bid {
    var held := Load(current, worker.name);
    Bid(Score(task, worker, held), held, worker.name)
  }

  predicate Beats(a: Bid, b: Bid) {
    || a.score > b.score
    || (a.score == b.score && (a.held < b.held || (a.held == b.held && Less(a.name, b.name))))
  }

  lemma BeatsIsTransitive(a: Bid, b: Bid, c: Bid)
    requires !Beats(b, a) && !Beats(c, b)
    ensures !Beats(c, a)
  {
    LessIsTotal(a.name, b.name);
    LessIsTotal(b.name, c.name);
    LessIsTotal(a.name, c.name);
    if Less(a.name, b.name) && Less(b.name, c.name) {
      LessIsTransitive(a.name, b.name, c.name);
    }
  }

  ghost predicate NoneBeats(bids: seq<Bid>, best: Bid) {
    forall k :: 0 <= k < |bids| ==> !Beats(bids[k], best)
  }

  lemma BetterOf(bids: seq<Bid>, i: nat, best: Bid)
    requires i < |bids| && NoneBeats(bids[..i], best)
    ensures NoneBeats(bids[..i + 1], if i == 0 || Beats(bids[i], best) then bids[i] else best)
  {
    LessIsTotal(bids[i].name, bids[i].name);
    LessIsTotal(bids[i].name, best.name);
    if i > 0 && Beats(bids[i], best) {
      forall k | 0 <= k < i ensures !Beats(bids[k], bids[i]) {
        assert !Beats(bids[..i][k], best);
        BeatsIsTransitive(bids[i], best, bids[k]);
      }
    }
  }

  /** The decision names a worker whose bid no other worker's bid beats. */
  ghost predicate IsChoice(task: Task, workers: seq<Worker>, current: seq<Decision>, decision: Decision) {
    if workers == [] then decision == Decision("", NoAvailableWorkers)
    else exists w :: w in workers && IsChoiceOf(task, workers, current, decision, w)
  }

  ghost predicate IsChoiceOf(task: Task, workers: seq<Worker>, current: seq<Decision>, decision: Decision, w: Worker) {
    var bid := BidOf(task, w, current);
    && decision == Decision(w.name, Selected(w.name, bid.score))
    && forall v :: v in workers ==> !Beats(BidOf(task, v, current), bid)
  }

  /** The choice is unique, and depends on the workers only as a collection: their order in the list
      does not matter. */
  lemma ChoiceIgnoresOrder(task: Task, workers: seq<Worker>, others: seq<Worker>, current: seq<Decision>, d: Decision, e: Decision)
    requires multiset(workers) == multiset(others)
    requires IsChoice(task, workers, current, d) && IsChoice(task, others, current, e)
    ensures d == e
  {
    assert forall w :: w in workers <==> w in multiset(workers);
    assert forall w :: w in others <==> w in multiset(others);
    if workers == [] {
      assert others == [];
    } else {
      assert workers[0] in others;
      var v :| v in workers && IsChoiceOf(task, workers, current, d, v);
      var w :| w in others && IsChoiceOf(task, others, current, e, w);
      assert !Beats(BidOf(task, v, current), BidOf(task, w, current));
      assert !Beats(BidOf(task, w, current), BidOf(task, v, current));
      LessIsTotal(v.name, w.name);
    }
  }

  ghost predicate NoneBefore(name: string, workers: seq<Worker>) {
    forall w :: w in multiset(workers) ==> !Less(w.name, name)
  }

  ghost predicate SortedByName(workers: seq<Worker>) {
    workers == [] || (NoneBefore(workers[0].name, workers[1..]) && SortedByName(workers[1..]))
  }

  /** A copy of the workers in name order. */
  function SortByName(workers: seq<Worker>): (sorted: seq<Worker>)
    ensures multiset(sorted) == multiset(workers) && SortedByName(sorted)
  {
    if workers == [] then []
    else
      assert workers == [workers[0]] + workers[1..];
      InsertByName(workers[0], SortByName(workers[1..]))
  }

  function InsertByName(worker: Worker, sorted: seq<Worker>): (longer: seq<Worker>)
    requires SortedByName(sorted)
    ensures multiset(longer) == multiset{worker} + multiset(sorted) && SortedByName(longer)
  {
    if sorted == [] then [worker]
    else if Less(worker.name, sorted[0].name) then
      FirstIsBeforeAll(worker.name, sorted);
      SortedWithFirst(worker, sorted);
      [worker] + sorted
    else
      assert sorted == [sorted[0]] + sorted[1..];
      var rest := InsertByName(worker, sorted[1..]);
      SortedWithFirst(sorted[0], rest);
      [sorted[0]] + rest
  }

  lemma SortedWithFirst(first: Worker, rest: seq<Worker>)
    requires NoneBefore(first.name, rest) && SortedByName(rest)
    ensures SortedByName([first] + rest)
  {
    assert ([first] + rest)[1..] == rest;
  }

  lemma FirstIsBeforeAll(name: string, sorted: seq<Worker>)
    requires SortedByName(sorted) && sorted != [] && Less(name, sorted[0].name)
    ensures NoneBefore(name, sorted)
  {
    assert sorted == [sorted[0]] + sorted[1..];
    forall w | w in multiset(sorted) ensures !Less(w.name, name) {
      LessIsTotal(w.name, name);
      if Less(w.name, name) {
        LessIsTransitive(w.name, name, sorted[0].name);
        LessIsTotal(w.name, w.name);
      }
    }
  }

  method ChooseTaskOwner(task: Task, workers: seq<Worker>, current: seq<Decision>) returns (decision: Decision)
    ensures IsChoice(task, workers, current, decision)
  {
    if |workers| == 0 {
      return Decision("", NoAvailableWorkers);
    }
    var sorted := SortByName(workers);
    assert |sorted| == |multiset(sorted)| == |multiset(workers)| == |workers|;
    ghost var bids := seq(|sorted|, k requires 0 <= k < |sorted| => BidOf(task, sorted[k], current));
    var best := Bid(0, 0, "");
    ghost var winner := 0;
    for i := 0 to |sorted|
      invariant i > 0 ==> winner < i && best == bids[winner]
      invariant NoneBeats(bids[..i], best)
    {
      var worker := sorted[i];
      var held := CountAssignments(current, worker.name);
      var score := ScoreWorker(task, worker, held);
      var bid := Bid(score, held, worker.name);
      BetterOf(bids, i, best);
      if i == 0 || Beats(bid, best) {
        best := bid;
        winner := i;
      }
    }
    decision := Decision(best.name, Selected(best.name, best.score));
    forall v | v in workers ensures !Beats(BidOf(task, v, current), best) {
      assert v in multiset(sorted);
      var k :| 0 <= k < |sorted| && sorted[k] == v;
      assert bids[..|sorted|][k] == BidOf(task, v, current);
    }
    assert sorted[winner] in multiset(workers);
    assert IsChoiceOf(task, workers, current, decision, sorted[winner]);
  }

  /** Each task goes to the choice made in view of the assignments before it. */
  ghost predicate IsAllocation(tasks: seq<Task>, workers: seq<Worker>, decisions: seq<Decision>) {
    |decisions| == |tasks| && forall i :: 0 <= i < |tasks| ==> IsChoice(tasks[i], workers, decisions[..i], decisions[i])
  }

  lemma AllocationExtends(tasks: seq<Task>, workers: seq<Worker>, decisions: seq<Decision>, task: Task, decision: Decision)
    requires IsAllocation(tasks, workers, decisions) && IsChoice(task, workers, decisions, decision)
    ensures IsAllocation(tasks + [task], workers, decisions + [decision])
  {
    var n := |tasks|;
    var longer := decisions + [decision];
    assert longer[..n] == decisions;
    assert forall i :: 0 <= i <= n ==> longer[..i] == decisions[..i];
  }

  method AllocateTasksToWorkers(tasks: seq<Task>, workers: seq<Worker>) returns (decisions: seq<Decision>)
    ensures IsAllocation(tasks, workers, decisions)
  {
    decisions := [];
    for k := 0 to |tasks|
      invariant IsAllocation(tasks[..k], workers, decisions)
    {
      var decision := ChooseTaskOwner(tasks[k], workers, decisions);
      AllocationExtends(tasks[..k], workers, decisions, tasks[k], decision);
      decisions := decisions + [decision];
      assert tasks[..k + 1] == tasks[..k] + [tasks[k]];
    }
    assert tasks[..|tasks|] == tasks;
  }

  /** The chosen worker is at most seven assignments ahead of any other before it gets the task, and
      not ahead at all when the task has no role. */
  lemma ChosenIsNotFarAhead(task: Task, workers: seq<Worker>, current: seq<Decision>, decision: Decision, v: Worker)
    requires v in workers && IsChoice(task, workers, current, decision)
    ensures Load(current, decision.owner) <= Load(current, v.name) + if task.role == "" then 0 else 7
  {
    var w :| w in workers && IsChoiceOf(task, workers, current, decision, w);
    assert !Beats(BidOf(task, v, current), BidOf(task, w, current));
  }

  lemma PrefixIsAllocation(tasks: seq<Task>, workers: seq<Worker>, decisions: seq<Decision>, n: nat)
    requires IsAllocation(tasks, workers, decisions) && n < |tasks|
    ensures IsAllocation(tasks[..n], workers, decisions[..n])
    ensures IsChoice(tasks[n], workers, decisions[..n], decisions[n])
  {
    assert forall i :: 0 <= i < n ==> decisions[..n][..i] == decisions[..i];
  }

  /** For every worker list and every task list, no two workers' loads differ by more than 8, nor by
      more than 1 when no task has a role. */
  lemma {:induction false} LoadsStayBalanced(
    tasks: seq<Task>, workers: seq<Worker>, decisions: seq<Decision>, most: nat, v: Worker, w: Worker)
    requires IsAllocation(tasks, workers, decisions) && v in workers && w in workers
    requires most == 8 || (most == 1 && forall i :: 0 <= i < |tasks| ==> tasks[i].role == "")
    ensures Load(decisions, w.name) <= Load(decisions, v.name) + most
  {
    if tasks != [] {
      var n := |tasks| - 1;
      PrefixIsAllocation(tasks, workers, decisions, n);
      LoadsStayBalanced(tasks[..n], workers, decisions[..n], most, v, w);
      ChosenIsNotFarAhead(tasks[n], workers, decisions[..n], decisions[n], v);
    }
  }

  /** One more specialist task for the specialist. */
  lemma OneMoreForSpecialist(tasks: seq<Task>, decisions: seq<Decision>) returns (task: Task, decision: Decision)
    requires IsAllocation(tasks, PAIR, decisions) && Load(decisions, "a") <= 7 && Load(decisions, "b") == 0
    ensures IsAllocation(tasks + [task], PAIR, decisions + [decision]) && decision.owner == "a"
  {
    task := Task("x", []);
    decision := SpecialistIsChosen(task, decisions);
    AllocationExtends(tasks, PAIR, decisions, task, decision);
  }

  lemma LoadAfter(decisions: seq<Decision>, decision: Decision, name: string)
    ensures Load(decisions + [decision], name) == Load(decisions, name) + if decision.owner == name then 1 else 0
  {
    assert (decisions + [decision])[..|decisions|] == decisions;
  }

  const PAIR := [Worker("a", "x", "x"), Worker("b", "y", "y")]

  lemma SpecialistIsChosen(task: Task, current: seq<Decision>) returns (decision: Decision)
    requires Load(current, "a") <= 7 && Load(current, "b") == 0 && task == Task("x", [])
    ensures IsChoice(task, PAIR, current, decision) && decision.owner == "a"
  {
    decision := Decision("a", Selected("a", 30 - 4 * Load(current, "a")));
    var a, b := PAIR[0], PAIR[1];
    assert BidOf(task, a, current) == Bid(30 - 4 * Load(current, "a"), Load(current, "a"), "a");
    assert BidOf(task, b, current) == Bid(0, 0, "b");
    LessIsTotal("a", "a");
    assert forall w :: w in PAIR ==> w == a || w == b;
    assert a in PAIR && IsChoiceOf(task, PAIR, current, decision, a);
  }

  /** The bound of 8 is reached: eight tasks for a specialist's role all go to the specialist. */
  lemma {:induction false} BoundIsTight(n: nat) returns (tasks: seq<Task>, decisions: seq<Decision>)
    requires n <= 8
    ensures IsAllocation(tasks, PAIR, decisions)
    ensures Load(decisions, "a") == n && Load(decisions, "b") == 0
  {
    if n == 0 {
      tasks, decisions := [], [];
    } else {
      var before, current := BoundIsTight(n - 1);
      var task, decision := OneMoreForSpecialist(before, current);
      tasks, decisions := before + [task], current + [decision];
      LoadAfter(current, decision, "a");
      LoadAfter(current, decision, "b");
    }
  }

  // ---------------------------------------------------------------------------------------------
  // What a role is worth
  // ---------------------------------------------------------------------------------------------

  /** How a worker suits a task with a role: by its primary role, by the role it works under. */
  predicate Suits(task: Task, w: Worker, primarily: bool, effectively: bool) {
    task.role != "" && (w.primaryRole == task.role <==> primarily)
    && ((if w.role == "" then w.primaryRole else w.role) == task.role <==> effectively)
  }

  /** The worker has a primary role, or a task already. */
  predicate IsSettled(w: Worker, held: nat) {
    w.primaryRole != "" || held > 0
  }

  lemma BetterIsChosen(task: Task, v: Worker, w: Worker, current: seq<Decision>, d: Decision)
    requires v.name != w.name && IsChoice(task, [v, w], current, d)
    ensures d.owner == v.name <==> Beats(BidOf(task, v, current), BidOf(task, w, current))
    ensures d.owner == v.name || d.owner == w.name
  {
    var u :| u in [v, w] && IsChoiceOf(task, [v, w], current, d, u);
    assert v in [v, w] && w in [v, w];
    LessIsTotal(v.name, w.name);
  }

  /** Between two workers, what suiting the task is worth in assignments: up to how many more than the other
      the better suited one may have and still be chosen. */
  lemma SuitedIsChosenIff(task: Task, v: Worker, w: Worker, current: seq<Decision>, d: Decision)
    requires v.name != w.name && IsChoice(task, [v, w], current, d) && task.blockedBy == []
    requires IsSettled(v, Load(current, v.name)) && IsSettled(w, Load(current, w.name))
    ensures
      var ahead := Load(current, v.name) - Load(current, w.name);
      && (Suits(task, v, true, true) && Suits(task, w, false, false) ==> (d.owner == v.name <==> ahead <= 7))
      && (Suits(task, v, true, true) && Suits(task, w, false, true) ==> (d.owner == v.name <==> ahead <= 4))
      && (Suits(task, v, true, true) && Suits(task, w, true, false) ==> (d.owner == v.name <==> ahead <= 2))
      && (Suits(task, v, true, false) && Suits(task, w, false, false) ==> (d.owner == v.name <==> ahead <= 4))
      && (Suits(task, v, true, false) && Suits(task, w, false, true) ==> (d.owner == v.name <==> ahead <= 1))
      && (Suits(task, v, false, true) && Suits(task, w, false, false) ==> (d.owner == v.name <==> ahead <= 2))
  {
    BetterIsChosen(task, v, w, current, d);
  }

  /** For a task that waits for others, each assignment counts a quarter more. */
  lemma SuitedIsChosenForBlockedIff(task: Task, v: Worker, w: Worker, current: seq<Decision>, d: Decision)
    requires v.name != w.name && IsChoice(task, [v, w], current, d) && task.blockedBy != []
    requires IsSettled(v, Load(current, v.name)) && IsSettled(w, Load(current, w.name))
    ensures
      var ahead := Load(current, v.name) - Load(current, w.name);
      && (Suits(task, v, true, true) && Suits(task, w, false, false) ==> (d.owner == v.name <==> ahead <= 5))
      && (Suits(task, v, true, false) && Suits(task, w, false, false) ==> (d.owner == v.name <==> ahead <= 3))
      && (Suits(task, v, false, true) && Suits(task, w, false, false) ==> (d.owner == v.name <==> ahead <= 2))
  {
    BetterIsChosen(task, v, w, current, d);
  }

  /** Equally suited workers, and any workers when the task has no role, are told apart by their loads and
      then by their names. */
  lemma EquallySuitedByLoad(task: Task, v: Worker, w: Worker, current: seq<Decision>, d: Decision)
    requires v.name != w.name && IsChoice(task, [v, w], current, d)
    requires task.role == "" || exists p, e :: Suits(task, v, p, e) && Suits(task, w, p, e)
    requires IsSettled(v, Load(current, v.name)) && IsSettled(w, Load(current, w.name))
    ensures
      var held, others := Load(current, v.name), Load(current, w.name);
      d.owner == v.name <==> held < others || (held == others && Less(v.name, w.name))
  {
    BetterIsChosen(task, v, w, current, d);
  }

  /** A worker without a primary role and without a task is preferred to one with a primary role that does not
      suit the task, and to a suited one from so many assignments on. */
  lemma IdleGeneralistIsChosenIff(task: Task, v: Worker, w: Worker, current: seq<Decision>, d: Decision)
    requires v.name != w.name && IsChoice(task, [v, w], current, d) && task.blockedBy == []
    requires v.primaryRole == "" && Load(current, v.name) == 0 && Suits(task, v, false, false)
    requires w.primaryRole != ""
    ensures
      var held := Load(current, w.name);
      && (Suits(task, w, false, true) ==> (d.owner == v.name <==> held >= 2))
      && (Suits(task, w, true, false) ==> (d.owner == v.name <==> held >= 4))
      && (Suits(task, w, true, true) ==> (d.owner == v.name <==> held >= 7))
      && (Suits(task, w, false, false) ==> d.owner == v.name)
  {
    BetterIsChosen(task, v, w, current, d);
  }
}
