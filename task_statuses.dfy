/** The pull-request task-list reporter: given the pull-request event, the
    contexts of the commit statuses already on the head commit and the
    `report_tasks` input, works out the commit statuses to create — one per
    task, one "Removed" error per previously reported task that has
    disappeared, and a summary. Statuses are returned as request records;
    sending them is left to the caller. */
module TaskStatuses {
  import opened Wrappers
  import opened JsStrings
  import opened Tasklists

  datatype Repository = Repository(name: string, ownerLogin: string)
  datatype PullRequest = PullRequest(body: string, headSha: Option<string>)
  /** The part of the webhook event payload that is read. */
  datatype Event = Event(pullRequest: Option<PullRequest>, repository: Repository)
  datatype EventDetails = EventDetails(body: string, repo: string, owner: string, sha: Option<string>)

  datatype CommitState = Success | Pending | Error

  /** The arguments of one `createCommitStatus` call. */
  datatype StatusRequest = StatusRequest(
    repo: string, owner: string, sha: Option<string>,
    context: string, description: Option<string>, state: CommitState)

  /** Existing statuses with a context starting with this are tasks reported earlier. */
  const TaskPrefix: string := "Tasklists Task:"
  const SummaryContext: string := "Tasklists: Completed"

  /** `getEventDetails`: nothing for an event that is not about a pull request. */
  function GetEventDetails(event: Event): (details: Option<EventDetails>)
    ensures details.None? <==> event.pullRequest.None?
    ensures details.Some? ==>
      && details.value.body == event.pullRequest.value.body
      && details.value.sha == event.pullRequest.value.headSha
      && details.value.repo == event.repository.name
      && details.value.owner == event.repository.ownerLogin
  {
    match event.pullRequest
    case None => None
    case Some(pr) => Some(EventDetails(pr.body, event.repository.name, event.repository.ownerLogin, pr.headSha))
  }

  /** The context a task's status is reported under. It carries the
      prefix that marks it as a task status, and the task's name can be
      read back from it. */
  function TaskContext(name: string): (context: string)
    ensures StartsWith(context, TaskPrefix)
    ensures |context| == |TaskPrefix| + 1 + |name| && context[|TaskPrefix| + 1..] == name
  {
    "Tasklists Task: " + name
  }

  predicate Distinct(s: seq<string>) {
    forall i, j | 0 <= i < j < |s| :: s[i] != s[j]
  }

  /** The contexts of the existing statuses that carry the task prefix, in order. */
  function PrefixedContexts(contexts: seq<string>): (r: seq<string>)
    ensures forall c :: c in r <==> c in contexts && StartsWith(c, TaskPrefix)
  {
    if contexts == [] then []
    else (if StartsWith(contexts[0], TaskPrefix) then [contexts[0]] else []) + PrefixedContexts(contexts[1..])
  }

  /** `Set.prototype.add` on an insertion-ordered set kept as a sequence. */
  function SetAdd(s: seq<string>, x: string): seq<string> {
    if x in s then s else s + [x]
  }

  /** Adding the elements of `xs` one by one to an empty set. */
  function Dedup(xs: seq<string>): seq<string> {
    if xs == [] then [] else SetAdd(Dedup(xs[..|xs| - 1]), xs[|xs| - 1])
  }

  /** The set built from `xs` holds each distinct element of `xs` once. */
  lemma {:induction false} DedupMembers(xs: seq<string>)
    ensures Distinct(Dedup(xs))
    ensures forall c :: c in Dedup(xs) <==> c in xs
  {
    if xs != [] {
      DedupMembers(xs[..|xs| - 1]);
      assert xs == xs[..|xs| - 1] + [xs[|xs| - 1]];
    }
  }

  /** The elements of `s` not in `names`, in their order (`Set.prototype.delete`
      of each name). */
  function Without(s: seq<string>, names: seq<string>): seq<string> {
    if s == [] then []
    else (if s[0] in names then [] else [s[0]]) + Without(s[1..], names)
  }

  /** Deleting names keeps exactly the other elements, each once. */
  lemma {:induction false} WithoutMembers(s: seq<string>, names: seq<string>)
    ensures forall c :: c in Without(s, names) <==> c in s && c !in names
    ensures Distinct(s) ==> Distinct(Without(s, names))
  {
    if s != [] {
      WithoutMembers(s[1..], names);
      assert s == [s[0]] + s[1..];
    }
  }

  lemma {:induction false} WithoutNothing(s: seq<string>)
    ensures Without(s, []) == s
  {
    if s != [] {
      WithoutNothing(s[1..]);
      assert [s[0]] + s[1..] == s;
    }
  }

  /** Deleting one more name from the set. */
  lemma {:induction false} WithoutOneMore(s: seq<string>, names: seq<string>, x: string)
    ensures Without(Without(s, names), [x]) == Without(s, names + [x])
  {
    if s != [] {
      WithoutOneMore(s[1..], names, x);
      var rest := Without(s[1..], names);
      var head := s[0];
      if head in names {
        assert head in names + [x];
        assert Without(s, names) == rest;
        assert Without(s, names + [x]) == Without(s[1..], names + [x]);
      } else {
        var w := [head] + rest;
        assert Without(s, names) == w;
        assert w[0] == head && w[1..] == rest;
        assert Without(w, [x]) == (if head in [x] then [] else [head]) + Without(rest, [x]);
        assert head in names + [x] <==> head == x;
      }
    }
  }

  /** The removal candidates: the distinct contexts of existing statuses
      that start with the task prefix, in first-seen order. */
  function Candidates(existing: seq<string>): (r: seq<string>)
    ensures Distinct(r)
    ensures forall c :: c in r <==> c in existing && StartsWith(c, TaskPrefix)
  {
    DedupMembers(PrefixedContexts(existing));
    Dedup(PrefixedContexts(existing))
  }

  function ContextsOf(tasks: seq<Task>): (r: seq<string>)
    ensures |r| == |tasks| && forall i | 0 <= i < |tasks| :: r[i] == TaskContext(tasks[i].name)
  {
    seq(|tasks|, i requires 0 <= i < |tasks| => TaskContext(tasks[i].name))
  }

  /** The candidates no current task claims, each once, in first-seen order. */
  function RemovedNames(existing: seq<string>, tasks: seq<Task>): (r: seq<string>)
    ensures Distinct(r)
    ensures forall c :: c in r <==>
      && c in existing && StartsWith(c, TaskPrefix)
      && forall t | t in tasks :: TaskContext(t.name) != c
  {
    var contexts := ContextsOf(tasks);
    assert forall t | t in tasks :: TaskContext(t.name) in contexts by {
      forall t | t in tasks ensures TaskContext(t.name) in contexts {
        var i :| 0 <= i < |tasks| && tasks[i] == t;
        assert contexts[i] == TaskContext(t.name);
      }
    }
    WithoutMembers(Candidates(existing), contexts);
    Without(Candidates(existing), contexts)
  }

  /** The number of completed tasks. */
  function CountCompleted(tasks: seq<Task>): (n: nat)
    ensures n <= |tasks|
  {
    if tasks == [] then 0
    else CountCompleted(tasks[..|tasks| - 1]) + (if tasks[|tasks| - 1].completed then 1 else 0)
  }

  /** All tasks are completed exactly when the count reaches the total,
      and none is exactly when it is zero. */
  lemma {:induction false} CountCompletedExtremes(tasks: seq<Task>)
    ensures CountCompleted(tasks) == |tasks| <==> forall t | t in tasks :: t.completed
    ensures CountCompleted(tasks) == 0 <==> forall t | t in tasks :: !t.completed
  {
    if tasks != [] {
      var init := tasks[..|tasks| - 1];
      CountCompletedExtremes(init);
      assert tasks == init + [tasks[|tasks| - 1]];
    }
  }

  function TaskStatus(d: EventDetails, task: Task): StatusRequest {
    StatusRequest(d.repo, d.owner, d.sha, TaskContext(task.name), None,
                  if task.completed then Success else Pending)
  }

  function RemovalStatus(d: EventDetails, context: string): StatusRequest {
    StatusRequest(d.repo, d.owner, d.sha, context, Some("Removed"), Error)
  }

  function SummaryDescription(completed: nat, total: nat): string {
    if total == 0 then "No tasks"
    else NatToString(completed) + " of " + NatToString(total) + " tasks"
  }

  function SummaryStatus(d: EventDetails, completed: nat, total: nat): StatusRequest {
    StatusRequest(d.repo, d.owner, d.sha, SummaryContext, Some(SummaryDescription(completed, total)),
                  if completed == total then Success else Pending)
  }

  function TaskStatusList(d: EventDetails, tasks: seq<Task>): seq<StatusRequest> {
    seq(|tasks|, i requires 0 <= i < |tasks| => TaskStatus(d, tasks[i]))
  }

  function RemovalStatusList(d: EventDetails, names: seq<string>): seq<StatusRequest> {
    seq(|names|, i requires 0 <= i < |names| => RemovalStatus(d, names[i]))
  }

  /** The statuses one run creates for a pull request, in creation order. */
  function Plan(d: EventDetails, reportTasks: bool, existing: seq<string>, tasks: seq<Task>): seq<StatusRequest> {
    var summary := SummaryStatus(d, CountCompleted(tasks), |tasks|);
    if reportTasks then TaskStatusList(d, tasks) + RemovalStatusList(d, RemovedNames(existing, tasks)) + [summary]
    else [summary]
  }

  /** Per-task statuses come first, in task order, then one "Removed"
      error per removed candidate in first-seen order, then the summary,
      last; without `reportTasks` the summary is the only status. Every
      status is for the pull request's repository and head commit. */
  lemma PlanLayout(d: EventDetails, reportTasks: bool, existing: seq<string>, tasks: seq<Task>)
    ensures var plan := Plan(d, reportTasks, existing, tasks);
      var removed := RemovedNames(existing, tasks);
      var n := if reportTasks then |tasks| + |removed| else 0;
      && |plan| == n + 1
      && plan[n].context == SummaryContext
      && (forall i | 0 <= i < |plan| :: plan[i].repo == d.repo && plan[i].owner == d.owner && plan[i].sha == d.sha)
      && (reportTasks ==> forall i | 0 <= i < |tasks| ::
            && plan[i].context == TaskContext(tasks[i].name)
            && plan[i].description == None
            && (plan[i].state == Success <==> tasks[i].completed)
            && (plan[i].state == Pending <==> !tasks[i].completed))
      && (reportTasks ==> forall j | 0 <= j < |removed| ::
            && plan[|tasks| + j].context == removed[j]
            && plan[|tasks| + j].description == Some("Removed")
            && plan[|tasks| + j].state == Error)
  {
  }

  /** The summary status: success exactly when every task is completed
      (so also when there are none), "No tasks" exactly when there are no
      tasks, and otherwise "<completed> of <total> tasks". */
  lemma SummaryFacts(d: EventDetails, reportTasks: bool, existing: seq<string>, tasks: seq<Task>)
    ensures var plan := Plan(d, reportTasks, existing, tasks);
      var summary := plan[|plan| - 1];
      && summary.context == SummaryContext
      && (summary.state == Success <==> forall t | t in tasks :: t.completed)
      && (summary.state == Pending <==> exists t | t in tasks :: !t.completed)
      && (summary.description == Some("No tasks") <==> tasks == [])
      && (tasks != [] ==>
            summary.description == Some(NatToString(CountCompleted(tasks)) + " of " + NatToString(|tasks|) + " tasks"))
  {
    CountCompletedExtremes(tasks);
    var desc := SummaryDescription(CountCompleted(tasks), |tasks|);
    if tasks != [] {
      assert desc[0] == NatToString(CountCompleted(tasks))[0];
      assert '0' <= desc[0] <= '9';
      assert desc != "No tasks";
    }
  }

  function StatusContexts(statuses: seq<StatusRequest>): (r: seq<string>)
    ensures |r| == |statuses| && forall i | 0 <= i < |statuses| :: r[i] == statuses[i].context
  {
    seq(|statuses|, i requires 0 <= i < |statuses| => statuses[i].context)
  }

  /** The contexts of a reporting run's statuses: the task contexts, the
      removed candidates and the summary context. */
  lemma PlanContexts(d: EventDetails, existing: seq<string>, tasks: seq<Task>)
    ensures forall c :: c in StatusContexts(Plan(d, true, existing, tasks)) <==>
      c in ContextsOf(tasks) || c in RemovedNames(existing, tasks) || c == SummaryContext
  {
    var removed := RemovedNames(existing, tasks);
    var summary := SummaryStatus(d, CountCompleted(tasks), |tasks|);
    var taskPart, removedPart := TaskStatusList(d, tasks), RemovalStatusList(d, removed);
    assert StatusContexts(taskPart) == ContextsOf(tasks);
    assert StatusContexts(removedPart) == removed;
    StatusContextsAppend(taskPart, removedPart);
    StatusContextsAppend(taskPart + removedPart, [summary]);
    assert Plan(d, true, existing, tasks) == taskPart + removedPart + [summary];
    assert StatusContexts([summary]) == [SummaryContext];
  }

  lemma StatusContextsAppend(a: seq<StatusRequest>, b: seq<StatusRequest>)
    ensures StatusContexts(a + b) == StatusContexts(a) + StatusContexts(b)
  {
  }

  /** Across runs: the contexts one reporting run creates are, on the next
      run, recognised as removal candidates exactly when they are this
      run's candidates or this run's task contexts; the summary is never
      one. */
  lemma NextRunCandidates(d: EventDetails, existing: seq<string>, tasks: seq<Task>)
    ensures !StartsWith(SummaryContext, TaskPrefix)
    ensures var next := Candidates(StatusContexts(Plan(d, true, existing, tasks)));
      forall c :: c in next <==> c in Candidates(existing) || exists t | t in tasks :: c == TaskContext(t.name)
  {
    assert SummaryContext[10] != TaskPrefix[10];
    var contexts := StatusContexts(Plan(d, true, existing, tasks));
    var own := ContextsOf(tasks);
    PlanContexts(d, existing, tasks);
    forall c
      ensures c in own <==> exists t | t in tasks :: c == TaskContext(t.name)
    {
      if c in own {
        var i :| 0 <= i < |own| && own[i] == c;
        assert tasks[i] in tasks;
      }
      if t :| t in tasks && c == TaskContext(t.name) {
        var i :| 0 <= i < |tasks| && tasks[i] == t;
        assert own[i] == c;
      }
    }
  }

  /** The statuses `main` creates: none unless the event is about a pull
      request; the task list is what the lexer `lex` and the extractor find
      in the pull request's body; tasks are reported one by one only when
      the `report_tasks` input is exactly `"true"`. */
  function Requests(reportTasksInput: string, event: Event, existing: seq<string>,
                    lex: string -> seq<Token>): seq<StatusRequest>
  {
    match GetEventDetails(event)
    case None => []
    case Some(d) => Plan(d, reportTasksInput == "true", existing, Tasks(lex(d.body)))
  }

  /** The removal candidates gathered into `danglingTasksNames`: none
      unless tasks are reported. */
  method CollectDangling(reportTasks: bool, existingContexts: seq<string>)
    returns (danglingTasksNames: seq<string>)
    ensures danglingTasksNames == if reportTasks then Candidates(existingContexts) else []
  {
    danglingTasksNames := [];
    if reportTasks {
      var danglingStatuses := PrefixedContexts(existingContexts);
      for k := 0 to |danglingStatuses|
        invariant danglingTasksNames == Dedup(danglingStatuses[..k])
      {
        assert danglingStatuses[..k + 1][..k] == danglingStatuses[..k];
        danglingTasksNames := SetAdd(danglingTasksNames, danglingStatuses[k]);
      }
      assert danglingStatuses[..|danglingStatuses|] == danglingStatuses;
    }
  }

  /** The loop over the tasks: counts them and the completed ones and, when
      tasks are reported, issues one status per task and deletes its
      context from the dangling names. */
  method ReportEachTask(d: EventDetails, reportTasks: bool, tasks: seq<Task>, dangling: seq<string>)
    returns (statuses: seq<StatusRequest>, remaining: seq<string>, completedCount: nat, totalCount: nat)
    ensures totalCount == |tasks| && completedCount == CountCompleted(tasks)
    ensures remaining == if reportTasks then Without(dangling, ContextsOf(tasks)) else dangling
    ensures statuses == if reportTasks then TaskStatusList(d, tasks) else []
  {
    statuses, remaining := [], dangling;
    completedCount, totalCount := 0, 0;
    WithoutNothing(dangling);
    for k := 0 to |tasks|
      invariant totalCount == k
      invariant completedCount == CountCompleted(tasks[..k])
      invariant remaining == if reportTasks then Without(dangling, ContextsOf(tasks[..k])) else dangling
      invariant statuses == if reportTasks then TaskStatusList(d, tasks[..k]) else []
    {
      var task := tasks[k];
      assert tasks[..k + 1][..k] == tasks[..k] && tasks[..k + 1][k] == task;
      assert CountCompleted(tasks[..k + 1]) == CountCompleted(tasks[..k]) + (if task.completed then 1 else 0);
      totalCount := totalCount + 1;
      if task.completed {
        completedCount := completedCount + 1;
      }
      if reportTasks {
        var name := "Tasklists Task: " + task.name;
        assert ContextsOf(tasks[..k + 1]) == ContextsOf(tasks[..k]) + [name];
        WithoutOneMore(dangling, ContextsOf(tasks[..k]), name);
        assert TaskStatusList(d, tasks[..k + 1]) == TaskStatusList(d, tasks[..k]) + [TaskStatus(d, task)];
        remaining := Without(remaining, [name]);
        statuses := statuses + [StatusRequest(d.repo, d.owner, d.sha, name, None,
                                              if task.completed then Success else Pending)];
      }
    }
    assert tasks[..|tasks|] == tasks;
  }

  /** One "Removed" error status per remaining dangling name, in set order. */
  method ReportRemoved(d: EventDetails, danglingTasksNames: seq<string>)
    returns (statuses: seq<StatusRequest>)
    ensures statuses == RemovalStatusList(d, danglingTasksNames)
  {
    statuses := [];
    for k := 0 to |danglingTasksNames|
      invariant statuses == RemovalStatusList(d, danglingTasksNames[..k])
    {
      statuses := statuses + [StatusRequest(d.repo, d.owner, d.sha, danglingTasksNames[k], Some("Removed"), Error)];
    }
  }

  /** `main`, with the event payload, the `report_tasks` input, the contexts
      returned by `listCommitStatusesForRef` and the Markdown lexer given as
      arguments, and the `createCommitStatus` calls returned in the order
      they are issued. */
  method Run(reportTasksInput: string, event: Event, existingContexts: seq<string>,
             lex: string -> seq<Token>)
    returns (statuses: seq<StatusRequest>)
    ensures statuses == Requests(reportTasksInput, event, existingContexts, lex)
    ensures event.pullRequest.None? ==> statuses == []
  {
    var reportTasks := reportTasksInput == "true";
    var details := GetEventDetails(event);
    if details.None? {
      return [];
    }
    var d := details.value;
    var danglingTasksNames := CollectDangling(reportTasks, existingContexts);
    var tasks := ExtractTasks(lex(d.body));
    var taskStatuses, completedCount, totalCount;
    taskStatuses, danglingTasksNames, completedCount, totalCount :=
      ReportEachTask(d, reportTasks, tasks, danglingTasksNames);
    var removed := ReportRemoved(d, danglingTasksNames);
    if !reportTasks {
      assert danglingTasksNames == [];
    }
    var completed := completedCount == totalCount;
    statuses := taskStatuses + removed + [StatusRequest(d.repo, d.owner, d.sha, SummaryContext,
      Some(if totalCount == 0 then "No tasks"
           else NatToString(completedCount) + " of " + NatToString(totalCount) + " tasks"),
      if completed then Success else Pending)];
  }
}
