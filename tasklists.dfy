/** The task-list extractor: scans the token stream of a Markdown lexer
    and reports every task-list item (`- [ ] name` / `- [x] name`) with its
    name and whether it is checked. */
module Tasklists {

  /** One token of the lexer's output. `kind` is the token's `type`
      (`"list_item_start"`, `"text"`, ...); `task` and `checked` are set on
      list items; `text` is set on text tokens. */
  datatype Token = Token(kind: string, task: bool, checked: bool, text: string)

  /** A task-list item as it is yielded. */
  datatype Task = Task(name: string, completed: bool)

  /** The loop examines the indices `i < tokens.length - 2`. */
  function ScanLimit(n: nat): (k: nat)
    ensures k + 2 <= n || (n < 2 && k == 0)
  {
    if n < 2 then 0 else n - 2
  }

  /** Index `i` holds the start of a task item whose next token is text. */
  predicate IsTaskStart(tokens: seq<Token>, i: nat)
    requires i + 1 < |tokens|
  {
    && tokens[i].kind == "list_item_start"
    && tokens[i].task
    && tokens[i + 1].kind == "text"
  }

  /** The task read from a task start at `i`: the name from the text that
      follows, the completion from the item's checkbox. */
  function TaskAt(tokens: seq<Token>, i: nat): Task
    requires i + 1 < |tokens|
  {
    Task(tokens[i + 1].text, tokens[i].checked)
  }

  /** The tasks found at the indices below `k`, in index order. */
  function TasksBelow(tokens: seq<Token>, k: nat): seq<Task>
    requires k <= ScanLimit(|tokens|)
  {
    if k == 0 then []
    else TasksBelow(tokens, k - 1) + (if IsTaskStart(tokens, k - 1) then [TaskAt(tokens, k - 1)] else [])
  }

  /** Everything the generator yields for `tokens`. */
  function Tasks(tokens: seq<Token>): seq<Task> {
    TasksBelow(tokens, ScanLimit(|tokens|))
  }

  /** The generator `tasks`, run to completion: the loop with its
      `continue`s, collecting each yielded task. Every index it reads,
      including the lookahead `tokens[i + 1]`, is in bounds. */
  method ExtractTasks(tokens: seq<Token>) returns (found: seq<Task>)
    ensures found == Tasks(tokens)
  {
    found := [];
    for i := 0 to ScanLimit(|tokens|)
      invariant found == TasksBelow(tokens, i)
    {
      var token := tokens[i];
      if token.kind != "list_item_start" {
        continue;
      }
      if !token.task {
        continue;
      }
      var nextToken := tokens[i + 1];
      if nextToken.kind != "text" {
        continue;
      }
      found := found + [Task(nextToken.text, token.checked)];
    }
  }

  /** The token indices the tasks below `k` come from. */
  ghost function TaskIndicesBelow(tokens: seq<Token>, k: nat): seq<nat>
    requires k <= ScanLimit(|tokens|)
  {
    if k == 0 then []
    else TaskIndicesBelow(tokens, k - 1) + (if IsTaskStart(tokens, k - 1) then [k - 1] else [])
  }

  ghost function TaskIndices(tokens: seq<Token>): seq<nat> {
    TaskIndicesBelow(tokens, ScanLimit(|tokens|))
  }

  /** The tasks below `k` are exactly those read at the task starts below
      `k`, one per task start, in strictly increasing index order. */
  lemma {:induction false} TasksBelowCharacterised(tokens: seq<Token>, k: nat)
    requires k <= ScanLimit(|tokens|)
    ensures var idx := TaskIndicesBelow(tokens, k);
      && |TasksBelow(tokens, k)| == |idx|
      && (forall m | 0 <= m < |idx| :: idx[m] < k && IsTaskStart(tokens, idx[m])
                                       && TasksBelow(tokens, k)[m] == TaskAt(tokens, idx[m]))
      && (forall m, n | 0 <= m < n < |idx| :: idx[m] < idx[n])
      && (forall i: nat | i < k && IsTaskStart(tokens, i) :: i in idx)
  {
    if k > 0 {
      TasksBelowCharacterised(tokens, k - 1);
    }
  }

  /** Soundness, completeness and order of the extractor: the yielded
      tasks correspond one to one, in increasing index order, to the task
      starts among the examined indices (all below `length - 2`); each
      yields the text after it as its name and its checkbox as `completed`. */
  lemma TasksCharacterised(tokens: seq<Token>)
    ensures var idx := TaskIndices(tokens);
      && |Tasks(tokens)| == |idx|
      && (forall m | 0 <= m < |idx| :: idx[m] + 2 < |tokens| && IsTaskStart(tokens, idx[m])
                                       && Tasks(tokens)[m] == TaskAt(tokens, idx[m]))
      && (forall m, n | 0 <= m < n < |idx| :: idx[m] < idx[n])
      && (forall i: nat | i + 2 < |tokens| && IsTaskStart(tokens, i) :: i in idx)
  {
    TasksBelowCharacterised(tokens, ScanLimit(|tokens|));
  }

  /** At most one task per examined index. */
  lemma {:induction false} TasksBelowBound(tokens: seq<Token>, k: nat)
    requires k <= ScanLimit(|tokens|)
    ensures |TasksBelow(tokens, k)| <= k
  {
    if k > 0 {
      TasksBelowBound(tokens, k - 1);
    }
  }

  /** The number of tasks is at most `max(0, length - 2)`; in particular
      fewer than three tokens yield nothing. */
  lemma TasksBound(tokens: seq<Token>)
    ensures |Tasks(tokens)| <= ScanLimit(|tokens|)
    ensures |tokens| < 3 ==> Tasks(tokens) == []
  {
    TasksBelowBound(tokens, ScanLimit(|tokens|));
  }

  /** The last token is never read: replacing it changes nothing. So a
      task start followed by its text as the final two tokens is dropped. */
  lemma {:induction false} LastTokenNeverRead(tokens: seq<Token>, last: Token)
    requires |tokens| >= 1
    ensures Tasks(tokens[..|tokens| - 1] + [last]) == Tasks(tokens)
  {
    var other := tokens[..|tokens| - 1] + [last];
    assert |other| == |tokens|;
    LastTokenNeverReadBelow(tokens, other, ScanLimit(|tokens|));
  }

  lemma {:induction false} LastTokenNeverReadBelow(tokens: seq<Token>, other: seq<Token>, k: nat)
    requires 1 <= |other| == |tokens| && other[..|other| - 1] == tokens[..|tokens| - 1]
    requires k <= ScanLimit(|tokens|)
    ensures TasksBelow(other, k) == TasksBelow(tokens, k)
  {
    if k > 0 {
      LastTokenNeverReadBelow(tokens, other, k - 1);
      assert other[k - 1] == other[..|other| - 1][k - 1];
      assert other[k] == other[..|other| - 1][k];
    }
  }
}
