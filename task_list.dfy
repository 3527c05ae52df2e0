/** The list computations of the to-do component: each is a pure function from the old
    task list to the new one, as the component's handlers pass them to setTasks. */
module TaskList {

  /** A task id: the component takes it from Date.now(), so two tasks can share one. */
  type TaskId = int

  /** One to-do item. */
  datatype Task = Task(id: TaskId, text: string, completed: bool)

  /** The ids of the tasks, in list order. */
  function Ids(tasks: seq<Task>): (r: seq<TaskId>)
    ensures |r| == |tasks|
    ensures forall i :: 0 <= i < |tasks| ==> r[i] == tasks[i].id
  {
    if tasks == [] then [] else [tasks[0].id] + Ids(tasks[1..])
  }

  /** No two tasks share an id: the component does not enforce it, but it holds
      whenever every add supplies an id not already in the list. */
  predicate DistinctIds(tasks: seq<Task>) {
    forall i, j :: 0 <= i < j < |tasks| ==> tasks[i].id != tasks[j].id
  }

  /** The list after adding a task: `[...tasks, { id, text, completed: false }]`. */
  function Appended(tasks: seq<Task>, id: TaskId, text: string): (r: seq<Task>)
    ensures |r| == |tasks| + 1
    ensures r[..|tasks|] == tasks
    ensures r[|tasks|].id == id && r[|tasks|].text == text && !r[|tasks|].completed
  {
    tasks + [Task(id, text, false)]
  }

  /** The list after saving an edit: every task whose id equals `id` gets `text` as its
      text, verbatim; everything else is kept. */
  function WithText(tasks: seq<Task>, id: TaskId, text: string): (r: seq<Task>)
    ensures |r| == |tasks|
    ensures forall i :: 0 <= i < |tasks| ==>
      r[i].id == tasks[i].id && r[i].completed == tasks[i].completed &&
      r[i].text == (if tasks[i].id == id then text else tasks[i].text)
  {
    if tasks == [] then []
    else
      var t := tasks[0];
      [if t.id == id then t.(text := text) else t] + WithText(tasks[1..], id, text)
  }

  /** The list after toggling: every task whose id equals `id` has its completed flag
      negated; ids, texts and order are kept. */
  function Toggled(tasks: seq<Task>, id: TaskId): (r: seq<Task>)
    ensures |r| == |tasks|
    ensures forall i :: 0 <= i < |tasks| ==>
      r[i].id == tasks[i].id && r[i].text == tasks[i].text &&
      r[i].completed == (if tasks[i].id == id then !tasks[i].completed else tasks[i].completed)
  {
    if tasks == [] then []
    else
      var t := tasks[0];
      [if t.id == id then t.(completed := !t.completed) else t] + Toggled(tasks[1..], id)
  }

  /** Whether a task is shown under the given filter: the filter's if-chain, in which any
      value other than "completed" and "pending" shows every task. */
  predicate Shown(task: Task, filter: string) {
    if filter == "completed" then task.completed
    else if filter == "pending" then !task.completed
    else true
  }

  /** The visible tasks: `tasks.filter(...)`, keeping list order. Every task it returns is
      one of `tasks` and is shown, and every shown task of `tasks` is in it (as many times
      as it occurs there, by FilteredCounts). */
  function Filtered(tasks: seq<Task>, filter: string): (r: seq<Task>)
    ensures |r| <= |tasks|
    ensures forall t :: t in r <==> t in tasks && Shown(t, filter)
  {
    if tasks == [] then []
    else (if Shown(tasks[0], filter) then [tasks[0]] else []) + Filtered(tasks[1..], filter)
  }

  /** `sub` is obtained from `s` by deleting elements, without reordering the rest. */
  predicate IsSubsequence<T(==)>(sub: seq<T>, s: seq<T>)
    decreases |s|
  {
    if sub == [] then true
    else if s == [] then false
    else (sub[0] == s[0] && IsSubsequence(sub[1..], s[1..])) || IsSubsequence(sub, s[1..])
  }

  // ---------------------------------------------------------------------------------
  // Properties of the list computations

  /** Adding keeps the ids distinct when the new id is not already taken. */
  lemma AppendedFreshKeepsDistinct(tasks: seq<Task>, id: TaskId, text: string)
    requires DistinctIds(tasks) && id !in Ids(tasks)
    ensures DistinctIds(Appended(tasks, id, text))
  {
  }

  /** Saving an edit keeps the ids, and so keeps them distinct. */
  lemma WithTextKeepsIds(tasks: seq<Task>, id: TaskId, text: string)
    ensures Ids(WithText(tasks, id, text)) == Ids(tasks)
    ensures DistinctIds(tasks) ==> DistinctIds(WithText(tasks, id, text))
  {
    var r := WithText(tasks, id, text);
    assert forall i :: 0 <= i < |tasks| ==> Ids(r)[i] == Ids(tasks)[i];
  }

  /** Toggling keeps the ids, and so keeps them distinct. */
  lemma ToggledKeepsIds(tasks: seq<Task>, id: TaskId)
    ensures Ids(Toggled(tasks, id)) == Ids(tasks)
    ensures DistinctIds(tasks) ==> DistinctIds(Toggled(tasks, id))
  {
    var r := Toggled(tasks, id);
    assert forall i :: 0 <= i < |tasks| ==> Ids(r)[i] == Ids(tasks)[i];
  }

  /** Toggling the same id twice gives back the original list. */
  lemma ToggledTwice(tasks: seq<Task>, id: TaskId)
    ensures Toggled(Toggled(tasks, id), id) == tasks
  {
  }

  /** With distinct ids, toggling an id present at position k flips that one task only. */
  lemma ToggledUnique(tasks: seq<Task>, k: nat)
    requires DistinctIds(tasks) && k < |tasks|
    ensures Toggled(tasks, tasks[k].id) == tasks[k := tasks[k].(completed := !tasks[k].completed)]
  {
  }

  /** With distinct ids, saving an edit for the id at position k rewrites that one task only. */
  lemma WithTextUnique(tasks: seq<Task>, k: nat, text: string)
    requires DistinctIds(tasks) && k < |tasks|
    ensures WithText(tasks, tasks[k].id, text) == tasks[k := tasks[k].(text := text)]
  {
  }

  /** Saving an edit or toggling for an id no task has leaves the list as it was. */
  lemma AbsentIdChangesNothing(tasks: seq<Task>, id: TaskId, text: string)
    requires id !in Ids(tasks)
    ensures WithText(tasks, id, text) == tasks && Toggled(tasks, id) == tasks
  {
    assert forall i :: 0 <= i < |tasks| ==> tasks[i].id == Ids(tasks)[i];
  }

  /** The visible list keeps the order of the task list: it is a subsequence of it. */
  lemma {:induction false} FilteredIsSubsequence(tasks: seq<Task>, filter: string)
    ensures IsSubsequence(Filtered(tasks, filter), tasks)
  {
    if tasks != [] {
      FilteredIsSubsequence(tasks[1..], filter);
      var rest := Filtered(tasks[1..], filter);
      if Shown(tasks[0], filter) {
        assert Filtered(tasks, filter) == [tasks[0]] + rest;
        assert ([tasks[0]] + rest)[1..] == rest;
      } else {
        assert Filtered(tasks, filter) == rest;
        if rest != [] {
          assert IsSubsequence(rest, tasks[1..]);
        }
      }
    }
  }

  /** The visible list holds each shown task as many times as the task list does, and no
      hidden task at all. */
  lemma {:induction false} FilteredCounts(tasks: seq<Task>, filter: string, t: Task)
    ensures multiset(Filtered(tasks, filter))[t] == if Shown(t, filter) then multiset(tasks)[t] else 0
  {
    if tasks != [] {
      FilteredCounts(tasks[1..], filter, t);
      var head := tasks[0];
      var kept := if Shown(head, filter) then [head] else [];
      assert Filtered(tasks, filter) == kept + Filtered(tasks[1..], filter);
      assert multiset(tasks) == multiset([head]) + multiset(tasks[1..]) by {
        assert tasks == [head] + tasks[1..];
      }
    }
  }

  /** Under "all", and under any value other than "completed" or "pending", nothing is hidden. */
  lemma {:induction false} FilteredShowsAll(tasks: seq<Task>, filter: string)
    requires filter != "completed" && filter != "pending"
    ensures Filtered(tasks, filter) == tasks
  {
    if tasks != [] {
      FilteredShowsAll(tasks[1..], filter);
      assert [tasks[0]] + tasks[1..] == tasks;
    }
  }

  /** The "completed" and "pending" views partition the list: every task, counted with its
      multiplicity, is in exactly one of them, and their lengths add up to the list's. */
  lemma CompletedPendingPartition(tasks: seq<Task>)
    ensures multiset(Filtered(tasks, "completed")) + multiset(Filtered(tasks, "pending")) == multiset(tasks)
    ensures |Filtered(tasks, "completed")| + |Filtered(tasks, "pending")| == |tasks|
    ensures forall t :: t in Filtered(tasks, "completed") ==> t !in Filtered(tasks, "pending")
  {
    var c, p := Filtered(tasks, "completed"), Filtered(tasks, "pending");
    forall t ensures (multiset(c) + multiset(p))[t] == multiset(tasks)[t] {
      FilteredCounts(tasks, "completed", t);
      FilteredCounts(tasks, "pending", t);
    }
    assert multiset(c) + multiset(p) == multiset(tasks);
    assert |multiset(c) + multiset(p)| == |c| + |p|;
    forall t | t in c ensures t !in p {
      assert t.completed;
    }
  }
}
