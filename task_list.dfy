/**
 * The chart's task list and the three list operations it performs without a
 * round trip to the store: the search filter over the list shown, and the
 * local updates after the store reports that a task was deleted or that its
 * completion flag was toggled.
 */
module TaskList {
  import opened Calendar
  import opened Status
  import opened Strings
  import opened Options

  /**
   * A task as the chart holds it. `details` and `responsible` are optional;
   * `completed` is optional in the chart's own record type and read only by
   * truthiness, so an absent flag is `false` here.
   */
  datatype Task = Task(
    id: string,
    name: string,
    startDate: Date,
    endDate: Date,
    status: TaskStatus,
    completed: bool,
    details: Option<string>,
    responsible: Option<string>)

  // ---------------------------------------------------------------- subsequences

  /** `a` is `b` with some elements left out, the rest in their order. */
  predicate IsSubsequence<T(==)>(a: seq<T>, b: seq<T>)
    decreases |b|
  {
    if a == [] then true
    else if b == [] then false
    else (a[0] == b[0] && IsSubsequence(a[1..], b[1..])) || IsSubsequence(a, b[1..])
  }

  /**
   * `s.filter(keep)`: the elements `keep` accepts, in their order, each as
   * often as it occurs in `s`; the others not at all.
   */
  function Filter<T(==,!new)>(s: seq<T>, keep: T -> bool): (r: seq<T>)
    ensures IsSubsequence(r, s)
    ensures forall x :: x in r ==> keep(x)
    ensures forall x :: multiset(r)[x] == if keep(x) then multiset(s)[x] else 0
    decreases |s|
  {
    if s == [] then []
    else
      assert s == [s[0]] + s[1..];
      var rest := Filter(s[1..], keep);
      if keep(s[0]) then [s[0]] + rest else rest
  }

  /** Filtering twice with the same test is filtering once. */
  lemma {:induction false} FilterIdempotent<T(!new)>(s: seq<T>, keep: T -> bool)
    ensures Filter(Filter(s, keep), keep) == Filter(s, keep)
    decreases |s|
  {
    if s != [] {
      FilterIdempotent(s[1..], keep);
      var rest := Filter(s[1..], keep);
      if keep(s[0]) {
        assert ([s[0]] + rest)[1..] == rest;
      }
    }
  }

  /** A test that accepts every element keeps the whole list. */
  lemma {:induction false} FilterAll<T(!new)>(s: seq<T>, keep: T -> bool)
    requires forall x :: x in s ==> keep(x)
    ensures Filter(s, keep) == s
    decreases |s|
  {
    if s != [] {
      FilterAll(s[1..], keep);
      assert s == [s[0]] + s[1..];
    }
  }

  // ---------------------------------------------------------------- search

  /**
   * `field && field.toLowerCase().includes(term)` for an optional text field:
   * an absent or empty field never matches.
   */
  predicate FieldMatches(field: Option<string>, termLower: string) {
    field.Some? && field.value != "" && Includes(Lower(field.value), termLower)
  }

  /**
   * The search test: an empty term keeps every task; otherwise the
   * lower-cased term must occur in the lower-cased name, details,
   * responsible or Spanish status label.
   */
  predicate MatchesSearch(t: Task, term: string) {
    term == "" ||
    var termLower := Lower(term);
    || Includes(Lower(t.name), termLower)
    || FieldMatches(t.details, termLower)
    || FieldMatches(t.responsible, termLower)
    || Includes(Lower(StatusName(t.status)), termLower)
  }

  /**
   * `filteredTasks`: the tasks that match the search term, in the order of the
   * list, each as often as in the list; an empty term keeps the list as is.
   */
  function FilteredTasks(tasks: seq<Task>, term: string): (r: seq<Task>)
    ensures IsSubsequence(r, tasks)
    ensures forall t :: t in r ==> MatchesSearch(t, term)
    ensures forall t :: multiset(r)[t] == if MatchesSearch(t, term) then multiset(tasks)[t] else 0
    ensures term == "" ==> r == tasks
  {
    var keep := (t: Task) => MatchesSearch(t, term);
    if term == "" then FilterAll(tasks, keep); Filter(tasks, keep)
    else Filter(tasks, keep)
  }

  /** Searching the result again with the same term changes nothing. */
  lemma SearchIdempotent(tasks: seq<Task>, term: string)
    ensures FilteredTasks(FilteredTasks(tasks, term), term) == FilteredTasks(tasks, term)
  {
    FilterIdempotent(tasks, (t: Task) => MatchesSearch(t, term));
  }

  /** The search ignores the case of the term: it is lower-cased before use. */
  lemma SearchIgnoresTermCase(t: Task, term: string)
    ensures MatchesSearch(t, term) <==> MatchesSearch(t, Lower(term))
  {
    LowerIdempotent(term);
  }

  /**
   * A term occurring in the task's name selects the task, whatever the case
   * of either: the test is a substring test on the lower-cased texts.
   */
  lemma NameOccurrenceMatches(t: Task, term: string, i: int)
    requires OccursAt(Lower(t.name), Lower(term), i)
    ensures MatchesSearch(t, term)
  {
    IncludesIffOccurs(Lower(t.name), Lower(term));
  }

  /** The lower-cased term occurs nowhere in the lower-cased text of `field`, if present. */
  ghost predicate AbsentFrom(field: Option<string>, termLower: string) {
    field.None? || forall i :: !OccursAt(Lower(field.value), termLower, i)
  }

  lemma AbsentFieldDoesNotMatch(field: Option<string>, termLower: string)
    requires AbsentFrom(field, termLower)
    ensures !FieldMatches(field, termLower)
  {
    if field.Some? {
      IncludesIffOccurs(Lower(field.value), termLower);
    }
  }

  /**
   * A non-empty term that occurs in none of the four texts rejects the task.
   */
  lemma NoOccurrenceRejects(t: Task, term: string)
    requires term != ""
    requires forall i :: !OccursAt(Lower(t.name), Lower(term), i)
    requires forall i :: !OccursAt(Lower(StatusName(t.status)), Lower(term), i)
    requires AbsentFrom(t.details, Lower(term)) && AbsentFrom(t.responsible, Lower(term))
    ensures !MatchesSearch(t, term)
  {
    IncludesIffOccurs(Lower(t.name), Lower(term));
    IncludesIffOccurs(Lower(StatusName(t.status)), Lower(term));
    AbsentFieldDoesNotMatch(t.details, Lower(term));
    AbsentFieldDoesNotMatch(t.responsible, Lower(term));
  }

  // ---------------------------------------------------------------- local delete

  /**
   * `tasks.filter(task => task.id !== id)`: every task with that id is gone,
   * every other task stays, in order and with its multiplicity.
   */
  function RemoveTask(tasks: seq<Task>, id: string): (r: seq<Task>)
    ensures IsSubsequence(r, tasks)
    ensures forall t :: t in r ==> t.id != id
    ensures forall t :: multiset(r)[t] == if t.id == id then 0 else multiset(tasks)[t]
  {
    Filter(tasks, (t: Task) => t.id != id)
  }

  /** Removing the same id again changes nothing. */
  lemma RemoveIdempotent(tasks: seq<Task>, id: string)
    ensures RemoveTask(RemoveTask(tasks, id), id) == RemoveTask(tasks, id)
  {
    FilterIdempotent(tasks, (t: Task) => t.id != id);
  }

  /** Removing an id no task carries leaves the list as it was. */
  lemma RemoveAbsent(tasks: seq<Task>, id: string)
    requires forall t :: t in tasks ==> t.id != id
    ensures RemoveTask(tasks, id) == tasks
  {
    FilterAll(tasks, (t: Task) => t.id != id);
  }

  /**
   * The list after a delete: the store's outcome is an input; only on
   * success is the list filtered, on failure it is left alone.
   */
  function AfterDelete(tasks: seq<Task>, id: string, storeSucceeded: bool): (r: seq<Task>)
    ensures storeSucceeded ==> r == RemoveTask(tasks, id)
    ensures !storeSucceeded ==> r == tasks
  {
    if storeSucceeded then RemoveTask(tasks, id) else tasks
  }

  // ---------------------------------------------------------------- local toggle

  /** `tasks.find(t => t.id === id)`: the first task with that id, if any. */
  function FindById(tasks: seq<Task>, id: string): (r: Option<Task>)
    ensures r.Some? ==> r.value in tasks && r.value.id == id
    ensures r.None? <==> forall t :: t in tasks ==> t.id != id
    ensures r.Some? ==> exists i :: 0 <= i < |tasks| && tasks[i] == r.value &&
                          forall j :: 0 <= j < i ==> tasks[j].id != id
    decreases |tasks|
  {
    if tasks == [] then None
    else if tasks[0].id == id then Some(tasks[0])
    else
      var r := FindById(tasks[1..], id);
      if r.Some? then
        ghost var i :| 0 <= i < |tasks[1..]| && tasks[1..][i] == r.value &&
                       forall j :: 0 <= j < i ==> tasks[1..][j].id != id;
        assert tasks[i + 1] == r.value;
        assert forall j :: 0 <= j < i + 1 ==> tasks[j].id != id by {
          forall j | 0 <= j < i + 1 ensures tasks[j].id != id {
            if j > 0 { assert tasks[j] == tasks[1..][j - 1]; }
          }
        }
        r
      else
        assert forall t :: t in tasks ==> t == tasks[0] || t in tasks[1..];
        r
  }

  /** One task with its completion flag flipped, every other field kept. */
  function Flipped(t: Task): (r: Task)
    ensures r.completed == !t.completed
    ensures r.(completed := t.completed) == t
  {
    t.(completed := !t.completed)
  }

  /**
   * `tasks.map(t => t.id === id ? { ...t, completed: !t.completed } : t)`:
   * the list keeps its length and order; each task with that id has its own
   * flag flipped and nothing else changed; every other task is unchanged.
   */
  function ToggleCompleted(tasks: seq<Task>, id: string): (r: seq<Task>)
    ensures |r| == |tasks|
    ensures forall i :: 0 <= i < |tasks| && tasks[i].id != id ==> r[i] == tasks[i]
    ensures forall i :: 0 <= i < |tasks| && tasks[i].id == id ==>
      r[i].completed == !tasks[i].completed && r[i].(completed := tasks[i].completed) == tasks[i]
    decreases |tasks|
  {
    if tasks == [] then []
    else
      var head := if tasks[0].id == id then Flipped(tasks[0]) else tasks[0];
      [head] + ToggleCompleted(tasks[1..], id)
  }

  /** Toggling the same id twice restores the list. */
  lemma ToggleTwice(tasks: seq<Task>, id: string)
    ensures ToggleCompleted(ToggleCompleted(tasks, id), id) == tasks
  {
    var once := ToggleCompleted(tasks, id);
    var twice := ToggleCompleted(once, id);
    forall i | 0 <= i < |tasks| ensures twice[i] == tasks[i] {
      assert once[i].id == tasks[i].id by {
        if tasks[i].id == id {
          assert once[i].(completed := tasks[i].completed) == tasks[i];
        }
      }
    }
  }

  /** Toggling an id no task carries leaves the list as it was. */
  lemma ToggleAbsent(tasks: seq<Task>, id: string)
    requires forall t :: t in tasks ==> t.id != id
    ensures ToggleCompleted(tasks, id) == tasks
  {
    var r := ToggleCompleted(tasks, id);
    forall i | 0 <= i < |tasks| ensures r[i] == tasks[i] {
      assert tasks[i] in tasks;
    }
  }

  /** The toggle keeps every task's id in place, so the set of ids is unchanged. */
  lemma ToggleKeepsIds(tasks: seq<Task>, id: string)
    ensures var r := ToggleCompleted(tasks, id);
      forall i :: 0 <= i < |tasks| ==> r[i].id == tasks[i].id
  {
    var r := ToggleCompleted(tasks, id);
    forall i | 0 <= i < |tasks| ensures r[i].id == tasks[i].id {
      if tasks[i].id == id {
        assert r[i].(completed := tasks[i].completed) == tasks[i];
      }
    }
  }

  /**
   * The list after "mark as completed": nothing happens when no task has the
   * id (the handler returns before calling the store); otherwise the store's
   * outcome is an input, and only on success is the list toggled.
   */
  function AfterToggle(tasks: seq<Task>, id: string, storeSucceeded: bool): (r: seq<Task>)
    ensures FindById(tasks, id).None? ==> r == tasks
    ensures FindById(tasks, id).Some? && storeSucceeded ==> r == ToggleCompleted(tasks, id)
    ensures !storeSucceeded ==> r == tasks
  {
    match FindById(tasks, id)
    case None => tasks
    case Some(_) => if storeSucceeded then ToggleCompleted(tasks, id) else tasks
  }
}
