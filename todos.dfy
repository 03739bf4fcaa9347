/**
 * The todo record and the pure logic of the todo controller: the draft
 * validation pipeline, removal by id and the case-insensitive search view.
 */
module Todos {
  import opened Wrappers
  import opened Text
  import opened Seqs

  /** A calendar date/time value; the model never inspects its field, only compares dates. */
  datatype Date = Date(epochMillis: int)

  /**
   * A todo record. The date is optional because the draft's date field can be
   * cleared in the form, which the validation pipeline checks for.
   */
  datatype Todo = Todo(id: int, taskName: string, taskDate: Option<Date>)

  /** The popups the controller shows; `NoMessage` when none is shown. */
  datatype Popup =
    | NoMessage
    | TaskNameRequired
    | DuplicateTaskName
    | TaskDateRequired
    | ErrorAddingTodo
    | UpdateFailed
    | SuccessfullyUpdated

  datatype Icon = ErrorIcon | SuccessIcon

  datatype Dialog = Dialog(icon: Icon, title: string, text: string)

  /** The icon, title and text of each popup. */
  function DialogOf(p: Popup): (d: Option<Dialog>)
    ensures d.None? <==> p == NoMessage
    ensures d.Some? ==> (d.value.icon == SuccessIcon <==> p == SuccessfullyUpdated)
    ensures d.Some? ==> d.value.title != [] && d.value.text != []
  {
    match p
    case NoMessage => None
    case TaskNameRequired =>
      Some(Dialog(ErrorIcon, "Task Name Required", "Please enter a task Name."))
    case DuplicateTaskName =>
      Some(Dialog(ErrorIcon, "Duplicate Task Name",
        "A task with this name already exists. Please enter a unique task Name."))
    case TaskDateRequired =>
      Some(Dialog(ErrorIcon, "Task Date Required", "Please enter a task Date."))
    case ErrorAddingTodo =>
      Some(Dialog(ErrorIcon, "Error Adding Todo",
        "There was an error adding the todo. Please try again."))
    case UpdateFailed =>
      Some(Dialog(ErrorIcon, "Update Failed",
        "There was an error updating the todo. Please try again."))
    case SuccessfullyUpdated =>
      Some(Dialog(SuccessIcon, "Successfully Updated",
        "The todo has been updated successfully."))
  }

  /** The empty draft: no name, the current date and the placeholder id 1. */
  function Draft(now: Date): (d: Todo)
    ensures d.taskName == [] && d.taskDate == Some(now) && d.id == 1
  {
    Todo(1, "", Some(now))
  }

  function HasName(name: string): Todo -> bool
  {
    (t: Todo) => t.taskName == name
  }

  function NotId(id: int): Todo -> bool
  {
    (t: Todo) => t.id != id
  }

  /** Does the draft's name equal (case-sensitively) the name of an existing todo? */
  function NameTaken(todos: seq<Todo>, name: string): (r: bool)
    ensures r <==> exists i :: 0 <= i < |todos| && todos[i].taskName == name
  {
    Any(todos, HasName(name))
  }

  /**
   * The validation pipeline run before a draft is submitted: name present,
   * name not taken, date present, in that order; the first failure decides.
   */
  function Validate(todos: seq<Todo>, draft: Todo): (r: Popup)
    ensures r in {NoMessage, TaskNameRequired, DuplicateTaskName, TaskDateRequired}
    ensures draft.taskName == [] ==> r == TaskNameRequired
    ensures draft.taskName != [] && (exists i :: 0 <= i < |todos| && todos[i].taskName == draft.taskName)
      ==> r == DuplicateTaskName
    ensures draft.taskName != [] && (forall i :: 0 <= i < |todos| ==> todos[i].taskName != draft.taskName)
      ==> r == (if draft.taskDate.None? then TaskDateRequired else NoMessage)
  {
    if draft.taskName == [] then TaskNameRequired
    else if NameTaken(todos, draft.taskName) then DuplicateTaskName
    else if draft.taskDate.None? then TaskDateRequired
    else NoMessage
  }

  /** The list after a confirmed delete: every entry with another id, in order. */
  function RemoveById(todos: seq<Todo>, id: int): (r: seq<Todo>)
    ensures forall t :: t in r ==> t in todos && t.id != id
    ensures forall t :: t in todos && t.id != id ==> t in r
    ensures IsSubseq(r, todos)
    ensures forall t :: t in multiset(todos) ==>
      multiset(r)[t] == if t.id != id then multiset(todos)[t] else 0
    ensures (forall i :: 0 <= i < |todos| ==> todos[i].id != id) ==> r == todos
  {
    FilterKeepsAll(todos, NotId(id));
    Filter(todos, NotId(id))
  }

  /** The search test: the lower-cased name contains the lower-cased term. */
  function Matches(t: Todo, searchTerm: string): (r: bool)
    ensures r <==> Occurs(Lower(t.taskName), Lower(searchTerm))
  {
    Includes(Lower(t.taskName), Lower(searchTerm))
  }

  /** The search test with the term already lower-cased once. */
  function NameContains(searchTermLower: string): Todo -> bool
  {
    (t: Todo) => Includes(Lower(t.taskName), searchTermLower)
  }

  /** The filtered view shown for a search term. */
  function FilteredTodos(todos: seq<Todo>, searchTerm: string): (r: seq<Todo>)
    ensures searchTerm == [] ==> r == todos
    ensures IsSubseq(r, todos)
    ensures forall t :: t in r ==> t in todos && Matches(t, searchTerm)
    ensures forall t :: t in todos && Matches(t, searchTerm) ==> t in r
    ensures forall t :: t in multiset(todos) ==>
      multiset(r)[t] == if Matches(t, searchTerm) then multiset(todos)[t] else 0
  {
    if searchTerm == [] then
      SubseqRefl(todos);
      todos
    else
      Filter(todos, NameContains(Lower(searchTerm)))
  }

  /** The search ignores the case of the term. */
  lemma MatchIgnoresTermCase(t: Todo, searchTerm: string)
    ensures Matches(t, searchTerm) == Matches(t, Lower(searchTerm))
  {
    LowerIdempotent(searchTerm);
  }

  /** Narrowing the view by the same term again changes nothing. */
  lemma FilteredIdempotent(todos: seq<Todo>, searchTerm: string)
    ensures FilteredTodos(FilteredTodos(todos, searchTerm), searchTerm) == FilteredTodos(todos, searchTerm)
  {
    if searchTerm != [] {
      FilterIdempotent(todos, NameContains(Lower(searchTerm)));
    }
  }

  /** Appending a todo appends it to the view exactly when it matches. */
  lemma FilteredAfterAppend(todos: seq<Todo>, saved: Todo, searchTerm: string)
    ensures FilteredTodos(todos + [saved], searchTerm)
         == FilteredTodos(todos, searchTerm) + (if Matches(saved, searchTerm) then [saved] else [])
  {
    if searchTerm != [] {
      var p := NameContains(Lower(searchTerm));
      FilterAppend(todos, [saved], p);
      assert Filter([saved], p) == (if p(saved) then [saved] else []) by {
        assert [saved][1..] == [];
      }
    }
  }

  /** Deleting from the list and then searching equals deleting from the view. */
  lemma FilteredAfterRemove(todos: seq<Todo>, id: int, searchTerm: string)
    ensures FilteredTodos(RemoveById(todos, id), searchTerm) == RemoveById(FilteredTodos(todos, searchTerm), id)
  {
    if searchTerm != [] {
      FilterCommute(todos, NotId(id), NameContains(Lower(searchTerm)));
    }
  }

  function DistinctNames(a: Todo, b: Todo): bool
  {
    a.taskName != b.taskName
  }

  /**
   * The shape the validation pipeline aims at: every name non-empty and
   * unique, every date present.
   */
  ghost predicate WellFormed(todos: seq<Todo>)
  {
    (forall t :: t in todos ==> t.taskName != [] && t.taskDate.Some?) &&
    Pairwise(todos, DistinctNames)
  }

  /** The created record carries the name and date that were submitted. */
  predicate Echoes(saved: Todo, draft: Todo)
  {
    saved.taskName == draft.taskName && saved.taskDate == draft.taskDate
  }

  /** Appending a record that passed validation keeps the list well formed. */
  lemma AddKeepsWellFormed(todos: seq<Todo>, draft: Todo, saved: Todo)
    requires WellFormed(todos)
    requires Validate(todos, draft) == NoMessage
    requires Echoes(saved, draft)
    ensures WellFormed(todos + [saved])
  {
    var s := todos + [saved];
    assert forall t :: t in s ==> t in todos || t == saved;
    forall i, j | 0 <= i < j < |s| ensures DistinctNames(s[i], s[j]) {
      if j < |todos| {
        assert s[i] == todos[i] && s[j] == todos[j];
      } else {
        assert s[i] == todos[i] && s[j] == saved;
      }
    }
  }

  /** Deleting by id keeps the list well formed. */
  lemma RemoveKeepsWellFormed(todos: seq<Todo>, id: int)
    requires WellFormed(todos)
    ensures WellFormed(RemoveById(todos, id))
  {
    SubseqPairwise(RemoveById(todos, id), todos, DistinctNames);
  }
}
