/**
 * The todo controller. Each network call is one sequential step: the reply
 * the server would send is a parameter, and the requests the step issues are
 * returned, so "no request sent" is `sent == []`.
 */
module App {
  import opened Wrappers
  import opened Seqs
  import opened Todos
  import opened Http

  class AppComponent {
    var todos: seq<Todo>
    var newTodo: Todo
    var editingTodo: Option<Todo>
    var successMessage: Option<string>
    var searchTerm: string

    /** A fresh component: empty list, empty draft dated `now`, nothing being edited. */
    constructor (now: Date)
      ensures todos == [] && newTodo == Draft(now)
      ensures editingTodo == None && successMessage == None && searchTerm == ""
    {
      todos := [];
      newTodo := Draft(now);
      editingTodo := None;
      successMessage := None;
      searchTerm := "";
    }

    /** The list as shown: all of it for an empty term, else the matching entries in order. */
    function FilteredTodos(): (r: seq<Todo>)
      reads this
      ensures searchTerm == [] ==> r == todos
      ensures IsSubseq(r, todos)
      ensures forall t :: t in r ==> t in todos && Matches(t, searchTerm)
      ensures forall t :: t in todos && Matches(t, searchTerm) ==> t in r
      ensures forall t :: t in multiset(todos) ==>
        multiset(r)[t] == if Matches(t, searchTerm) then multiset(todos)[t] else 0
    {
      Todos.FilteredTodos(todos, searchTerm)
    }

    /** Fetches the whole list; a success replaces it wholesale, a failure keeps it. */
    method LoadTodos(reply: Reply<seq<Todo>>) returns (sent: seq<Request>)
      modifies this`todos
      ensures sent == [GetAll]
      ensures reply.Success? ==> todos == reply.payload
      ensures reply.Failure? ==> todos == old(todos)
    {
      sent := [GetAll];
      match reply
      case Success(data) =>
        todos := data;
      case Failure =>
    }

    /**
     * Validates the draft and, if it passes, submits its name and date. On
     * success the created record goes to the end of the list and the draft is
     * reset; on failure nothing changes.
     */
    method AddTodo(reply: Reply<Todo>, now: Date) returns (popup: Popup, sent: seq<Request>)
      modifies this`todos, this`newTodo
      ensures Validate(old(todos), old(newTodo)) != NoMessage ==>
        popup == Validate(old(todos), old(newTodo)) && sent == [] &&
        todos == old(todos) && newTodo == old(newTodo)
      ensures Validate(old(todos), old(newTodo)) == NoMessage ==>
        old(newTodo).taskDate.Some? &&
        sent == [Post(old(newTodo).taskName, old(newTodo).taskDate.value)]
      ensures Validate(old(todos), old(newTodo)) == NoMessage && reply.Success? ==>
        popup == NoMessage && todos == old(todos) + [reply.payload] && newTodo == Draft(now)
      ensures Validate(old(todos), old(newTodo)) == NoMessage && reply.Failure? ==>
        popup == ErrorAddingTodo && todos == old(todos) && newTodo == old(newTodo)
      ensures WellFormed(old(todos)) && reply.Success? && Echoes(reply.payload, old(newTodo)) ==>
        WellFormed(todos)
    {
      if newTodo.taskName == [] {
        return TaskNameRequired, [];
      }
      if NameTaken(todos, newTodo.taskName) {
        return DuplicateTaskName, [];
      }
      if newTodo.taskDate.None? {
        return TaskDateRequired, [];
      }
      sent := [Post(newTodo.taskName, newTodo.taskDate.value)];
      match reply
      case Success(data) =>
        if WellFormed(todos) && Echoes(data, newTodo) {
          AddKeepsWellFormed(todos, newTodo, data);
        }
        todos := todos + [data];
        newTodo := Draft(now);
        popup := NoMessage;
      case Failure =>
        popup := ErrorAddingTodo;
    }

    /** Closes the edit dialog without touching the success message. */
    method CloseModal()
      modifies this`editingTodo
      ensures editingTodo == None
    {
      editingTodo := None;
    }

    /** Makes `todo` itself the edit target (no copy is taken). */
    method EditTodo(todo: Todo)
      modifies this`editingTodo
      ensures editingTodo == Some(todo)
    {
      editingTodo := Some(todo);
    }

    /**
     * Makes a copy of `todo` the edit target; the list is not touched. A
     * `Todo` is a value here, so the copy is the value itself.
     */
    method OpenEditPopup(todo: Todo)
      modifies this`editingTodo
      ensures editingTodo == Some(todo)
    {
      editingTodo := Some(todo);
    }

    /** Closes the edit dialog and clears the success message. */
    method ClosePopup()
      modifies this`editingTodo, this`successMessage
      ensures editingTodo == None && successMessage == None
    {
      editingTodo := None;
      successMessage := None;
    }

    /**
     * Submits the edit target under its id. A success clears the target and
     * reloads the whole list when the reply is truthy (`reloadReply` is the
     * reply to that reload); a failure keeps the target. Without a target
     * nothing happens.
     */
    method UpdateTodo(reply: Reply<bool>, reloadReply: Reply<seq<Todo>>) returns (popup: Popup, sent: seq<Request>)
      modifies this`editingTodo, this`todos
      ensures old(editingTodo).None? ==>
        popup == NoMessage && sent == [] && editingTodo == None && todos == old(todos)
      ensures old(editingTodo).Some? ==>
        |sent| >= 1 && sent[0] == Put(old(editingTodo).value.id, old(editingTodo).value)
      ensures old(editingTodo).Some? && reply.Failure? ==>
        popup == UpdateFailed && |sent| == 1 && editingTodo == old(editingTodo) && todos == old(todos)
      ensures old(editingTodo).Some? && reply.Success? ==>
        popup == SuccessfullyUpdated && editingTodo == None &&
        sent[1..] == (if reply.payload then [GetAll] else []) &&
        todos == (if reply.payload && reloadReply.Success? then reloadReply.payload else old(todos))
    {
      match editingTodo
      case None =>
        return NoMessage, [];
      case Some(target) =>
        sent := [Put(target.id, target)];
        match reply
        case Success(truthy) =>
          if truthy {
            var reload := LoadTodos(reloadReply);
            sent := sent + reload;
          }
          editingTodo := None;
          popup := SuccessfullyUpdated;
        case Failure =>
          popup := UpdateFailed;
    }

    /** Deletes by id; a success drops every entry with that id, a failure keeps the list. */
    method DeleteTodo(id: int, reply: Reply<()>) returns (sent: seq<Request>)
      modifies this`todos
      ensures sent == [Delete(id)]
      ensures reply.Success? ==> todos == RemoveById(old(todos), id)
      ensures reply.Failure? ==> todos == old(todos)
      ensures reply.Success? && WellFormed(old(todos)) ==> WellFormed(todos)
    {
      sent := [Delete(id)];
      match reply
      case Success(_) =>
        if WellFormed(todos) {
          RemoveKeepsWellFormed(todos, id);
        }
        todos := RemoveById(todos, id);
      case Failure =>
    }
  }
}
