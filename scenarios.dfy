/**
 * Client code that drives the controller through the workflows of the
 * application, checking what the contracts of `AppComponent` let a caller
 * conclude.
 */
module Scenarios {
  import opened Wrappers
  import opened Text
  import opened Todos
  import opened Http
  import opened App

  /** Adding "Buy milk" to an empty list appends the server's record and resets the draft. */
  method AddToEmptyList(d: Date, now: Date)
  {
    var app := new AppComponent(now);
    app.newTodo := Todo(1, "Buy milk", Some(d));
    var saved := Todo(1, "Buy milk", Some(d));
    var popup, sent := app.AddTodo(Success(saved), now);
    assert popup == NoMessage && sent == [Post("Buy milk", d)];
    assert app.todos == [saved];
    assert app.newTodo == Draft(now);
  }

  /** Each validation failure shows its own popup and sends nothing. */
  method RejectedDrafts(d: Date, now: Date, saved: Todo)
  {
    var app := new AppComponent(now);
    app.todos := [Todo(7, "Buy milk", Some(d))];

    app.newTodo := Todo(1, "", None);
    var popup, sent := app.AddTodo(Success(saved), now);
    assert popup == TaskNameRequired && sent == [];

    app.newTodo := Todo(1, "Buy milk", Some(d));
    popup, sent := app.AddTodo(Success(saved), now);
    assert app.todos[0].taskName == "Buy milk";
    assert popup == DuplicateTaskName && sent == [];

    app.newTodo := Todo(1, "Buy bread", None);
    assert "Buy bread" != "Buy milk" by { assert "Buy bread"[4] != "Buy milk"[4]; }
    popup, sent := app.AddTodo(Success(saved), now);
    assert popup == TaskDateRequired && sent == [];
    assert app.todos == [Todo(7, "Buy milk", Some(d))];

    app.newTodo := Todo(1, "Buy bread", Some(d));
    popup, sent := app.AddTodo(Failure, now);
    assert popup == ErrorAddingTodo && sent == [Post("Buy bread", d)];
    assert app.todos == [Todo(7, "Buy milk", Some(d))];
  }

  /** Deleting id 3 from [3, 5] leaves [5]; a failed delete leaves the list alone. */
  method DeleteThree(a: Todo, b: Todo, now: Date)
    requires a.id == 3 && b.id == 5
  {
    var app := new AppComponent(now);
    app.todos := [a, b];
    var sent := app.DeleteTodo(3, Failure);
    assert app.todos == [a, b];
    sent := app.DeleteTodo(3, Success(()));
    assert sent == [Delete(3)];
    assert app.todos == [b] by {
      assert [a, b][1..] == [b];
    }
  }

  /** A confirmed edit clears the target and reloads the list from the server. */
  method EditAndUpdate(d: Date, now: Date, reloaded: seq<Todo>)
  {
    var app := new AppComponent(now);
    app.todos := [Todo(2, "X", Some(d))];
    app.OpenEditPopup(app.todos[0]);
    app.editingTodo := Some(Todo(2, "Y", Some(d)));
    var popup, sent := app.UpdateTodo(Success(true), Success(reloaded));
    assert popup == SuccessfullyUpdated;
    assert sent == [Put(2, Todo(2, "Y", Some(d))), GetAll];
    assert app.editingTodo == None && app.todos == reloaded;

    popup, sent := app.UpdateTodo(Success(true), Success(reloaded));
    assert popup == NoMessage && sent == [];
  }

  /** Closing the popup twice leaves the same state as closing it once. */
  method CloseTwice(t: Todo, now: Date)
  {
    var app := new AppComponent(now);
    app.OpenEditPopup(t);
    app.ClosePopup();
    var once := (app.editingTodo, app.successMessage, app.todos);
    app.ClosePopup();
    assert (app.editingTodo, app.successMessage, app.todos) == once;
  }

  /** The search ignores case: "Buy" finds "buy milk". */
  lemma SearchIgnoresCase(d: Date)
    ensures FilteredTodos([Todo(1, "buy milk", Some(d))], "Buy") == [Todo(1, "buy milk", Some(d))]
  {
    var t := Todo(1, "buy milk", Some(d));
    assert Lower("Buy") == "buy";
    assert Lower("buy milk") == "buy milk";
    assert OccursAt("buy milk", "buy", 0);
    assert Matches(t, "Buy");
    assert NameContains(Lower("Buy"))(t);
    assert [t][1..] == [];
  }
}
