/**
 * The App component's one state cell, `todoList`, and its three handlers.
 * Each handler computes the new list from the current one and replaces the
 * cell with it, as `setTodoList` does.
 */
module TodoApp {
  import opened Todos

  class App {
    var todoList: TodoList

    /** The component mounts with an empty list. */
    constructor ()
      ensures todoList == []
    {
      todoList := [];
    }

    /** Form submission with the text field's value `name`. */
    method AddTodo(name: string)
      modifies this
      ensures todoList == Add(old(todoList), name)
      ensures |todoList| == |old(todoList)| + 1
      ensures todoList[|todoList| - 1] == Todo(|old(todoList)| + 1, name, false)
    {
      todoList := Add(todoList, name);
    }

    /** Checkbox change on the record(s) carrying `id`. */
    method ToggleCompleted(id: int)
      modifies this
      ensures todoList == Toggle(old(todoList), id)
      ensures !HasId(old(todoList), id) ==> todoList == old(todoList)
    {
      ToggleUnchangedIff(todoList, id);
      todoList := Toggle(todoList, id);
    }

    /** Delete button on the record(s) carrying `id`. */
    method DeleteItem(id: int)
      modifies this
      ensures todoList == Delete(old(todoList), id)
      ensures !HasId(todoList, id)
    {
      todoList := Delete(todoList, id);
    }
  }
}
