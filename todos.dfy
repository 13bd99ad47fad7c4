/** The `Todo` record of the application and the operations on the list of todos. */
module Todos {

  /** Identifier of a todo. The application draws a random version-4 UUID; here it is any natural
      number, supplied by the caller. */
  type Uuid = nat

  /** The `Todo` struct: an editable title, a description fixed at creation, an identifier and a
      priority that nothing changes. */
  datatype Todo = Todo(title: string, description: string, id: Uuid, priority: int)

  /** The title and description `Todo::new` gives every new todo. */
  const NewTodoTitle: string := "New Todo"
  const NewTodoDescription: string := "New Todo Description"

  /** `Todo::new`, with the identifier supplied instead of drawn at random. */
  function NewTodo(id: Uuid): (t: Todo)
    ensures t.id == id
    ensures t.title == "New Todo" && t.description == "New Todo Description" && t.priority == 0
  {
    Todo(NewTodoTitle, NewTodoDescription, id, 0)
  }

  /** Some todo of the list carries identifier `id`. */
  predicate HasId(todos: seq<Todo>, id: Uuid) {
    exists i :: 0 <= i < |todos| && todos[i].id == id
  }

  /** No two todos of the list share an identifier. */
  predicate UniqueIds(todos: seq<Todo>) {
    forall i, j :: 0 <= i < j < |todos| ==> todos[i].id != todos[j].id
  }

  /** What one turn of the title-rewriting loop does to one todo. */
  function Retitle(t: Todo, id: Uuid, title: string): Todo {
    if t.id == id then t.(title := title) else t
  }

  /** The list after the loop that gives every todo with identifier `id` the title `title`,
      defined by the prefix the loop has already visited. */
  function Retitled(todos: seq<Todo>, id: Uuid, title: string): (r: seq<Todo>)
    ensures |r| == |todos|
    ensures forall i :: 0 <= i < |r| ==>
              r[i].id == todos[i].id && r[i].description == todos[i].description &&
              r[i].priority == todos[i].priority
    ensures forall i :: 0 <= i < |r| ==>
              r[i].title == if todos[i].id == id then title else todos[i].title
  {
    if todos == [] then []
    else Retitled(todos[..|todos| - 1], id, title) + [Retitle(todos[|todos| - 1], id, title)]
  }

  /** Rewriting the title under an identifier no todo carries leaves the list as it was. */
  lemma RetitledUnknownId(todos: seq<Todo>, id: Uuid, title: string)
    requires !HasId(todos, id)
    ensures Retitled(todos, id, title) == todos
  {
  }

  /** With unique identifiers, the rewrite changes the title of the one todo that carries the
      identifier and leaves every other todo exactly as it was. */
  lemma RetitledChangesOnlyTarget(todos: seq<Todo>, k: nat, title: string)
    requires UniqueIds(todos) && k < |todos|
    ensures var r := Retitled(todos, todos[k].id, title);
      r[k] == todos[k].(title := title) &&
      forall j :: 0 <= j < |todos| && j != k ==> r[j] == todos[j]
  {
  }

  /** Rewriting a todo's title with the title it already has leaves the list as it was. */
  lemma RetitledSameTitle(todos: seq<Todo>, k: nat)
    requires UniqueIds(todos) && k < |todos|
    ensures Retitled(todos, todos[k].id, todos[k].title) == todos
  {
    RetitledChangesOnlyTarget(todos, k, todos[k].title);
  }

  /** Rewriting twice with the same title is the same as rewriting once. */
  lemma RetitledIdempotent(todos: seq<Todo>, id: Uuid, title: string)
    ensures Retitled(Retitled(todos, id, title), id, title) == Retitled(todos, id, title)
  {
  }

  /** The rewrite keeps the identifiers unique. */
  lemma RetitledKeepsUniqueIds(todos: seq<Todo>, id: Uuid, title: string)
    requires UniqueIds(todos)
    ensures UniqueIds(Retitled(todos, id, title))
  {
  }
}
