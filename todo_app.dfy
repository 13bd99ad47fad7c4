/** The `TodoApp` struct: its fields, updated in place by `check_editing`, `handle_key_press` and
    `update`, each proved to do what the corresponding function of `Transitions` describes. */
module App {
  import opened Options
  import opened Todos
  import opened Messages
  import Transitions

  class TodoApp {
    var textInput: string
    var todos: seq<Todo>
    var editingUuid: Option<Uuid>
    var selectedIndex: Option<nat>

    /** The current values of the fields. */
    function State(): Transitions.Snapshot
      reads this
    {
      Transitions.Snapshot(textInput, todos, editingUuid, selectedIndex)
    }

    /** The selection is in bounds and no two todos share an identifier. */
    ghost predicate Valid()
      reads this
    {
      Transitions.Valid(State())
    }

    /** `TodoApp::default()`. */
    constructor ()
      ensures State() == Transitions.Initial && Valid()
    {
      textInput := "";
      todos := [];
      editingUuid := None;
      selectedIndex := None;
    }

    /** `check_editing`: drops the editing identifier when the selected todo carries another one. */
    method CheckEditing()
      requires Valid()
      modifies this
      ensures Valid()
      ensures editingUuid == Transitions.CheckedEditing(old(todos), old(selectedIndex), old(editingUuid))
      ensures todos == old(todos) && selectedIndex == old(selectedIndex) && textInput == old(textInput)
    {
      if editingUuid.Some? {
        var id := editingUuid.value;
        if selectedIndex.Some? {
          var todoId := todos[selectedIndex.value].id;
          if todoId != id {
            editingUuid := None;
          }
        }
      }
    }

    /** `handle_key_press`: moves the selection for the arrow keys and `k`/`j`, and hands back the
        message to deliver next for `i`, Escape and Enter. */
    method HandleKeyPress(key: Key) returns (cmd: Command)
      requires Valid()
      modifies this
      ensures Valid()
      ensures (State(), cmd) == Transitions.HandleKey(old(State()), key)
    {
      match key
      case Named(ArrowUp) | Character("k") =>
        if |todos| == 0 {
          return NoCommand;
        }
        if selectedIndex.None? {
          selectedIndex := Some(0);
        } else if selectedIndex.value > 0 {
          selectedIndex := Some(selectedIndex.value - 1);
        }
        CheckEditing();
        cmd := NoCommand;
      case Named(ArrowDown) | Character("j") =>
        if |todos| == 0 {
          return NoCommand;
        }
        if selectedIndex.None? {
          selectedIndex := Some(0);
        } else {
          var next := selectedIndex.value + 1;
          selectedIndex := Some(if next < |todos| - 1 then next else |todos| - 1);
        }
        CheckEditing();
        cmd := NoCommand;
      case Character("i") =>
        cmd := Perform(TryEditCurrentItem);
      case Named(Escape) =>
        cmd := Perform(ExitApp);
      case Named(Enter) =>
        if editingUuid.Some? {
          var id := editingUuid.value;
          cmd := Perform(FinishEditTodo(id));
        } else {
          cmd := Perform(AddNewTodo);
        }
      case _ =>
        cmd := NoCommand;
    }

    /** The loop of `update` for `TodoTextInputChanged`: gives every todo carrying the editing
        identifier the title `text`, in place. */
    method RetitleEdited(text: string)
      requires editingUuid.Some?
      modifies this
      ensures todos == Retitled(old(todos), old(editingUuid).value, text)
      ensures editingUuid == old(editingUuid) && selectedIndex == old(selectedIndex)
      ensures textInput == old(textInput)
    {
      var uuid := editingUuid.value;
      ghost var before := todos;
      var i := 0;
      while i < |todos|
        invariant 0 <= i <= |todos| == |before|
        invariant todos[..i] == Retitled(before[..i], uuid, text)
        invariant forall j :: i <= j < |todos| ==> todos[j] == before[j]
        invariant editingUuid == old(editingUuid) && selectedIndex == old(selectedIndex)
        invariant textInput == old(textInput)
      {
        if todos[i].id == uuid {
          todos := todos[i := todos[i].(title := text)];
        }
        assert before[..i + 1][..i] == before[..i];
        i := i + 1;
      }
      assert before[..|before|] == before;
    }

    /** `update`: handles one message. `freshId` is the identifier a new todo gets and must not be
        in use yet; a title change requires an edit in progress, as the application panics
        otherwise. */
    method Update(message: Message, freshId: Uuid) returns (cmd: Command)
      requires Valid()
      requires message.TodoTextInputChanged? ==> editingUuid.Some?
      requires message.AddNewTodo? ==> !HasId(todos, freshId)
      modifies this
      ensures Valid()
      ensures (State(), cmd) == Transitions.Update(old(State()), message, freshId)
    {
      ghost var s := State();
      Transitions.UpdateKeepsValid(s, message, freshId);
      match message {
      case ExitApp =>
        return CloseWindow;
      case TextInputChanged(text) =>
        textInput := text;
      case EventOccurred(event) =>
        if event.KeyPressed? {
          cmd := HandleKeyPress(event.key);
          return;
        }
      case AddNewTodo =>
        todos := todos + [NewTodo(freshId)];
      case BeginEditTodo(uuid) =>
        editingUuid := Some(uuid);
      case FinishEditTodo(_) =>
        editingUuid := None;
      case TodoTextInputChanged(text) =>
        RetitleEdited(text);
      case TryEditCurrentItem =>
        if selectedIndex.Some? {
          var index := selectedIndex.value;
          var id := todos[index].id;
          editingUuid := Some(id);
          return FocusTextInput(index);
        }
      }
      cmd := NoCommand;
    }
  }

  /** The start of a session: from the initial state, add a todo and select it with Down. Only the
      contracts of `TodoApp` are used, here and in the two methods below. */
  method AddAndSelect() {
    var app := new TodoApp();
    var cmd := app.Update(AddNewTodo, 7);
    assert app.todos == [NewTodo(7)];
    cmd := app.Update(EventOccurred(KeyPressed(Named(ArrowDown))), 0);
    assert app.State() == Transitions.Snapshot("", [NewTodo(7)], None, Some(0));
  }

  /** The session goes on: with that todo selected, `i` hands back `TryEditCurrentItem`, which starts
      editing it and asks for the focus on its field. */
  method StartEditing(app: TodoApp)
    requires app.State() == Transitions.Snapshot("", [NewTodo(7)], None, Some(0))
    modifies app
  {
    var cmd := app.HandleKeyPress(Character("i"));
    assert cmd == Perform(TryEditCurrentItem);
    cmd := app.Update(cmd.message, 0);
    assert cmd == FocusTextInput(0);
    assert app.State() == Transitions.Snapshot("", [NewTodo(7)], Some(7), Some(0));
  }

  /** The session ends: typing a title rewrites the edited todo, and Enter hands back
      `FinishEditTodo`, which ends the edit and keeps the new title. */
  method TypeAndFinish(app: TodoApp)
    requires app.State() == Transitions.Snapshot("", [NewTodo(7)], Some(7), Some(0))
    modifies app
  {
    var cmd := app.Update(TodoTextInputChanged("Buy milk"), 0);
    assert app.todos[0].title == "Buy milk";
    cmd := app.HandleKeyPress(Named(Enter));
    assert cmd == Perform(FinishEditTodo(7));
    cmd := app.Update(cmd.message, 0);
    assert app.editingUuid == None && app.todos == [NewTodo(7).(title := "Buy milk")];
  }
}
