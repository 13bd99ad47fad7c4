# icedtodo interaction core in Dafny

This project models the interaction state machine of `icedtodo`, a single-window todo list written
in Rust on the iced GUI toolkit. The state is the four fields of the `TodoApp` struct:

- the list of todos;
- the optional selected index;
- the optional identifier of the todo being edited;
- the text of the input field.

The model covers the operations that change this state:

- keyboard dispatch (`handle_key_press`): Up/`k` and Down/`j` move the selection; `i`, Escape and
  Enter hand back a follow-up message;
- the repair that drops the editing identifier when the selection moves to another todo
  (`check_editing`);
- the message handlers of `update`;
- the construction of a new todo (`Todo::new`).

Files and modules:

- `options.dfy`, module `Options`: Rust's `Option`.
- `todos.dfy`, module `Todos`:
  - the `Todo` record and `NewTodo` (`Todo::new`);
  - `Retitled`, the list after the title-rewriting loop, with lemmas about it.
- `messages.dfy`, module `Messages`:
  - keys, runtime events and the `Message` enum;
  - `Command`, the commands `update` hands back to the runtime, as tokens.
- `transitions.dfy`, module `Transitions`:
  - the state machine as functions on a `Snapshot` of the four fields: `CheckedEditing`, `MoveUp`,
    `MoveDown`, `HandleKey`, `Update`, and `Run` for a sequence of messages;
  - the invariants `Valid` (selection in bounds, identifiers unique) and `EditingFollowsSelection`
    (the edited todo, if any, is the selected one);
  - lemmas about single transitions, scenarios, and whole runs.
- `todo_app.dfy`, module `App`:
  - `TodoApp`, a class with the four fields, whose methods update them in place:
    - `CheckEditing` sets the editing identifier to `CheckedEditing` of the old fields and leaves the
      other fields alone;
    - `RetitleEdited` runs the title loop, after which the list is `Todos.Retitled` of the old list
      under the editing identifier; the other fields stay;
    - for `HandleKeyPress` and `Update`, the new fields and the returned command equal
      `Transitions.HandleKey` or `Transitions.Update` of the old fields;
    - `CheckEditing`, `HandleKeyPress` and `Update` keep `Valid`;
  - `AddAndSelect`, `StartEditing` and `TypeAndFinish`, clients that drive one edit session in three
    parts using only those contracts.

The central results:

- After Up or Down on a non-empty list, a todo is selected and the editing identifier belongs to it
  or is gone (`HandleKey`).
- Along every run from the initial state that contains no `BeginEditTodo` message, the edited todo
  is the selected one (`ReachableEditingFollowsSelection`). A `BeginEditTodo` message, sent when a
  todo is clicked, can break this (`BeginEditCanLeaveSelection`).

## Behaviour worth noting

- A title is not written when the edit is committed. Every `TodoTextInputChanged` rewrites it at
  once, and `FinishEditTodo` only clears the editing identifier.
- `i` starts an edit even when one is already in progress (`HandleKey`).
- A title change while nothing is being edited panics; it is not a no-op.
- Escape closes the window even while editing (`HandleKey`, `OtherArmsOfUpdate`).
- Up at the first todo and Down at the last one still run `check_editing`, so they drop an editing
  identifier that a click set on another todo (`UpAtTopCanDropEdit`).

## Model

| member | source | states |
|---|---|---|
| `Todos.Retitled` | src/main.rs:237-243 | The loop keeps the list's length, every id, description and priority. A todo gets the new title exactly when its id is the edited id; the others keep their titles |
| `Todos.NewTodo` | src/main.rs:52-59 | A new todo carries the supplied id, the title "New Todo", the description "New Todo Description" and priority 0 |
| `Todos.RetitledUnknownId` | src/main.rs:239-243 | If no todo carries the edited id, the list is unchanged |
| `Todos.RetitledChangesOnlyTarget` | src/main.rs:239-243 | With unique ids, only the todo carrying the id changes, and only its title |
| `Todos.RetitledSameTitle` | src/main.rs:239-243 | With unique ids, rewriting a todo's title with the title it already has leaves the list unchanged |
| `Todos.RetitledIdempotent` | src/main.rs:239-243 | Rewriting twice with the same title is the same as rewriting once |
| `Todos.RetitledKeepsUniqueIds` | src/main.rs:239-243 | The rewrite keeps ids unique |
| `Transitions.CheckedEditing` | src/main.rs:28-39 | The repair never sets the editing id. It drops the id exactly when a todo is selected whose id differs from it |
| `Transitions.MoveUp` | src/main.rs:123-128 | No selection becomes index 0. Otherwise the index moves up by at most one, never goes below 0, and stays put only at 0 |
| `Transitions.MoveDown` | src/main.rs:139-146 | The result is always below `len`. No selection becomes 0. Otherwise the index moves down by one, or to `len - 1` at the end of the list |
| `Transitions.HandleKey` | src/main.rs:116-170 | Only Up/`k` and Down/`j` change the state, and never on an empty list; they hand back no command. The list and the input text never change. The editing id is kept or dropped, never set; after a move it is `CheckedEditing` of the new selection, so it is kept exactly when the newly selected todo carries it. The selection stays in bounds. After a move on a non-empty list, a todo is selected, the new selection is `MoveUp` or `MoveDown` of the old one, and the edited todo is the selected one. `i` hands back `TryEditCurrentItem` and Escape hands back `ExitApp`, whatever the state; every other key (besides Enter) changes nothing and hands back no command |
| `Transitions.Update` | src/main.rs:200-258 | A title change requires an edit in progress (the code panics otherwise). The selection stays in bounds. The window-close command is returned exactly for `ExitApp` |
| `Transitions.OtherArmsOfUpdate` | src/main.rs:200-234 | A change of the input text sets the text and nothing else. `BeginEditTodo` sets the editing id and nothing else. `ExitApp` changes nothing and closes the window. A key press is handled as `HandleKey` handles it; every other event changes nothing |
| `Transitions.MoveKeysStayInBounds` | src/main.rs:118-150 | On a non-empty list, Up and Down select a todo in bounds. No selection becomes 0; a selection moves by at most one |
| `Transitions.UpAtTopIsNoOp` | src/main.rs:123-131 | Up at index 0 changes nothing and hands back no command, if the edited todo is the selected one |
| `Transitions.DownAtBottomIsNoOp` | src/main.rs:139-149 | Down at the last index changes nothing and hands back no command, if the edited todo is the selected one |
| `Transitions.UpAtTopOnlyRepairs` | src/main.rs:123-131 | Up at index 0 keeps the selection, hands back no command, and changes only the editing id, to `CheckedEditing` of index 0 |
| `Transitions.DownAtBottomOnlyRepairs` | src/main.rs:139-149 | Down at the last index keeps the selection, hands back no command, and changes only the editing id, to `CheckedEditing` of that index |
| `Transitions.UpAtTopCanDropEdit` | src/main.rs:123-131 | A concrete state where a click set the editing id to another todo: Up at index 0 drops that id, so the state changes |
| `Transitions.DownOntoEditedKeepsEdit` | src/main.rs:139-149 | A concrete state where a click set the editing id to the next todo: Down selects that todo and keeps the editing id, as `check_editing` finds them equal |
| `Transitions.UpDownRoundTrip` | src/main.rs:123-146 | Down undoes Up below the first todo; Up undoes Down above the last |
| `Transitions.EnterFinishesOrAdds` | src/main.rs:159-166 | Enter changes nothing. While editing it hands back `FinishEditTodo` with the edited id, and handling that only clears the editing id. Otherwise it hands back `AddNewTodo` |
| `Transitions.FinishEditEndsEdit` | src/main.rs:231-234 | `FinishEditTodo` clears the editing id, whatever id it carries; the list and the selection stay |
| `Transitions.AddNewTodoAppends` | src/main.rs:224-226 | One todo is appended at the end, built as `Todo::new` builds it (src/main.rs:52-58): title "New Todo", description "New Todo Description", priority 0, the fresh id. The earlier todos, the selection, the editing id and the input text stay. The invariant holds afterwards |
| `Transitions.TitleChangeRewritesEdited` | src/main.rs:235-246 | Every todo carrying the edited id gets the new title. The length, the ids, the other fields, the other titles, the selection and the editing id stay |
| `Transitions.TryEditEditsSelected` | src/main.rs:248-255 | With a selection, the selected todo's id becomes the editing id and focus moves to that index's field. Without a selection, nothing changes |
| `Transitions.UpdateKeepsValid` | src/main.rs:200-258 | Every message keeps the selection in bounds and ids unique, provided a new todo gets an id not yet in use |
| `Transitions.UpdateKeepsEditingFollowsSelection` | src/main.rs:200-258 | Every message except `BeginEditTodo` keeps the edited todo the selected one |
| `Transitions.BeginEditCanLeaveSelection` | src/main.rs:227-230 | There is a state where the edited todo is the selected one, and `BeginEditTodo` for another todo breaks that |
| `Transitions.MovingOffEndsEdit` | src/main.rs:134-150 | With unique ids and the selection in bounds, editing the todo at `p` and pressing Down selects `p + 1` and ends the edit. Nothing else changes |
| `Transitions.EditThenFinish` | src/main.rs:231-246 | With unique ids and the selection in bounds, typing a title for the edited todo and then finishing gives it that title and ends the edit. Every other todo stays unchanged |
| `Transitions.RetypeOwnTitleIsNoOp` | src/main.rs:235-246 | With unique ids, typing for the edited todo the title it already has changes nothing and hands back no command |
| `Transitions.EditRoundTrip` | src/main.rs:231-255 | With unique ids and the selection in bounds, start editing the selected todo, retype its own title, finish: the list is unchanged and the edit has ended |
| `Transitions.AddTwiceFromInitial` | src/main.rs:224-226 | Adding two todos to the initial state gives two todos with distinct ids and the title "New Todo"; nothing is selected or edited |
| `Transitions.Run` | src/main.rs:200-258 | Delivers messages one by one; `None` is the panic of src/main.rs:245. A run without title changes never panics. A run that does not panic keeps the selection in bounds and never shrinks the list |
| `Transitions.RunKeepsEditingFollowsSelection` | src/main.rs:200-258 | Along any run without `BeginEditTodo` that does not panic, the edited todo stays the selected one |
| `Transitions.RunOnlyAppends` | src/main.rs:224-246 | Along any run that does not panic, the list only grows, every todo keeps its position and id, and the selection stays in bounds |
| `Transitions.ReachableEditingFollowsSelection` | src/main.rs:18-25 | In every state reached from `TodoApp::default()` without `BeginEditTodo`, the edited todo is the selected one |
| `App.TodoApp.constructor` | src/main.rs:179-181 | The app starts with no todos, no selection, no edit and empty input text, and satisfies the invariant |
| `App.TodoApp.CheckEditing` | src/main.rs:28-39 | In place: the editing id becomes `CheckedEditing` of the old fields. The other fields stay |
| `App.TodoApp.HandleKeyPress` | src/main.rs:116-170 | In place: the new fields and the command equal `HandleKey` of the old fields. The invariant holds afterwards |
| `App.TodoApp.RetitleEdited` | src/main.rs:237-243 | In place, by a loop over the list: the list becomes `Retitled` of the old list under the editing id. The other fields stay |
| `App.TodoApp.Update` | src/main.rs:200-258 | In place: the new fields and the command equal `Update` of the old fields. The invariant holds afterwards |

## Left out

- Rendering and styling are not modelled: `view`, `theme`, `title`, the `SelectedTodo` button style and the colour constants. They are presentation only.
- Effects of the runtime appear only as `Command` tokens, which are never executed:
  - `window::close` is `CloseWindow`;
  - `text_input::focus(Todo::text_input_id(i))` is `FocusTextInput(i)`, without the "todo-i" name of the field;
  - `Command::perform(async {}, ...)` is `Perform(message)`, and the runtime delivering that message later is not modelled. `Run` accepts any order of messages.
- The `event::listen` subscription is reduced to the `EventOccurred` messages it produces.
- `Uuid::new_v4()` is replaced by the `freshId` argument of `Update`, because it is randomness.
- Uniqueness of ids rests on `freshId` not being in use yet, and `TodoApp.Update` requires this for `AddNewTodo`. A random UUID is unique only with overwhelming probability.
- The `println!` logging is not modelled, because it is I/O.
- Mouse events and other events do nothing in the code, and do nothing in the model.
- The unused `value` field of `TodoApp` is not modelled.
- The panic of a title change while nothing is being edited is a `requires` of `Update`. `Run` yields `None` at that point.
- Application::new: only its initial state is modelled, by the constructor. Its `Command::none()` result is not.
- Transitions.HandleKey: requires the selection to be in bounds. Out of bounds, the code panics only in the Up/`k` arm, with an edit in progress and a selection more than one past the end, when `check_editing` indexes the list; Down clamps the index first and no other key indexes the list. No reachable state has such a selection: `Valid` keeps it in bounds, and `RunOnlyAppends` shows this along every run.
- Transitions.Update: requires the selection to be in bounds, because it passes key presses to `HandleKey` and because `TryEditCurrentItem` indexes the list with the selection and would panic out of bounds.
- Transitions.UpAtTopIsNoOp: stated only when the edited todo is the selected one. `check_editing` still runs at index 0 and drops an editing id that a click set on another todo. `UpAtTopOnlyRepairs` states the general case.
- Transitions.DownAtBottomIsNoOp: stated only when the edited todo is the selected one, for the same reason. `DownAtBottomOnlyRepairs` states the general case.
- Indices are unbounded naturals. `usize` overflow in `selected_index + 1` cannot happen, because the index is below the list's length.
