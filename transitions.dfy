/** The state machine of `TodoApp` as functions on a value of its state: what `check_editing`,
    `handle_key_press` and `update` do, and the properties of those transitions. */
module Transitions {
  import opened Options
  import opened Todos
  import opened Messages

  /** The four fields of `TodoApp` that the core reads and writes. */
  datatype Snapshot = Snapshot(
    textInput: string,
    todos: seq<Todo>,
    editingUuid: Option<Uuid>,
    selectedIndex: Option<nat>)

  /** `TodoApp::default()`: no text, no todos, nothing edited, nothing selected. */
  const Initial: Snapshot := Snapshot("", [], None, None)

  /** The selection, if any, names a todo of the list. */
  predicate SelectionInBounds(s: Snapshot) {
    s.selectedIndex.Some? ==> s.selectedIndex.value < |s.todos|
  }

  /** The invariant the application keeps: the selection is in bounds and identifiers are unique. */
  predicate Valid(s: Snapshot) {
    SelectionInBounds(s) && UniqueIds(s.todos)
  }

  /** The todo being edited, if any, is the selected todo. */
  predicate EditingFollowsSelection(s: Snapshot) {
    s.editingUuid.Some? ==>
      s.selectedIndex.Some? && s.selectedIndex.value < |s.todos| &&
      s.todos[s.selectedIndex.value].id == s.editingUuid.value
  }

  /** `check_editing`: the editing identifier after the repair, given the list, the selection and the
      editing identifier before it. It is dropped exactly when a todo is selected whose identifier
      differs from it, and it is never set. */
  function CheckedEditing(todos: seq<Todo>, selected: Option<nat>, editing: Option<Uuid>): (r: Option<Uuid>)
    requires editing.Some? && selected.Some? ==> selected.value < |todos|
    ensures r == None || r == editing
    ensures r != editing <==>
              editing.Some? && selected.Some? && todos[selected.value].id != editing.value
  {
    if editing.Some? && selected.Some? && todos[selected.value].id != editing.value then None
    else editing
  }

  /** The selection after Up or `k` on a non-empty list: the first todo when nothing was selected,
      otherwise one position up, stopping at the first todo. */
  function MoveUp(selected: Option<nat>): (r: Option<nat>)
    ensures r.Some?
    ensures selected.None? ==> r.value == 0
    ensures selected.Some? ==>
              r.value <= selected.value && selected.value - r.value <= 1 &&
              (r.value == selected.value <==> selected.value == 0)
  {
    if selected.None? then Some(0)
    else if selected.value > 0 then Some(selected.value - 1)
    else selected
  }

  /** The selection after Down or `j` on a list of `len > 0` todos: the first todo when nothing was
      selected, otherwise one position down, stopping at the last todo. */
  function MoveDown(selected: Option<nat>, len: nat): (r: Option<nat>)
    requires len > 0
    ensures r.Some? && r.value < len
    ensures selected.None? ==> r.value == 0
    ensures selected.Some? && selected.value + 1 < len ==> r.value == selected.value + 1
    ensures selected.Some? && selected.value + 1 >= len ==> r.value == len - 1
  {
    if selected.None? then Some(0)
    else Some(if selected.value + 1 < len - 1 then selected.value + 1 else len - 1)
  }

  /** Move the selection to `selected`, then repair the editing identifier. */
  function MoveSelection(s: Snapshot, selected: Option<nat>): Snapshot
    requires selected.Some? ==> selected.value < |s.todos|
  {
    s.(selectedIndex := selected,
       editingUuid := CheckedEditing(s.todos, selected, s.editingUuid))
  }

  predicate IsUpKey(key: Key) {
    key == Named(ArrowUp) || key == Character("k")
  }

  predicate IsDownKey(key: Key) {
    key == Named(ArrowDown) || key == Character("j")
  }

  /** `handle_key_press`: the state and the command after pressing `key`. Only the arrow keys and
      `k`/`j` change the state, and only its selection and editing identifier; they never pass the
      ends of the list and leave the editing identifier consistent with the selection. */
  function HandleKey(s: Snapshot, key: Key): (r: (Snapshot, Command))
    requires SelectionInBounds(s)
    ensures r.0.todos == s.todos && r.0.textInput == s.textInput
    ensures !(IsUpKey(key) || IsDownKey(key)) || |s.todos| == 0 ==> r.0 == s
    ensures IsUpKey(key) || IsDownKey(key) ==> r.1 == NoCommand
    ensures r.0.editingUuid == None || r.0.editingUuid == s.editingUuid
    ensures SelectionInBounds(r.0)
    ensures (IsUpKey(key) || IsDownKey(key)) && |s.todos| > 0 ==>
              r.0.selectedIndex.Some? && EditingFollowsSelection(r.0)
    ensures IsUpKey(key) && |s.todos| > 0 ==> r.0.selectedIndex == MoveUp(s.selectedIndex)
    ensures IsDownKey(key) && |s.todos| > 0 ==>
              r.0.selectedIndex == MoveDown(s.selectedIndex, |s.todos|)
    ensures (IsUpKey(key) || IsDownKey(key)) && |s.todos| > 0 ==>
              r.0.editingUuid == CheckedEditing(s.todos, r.0.selectedIndex, s.editingUuid)
    ensures key == Character("i") ==> r == (s, Perform(TryEditCurrentItem))
    ensures key == Named(Escape) ==> r == (s, Perform(ExitApp))
    ensures !(IsUpKey(key) || IsDownKey(key) || key == Character("i") ||
              key == Named(Escape) || key == Named(Enter)) ==>
            r == (s, NoCommand)
  {
    match key
    case Named(ArrowUp) | Character("k") =>
      if |s.todos| == 0 then (s, NoCommand)
      else (MoveSelection(s, MoveUp(s.selectedIndex)), NoCommand)
    case Named(ArrowDown) | Character("j") =>
      if |s.todos| == 0 then (s, NoCommand)
      else (MoveSelection(s, MoveDown(s.selectedIndex, |s.todos|)), NoCommand)
    case Character("i") => (s, Perform(TryEditCurrentItem))
    case Named(Escape) => (s, Perform(ExitApp))
    case Named(Enter) =>
      if s.editingUuid.Some? then (s, Perform(FinishEditTodo(s.editingUuid.value)))
      else (s, Perform(AddNewTodo))
    case _ => (s, NoCommand)
  }

  /** `update`: the state and the command after handling `message`. `freshId` stands for the random
      identifier `Todo::new` draws; only `AddNewTodo` uses it. A title change while nothing is being
      edited makes the application panic, so it is excluded. Only `ExitApp` closes the window. */
  function Update(s: Snapshot, message: Message, freshId: Uuid): (r: (Snapshot, Command))
    requires SelectionInBounds(s)
    requires message.TodoTextInputChanged? ==> s.editingUuid.Some?
    ensures SelectionInBounds(r.0)
    ensures r.1 == CloseWindow <==> message.ExitApp?
  {
    match message
    case ExitApp => (s, CloseWindow)
    case TextInputChanged(text) => (s.(textInput := text), NoCommand)
    case EventOccurred(event) =>
      if event.KeyPressed? then HandleKey(s, event.key) else (s, NoCommand)
    case AddNewTodo => (s.(todos := s.todos + [NewTodo(freshId)]), NoCommand)
    case BeginEditTodo(uuid) => (s.(editingUuid := Some(uuid)), NoCommand)
    case FinishEditTodo(_) => (s.(editingUuid := None), NoCommand)
    case TodoTextInputChanged(text) =>
      (s.(todos := Retitled(s.todos, s.editingUuid.value, text)), NoCommand)
    case TryEditCurrentItem =>
      if s.selectedIndex.Some? then
        (s.(editingUuid := Some(s.todos[s.selectedIndex.value].id)),
         FocusTextInput(s.selectedIndex.value))
      else (s, NoCommand)
  }

  /** One message delivered to `update`, with the identifier a new todo would get. */
  datatype Input = Input(message: Message, freshId: Uuid)

  /** The state after delivering `inputs` one by one, or `None` when one of them makes the
      application panic (a title change while nothing is being edited). */
  function Run(s: Snapshot, inputs: seq<Input>): (r: Option<Snapshot>)
    requires SelectionInBounds(s)
    ensures r.Some? ==> SelectionInBounds(r.value)
    ensures (forall i :: 0 <= i < |inputs| ==> !inputs[i].message.TodoTextInputChanged?) ==> r.Some?
    ensures r.Some? ==> |s.todos| <= |r.value.todos|
    decreases |inputs|
  {
    if inputs == [] then Some(s)
    else if inputs[0].message.TodoTextInputChanged? && s.editingUuid.None? then None
    else Run(Update(s, inputs[0].message, inputs[0].freshId).0, inputs[1..])
  }

  // ---------------------------------------------------------------------------------------------
  // Single transitions

  /** Up and Down: the index moves by at most one and never leaves the list. */
  lemma MoveKeysStayInBounds(s: Snapshot, key: Key)
    requires SelectionInBounds(s) && |s.todos| > 0 && (IsUpKey(key) || IsDownKey(key))
    ensures var t := HandleKey(s, key).0;
      t.selectedIndex.Some? && t.selectedIndex.value < |s.todos| &&
      (s.selectedIndex.None? ==> t.selectedIndex.value == 0) &&
      (s.selectedIndex.Some? ==>
         t.selectedIndex.value <= s.selectedIndex.value + 1 &&
         s.selectedIndex.value <= t.selectedIndex.value + 1)
  {
  }

  /** Up at the first todo changes nothing, provided the edited todo, if any, is the selected one
      (otherwise the repair still drops the editing identifier). */
  lemma UpAtTopIsNoOp(s: Snapshot, key: Key)
    requires SelectionInBounds(s) && EditingFollowsSelection(s)
    requires IsUpKey(key) && s.selectedIndex == Some(0)
    ensures HandleKey(s, key) == (s, NoCommand)
  {
  }

  /** Up at the first todo keeps the selection and only runs the repair of the editing identifier. */
  lemma UpAtTopOnlyRepairs(s: Snapshot, key: Key)
    requires SelectionInBounds(s) && IsUpKey(key) && s.selectedIndex == Some(0)
    ensures HandleKey(s, key) ==
      (s.(editingUuid := CheckedEditing(s.todos, Some(0), s.editingUuid)), NoCommand)
  {
  }

  /** Down at the last todo keeps the selection and only runs the repair of the editing identifier. */
  lemma DownAtBottomOnlyRepairs(s: Snapshot, key: Key)
    requires SelectionInBounds(s) && IsDownKey(key)
    requires |s.todos| > 0 && s.selectedIndex == Some(|s.todos| - 1)
    ensures HandleKey(s, key) ==
      (s.(editingUuid := CheckedEditing(s.todos, s.selectedIndex, s.editingUuid)), NoCommand)
  {
  }

  /** Up at the first todo does change the state when a click has set the editing identifier to
      another todo: the repair drops it. */
  lemma UpAtTopCanDropEdit()
    ensures var s := Snapshot("", [NewTodo(1), NewTodo(2)], Some(2), Some(0));
      SelectionInBounds(s) && HandleKey(s, Named(ArrowUp)).0 == s.(editingUuid := None) &&
      HandleKey(s, Named(ArrowUp)).0 != s
  {
  }

  /** A move keeps an edit that the newly selected todo carries: after a click on the second todo
      while the first is selected, Down selects the second todo and the edit goes on. */
  lemma DownOntoEditedKeepsEdit()
    ensures var s := Snapshot("", [NewTodo(1), NewTodo(2)], Some(2), Some(0));
      SelectionInBounds(s) && HandleKey(s, Named(ArrowDown)) == (s.(selectedIndex := Some(1)), NoCommand)
  {
  }

  /** Down at the last todo changes nothing, under the same proviso. */
  lemma DownAtBottomIsNoOp(s: Snapshot, key: Key)
    requires SelectionInBounds(s) && EditingFollowsSelection(s) && IsDownKey(key)
    requires |s.todos| > 0 && s.selectedIndex == Some(|s.todos| - 1)
    ensures HandleKey(s, key) == (s, NoCommand)
  {
  }

  /** Down undoes Up below the first todo, and Up undoes Down above the last. */
  lemma UpDownRoundTrip(i: nat, len: nat)
    requires i < len
    ensures 0 < i ==> MoveDown(MoveUp(Some(i)), len) == Some(i)
    ensures i + 1 < len ==> MoveUp(MoveDown(Some(i), len)) == Some(i)
  {
  }

  /** Enter while editing hands back `FinishEditTodo` for the edited todo, and handling that only
      ends the edit; Enter otherwise hands back `AddNewTodo`. Enter itself changes nothing. */
  lemma EnterFinishesOrAdds(s: Snapshot, freshId: Uuid)
    requires SelectionInBounds(s)
    ensures var (t, cmd) := HandleKey(s, Named(Enter));
      t == s &&
      (s.editingUuid.Some? ==> cmd == Perform(FinishEditTodo(s.editingUuid.value))) &&
      (s.editingUuid.None? ==> cmd == Perform(AddNewTodo))
    ensures s.editingUuid.Some? ==>
      Update(s, FinishEditTodo(s.editingUuid.value), freshId) == (s.(editingUuid := None), NoCommand)
  {
  }

  /** `FinishEditTodo` only ends the edit, whatever identifier it carries. */
  lemma FinishEditEndsEdit(s: Snapshot, uuid: Uuid, freshId: Uuid)
    requires SelectionInBounds(s)
    ensures Update(s, FinishEditTodo(uuid), freshId) == (s.(editingUuid := None), NoCommand)
  {
  }

  /** The arms of `update` that only set a field or pass the message on: a change of the input
      text sets the text, a click starts editing the clicked todo without moving the selection,
      `ExitApp` only closes the window, and a key press is handled by `HandleKey` while every other
      event changes nothing. */
  lemma OtherArmsOfUpdate(s: Snapshot, text: string, uuid: Uuid, event: Event, freshId: Uuid)
    requires SelectionInBounds(s)
    ensures Update(s, TextInputChanged(text), freshId) == (s.(textInput := text), NoCommand)
    ensures Update(s, BeginEditTodo(uuid), freshId) == (s.(editingUuid := Some(uuid)), NoCommand)
    ensures Update(s, ExitApp, freshId) == (s, CloseWindow)
    ensures event.KeyPressed? ==> Update(s, EventOccurred(event), freshId) == HandleKey(s, event.key)
    ensures !event.KeyPressed? ==> Update(s, EventOccurred(event), freshId) == (s, NoCommand)
  {
  }

  /** `AddNewTodo` appends one todo with the defaults of `Todo::new` and the fresh identifier, and
      changes nothing else. */
  lemma AddNewTodoAppends(s: Snapshot, freshId: Uuid)
    requires Valid(s) && !HasId(s.todos, freshId)
    ensures var (t, cmd) := Update(s, AddNewTodo, freshId);
      cmd == NoCommand &&
      |t.todos| == |s.todos| + 1 && t.todos[..|s.todos|] == s.todos &&
      t.todos[|s.todos|].title == "New Todo" &&
      t.todos[|s.todos|].description == "New Todo Description" &&
      t.todos[|s.todos|].priority == 0 && t.todos[|s.todos|].id == freshId &&
      t.selectedIndex == s.selectedIndex && t.editingUuid == s.editingUuid &&
      t.textInput == s.textInput &&
      Valid(t)
  {
    var t := Update(s, AddNewTodo, freshId).0;
    assert t.todos[..|s.todos|] == s.todos;
  }

  /** A title change rewrites the title of every todo carrying the edited identifier and nothing
      else: the length, the identifiers, the other fields and the other titles stay. */
  lemma TitleChangeRewritesEdited(s: Snapshot, text: string, freshId: Uuid)
    requires SelectionInBounds(s) && s.editingUuid.Some?
    ensures var (t, cmd) := Update(s, TodoTextInputChanged(text), freshId);
      cmd == NoCommand && |t.todos| == |s.todos| &&
      t.selectedIndex == s.selectedIndex && t.editingUuid == s.editingUuid &&
      t.textInput == s.textInput &&
      (forall i :: 0 <= i < |s.todos| ==>
         t.todos[i].id == s.todos[i].id &&
         t.todos[i].description == s.todos[i].description &&
         t.todos[i].priority == s.todos[i].priority) &&
      (forall i :: 0 <= i < |s.todos| && s.todos[i].id == s.editingUuid.value ==>
         t.todos[i].title == text) &&
      (forall i :: 0 <= i < |s.todos| && s.todos[i].id != s.editingUuid.value ==>
         t.todos[i].title == s.todos[i].title)
  {
  }

  /** `TryEditCurrentItem` edits the selected todo and asks for the focus on its field; with nothing
      selected it does nothing. */
  lemma TryEditEditsSelected(s: Snapshot, freshId: Uuid)
    requires SelectionInBounds(s)
    ensures var (t, cmd) := Update(s, TryEditCurrentItem, freshId);
      (s.selectedIndex.Some? ==>
         t == s.(editingUuid := Some(s.todos[s.selectedIndex.value].id)) &&
         cmd == FocusTextInput(s.selectedIndex.value) && EditingFollowsSelection(t)) &&
      (s.selectedIndex.None? ==> t == s && cmd == NoCommand)
  {
  }

  /** Every message keeps the invariant, given that a new todo gets an identifier not yet in use. */
  lemma UpdateKeepsValid(s: Snapshot, message: Message, freshId: Uuid)
    requires Valid(s)
    requires message.TodoTextInputChanged? ==> s.editingUuid.Some?
    requires message.AddNewTodo? ==> !HasId(s.todos, freshId)
    ensures Valid(Update(s, message, freshId).0)
  {
    match message
    case AddNewTodo => AddNewTodoAppends(s, freshId);
    case TodoTextInputChanged(text) => RetitledKeepsUniqueIds(s.todos, s.editingUuid.value, text);
    case _ =>
  }

  /** Every message except `BeginEditTodo` keeps the edited todo the selected one. */
  lemma UpdateKeepsEditingFollowsSelection(s: Snapshot, message: Message, freshId: Uuid)
    requires SelectionInBounds(s) && EditingFollowsSelection(s)
    requires message.TodoTextInputChanged? ==> s.editingUuid.Some?
    requires !message.BeginEditTodo?
    ensures EditingFollowsSelection(Update(s, message, freshId).0)
  {
  }

  /** `BeginEditTodo`, sent when a todo is clicked, sets the editing identifier without moving the
      selection, so the edited todo need not be the selected one. */
  lemma BeginEditCanLeaveSelection()
    ensures var s := Snapshot("", [NewTodo(1), NewTodo(2)], None, Some(0));
      Valid(s) && EditingFollowsSelection(s) &&
      !EditingFollowsSelection(Update(s, BeginEditTodo(2), 3).0)
  {
  }

  // ---------------------------------------------------------------------------------------------
  // Scenarios

  /** Editing the todo at `p` and moving down to the next todo ends the edit; no title changes. */
  lemma MovingOffEndsEdit(s: Snapshot, p: nat)
    requires Valid(s) && p + 1 < |s.todos|
    requires s.selectedIndex == Some(p) && s.editingUuid == Some(s.todos[p].id)
    ensures HandleKey(s, Named(ArrowDown)).0 == s.(selectedIndex := Some(p + 1), editingUuid := None)
  {
  }

  /** Changing the edited todo's title to `text` and finishing gives that todo the title `text`,
      leaves every other todo as it was and ends the edit. */
  lemma EditThenFinish(s: Snapshot, text: string, freshId: Uuid)
    requires Valid(s) && EditingFollowsSelection(s) && s.editingUuid.Some?
    ensures var t := Update(s, TodoTextInputChanged(text), freshId).0;
      var u := Update(t, FinishEditTodo(s.editingUuid.value), freshId).0;
      var k := s.selectedIndex.value;
      u.editingUuid.None? && u.selectedIndex == s.selectedIndex &&
      |u.todos| == |s.todos| && u.todos[k] == s.todos[k].(title := text) &&
      forall j :: 0 <= j < |s.todos| && j != k ==> u.todos[j] == s.todos[j]
  {
    RetitledChangesOnlyTarget(s.todos, s.selectedIndex.value, text);
  }

  /** Starting to edit the selected todo, retyping the title it has and finishing leaves the list as
      it was and ends the edit. */
  lemma EditRoundTrip(s: Snapshot, freshId: Uuid)
    requires Valid(s) && s.selectedIndex.Some?
    ensures var k := s.selectedIndex.value;
      var t := Update(s, TryEditCurrentItem, freshId).0;
      var u := Update(t, TodoTextInputChanged(s.todos[k].title), freshId).0;
      var v := Update(u, FinishEditTodo(s.todos[k].id), freshId).0;
      v == s.(editingUuid := None)
  {
    var k := s.selectedIndex.value;
    var t := s.(editingUuid := Some(s.todos[k].id));
    TryEditEditsSelected(s, freshId);
    assert Update(s, TryEditCurrentItem, freshId).0 == t;
    RetypeOwnTitleIsNoOp(t, k, freshId);
    FinishEditEndsEdit(t, s.todos[k].id, freshId);
  }

  /** Typing, for the todo being edited, the title it already has changes nothing. */
  lemma RetypeOwnTitleIsNoOp(s: Snapshot, k: nat, freshId: Uuid)
    requires Valid(s) && k < |s.todos| && s.editingUuid == Some(s.todos[k].id)
    ensures Update(s, TodoTextInputChanged(s.todos[k].title), freshId) == (s, NoCommand)
  {
    RetitledSameTitle(s.todos, k);
  }

  /** From the initial state, adding two todos gives two todos with distinct identifiers and the
      default title, and selects nothing. */
  lemma AddTwiceFromInitial(a: Uuid, b: Uuid)
    requires a != b
    ensures var t := Update(Update(Initial, AddNewTodo, a).0, AddNewTodo, b).0;
      |t.todos| == 2 && t.todos[0].id != t.todos[1].id &&
      t.todos[0].title == "New Todo" && t.todos[1].title == "New Todo" &&
      t.selectedIndex.None? && t.editingUuid.None?
  {
  }

  // ---------------------------------------------------------------------------------------------
  // Runs

  /** Along any run without `BeginEditTodo`, the edited todo stays the selected one. */
  lemma {:induction false} RunKeepsEditingFollowsSelection(s: Snapshot, inputs: seq<Input>)
    requires SelectionInBounds(s) && EditingFollowsSelection(s)
    requires forall i :: 0 <= i < |inputs| ==> !inputs[i].message.BeginEditTodo?
    ensures Run(s, inputs).Some? ==> EditingFollowsSelection(Run(s, inputs).value)
    decreases |inputs|
  {
    if inputs != [] && !(inputs[0].message.TodoTextInputChanged? && s.editingUuid.None?) {
      UpdateKeepsEditingFollowsSelection(s, inputs[0].message, inputs[0].freshId);
      RunKeepsEditingFollowsSelection(Update(s, inputs[0].message, inputs[0].freshId).0, inputs[1..]);
    }
  }

  /** Along any run, todos are only appended: the list never shrinks and every todo keeps its
      position and identifier, so a selection in bounds stays in bounds. */
  lemma {:induction false} RunOnlyAppends(s: Snapshot, inputs: seq<Input>)
    requires SelectionInBounds(s)
    ensures Run(s, inputs).Some? ==>
      var t := Run(s, inputs).value;
      SelectionInBounds(t) && |s.todos| <= |t.todos| &&
      forall i :: 0 <= i < |s.todos| ==> t.todos[i].id == s.todos[i].id
    decreases |inputs|
  {
    if inputs != [] && !(inputs[0].message.TodoTextInputChanged? && s.editingUuid.None?) {
      var next := Update(s, inputs[0].message, inputs[0].freshId).0;
      assert |s.todos| <= |next.todos| && forall i :: 0 <= i < |s.todos| ==> next.todos[i].id == s.todos[i].id;
      RunOnlyAppends(next, inputs[1..]);
    }
  }

  /** In every state the application reaches from its initial state without a click on a todo, the
      edited todo, if any, is the selected one. */
  lemma ReachableEditingFollowsSelection(inputs: seq<Input>)
    requires forall i :: 0 <= i < |inputs| ==> !inputs[i].message.BeginEditTodo?
    ensures Run(Initial, inputs).Some? ==> EditingFollowsSelection(Run(Initial, inputs).value)
  {
    RunKeepsEditingFollowsSelection(Initial, inputs);
  }
}
