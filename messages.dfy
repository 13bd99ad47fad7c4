/** The inputs the application receives and the commands it hands back to the runtime. */
module Messages {
  import opened Todos

  /** The named keys the application tells apart; every other named key is `OtherNamed`. */
  datatype NamedKey = ArrowUp | ArrowDown | Escape | Enter | OtherNamed

  /** A key as the keyboard event reports it: a named key, the characters it produced, or a key
      the runtime could not identify. */
  datatype Key = Named(named: NamedKey) | Character(chars: string) | Unidentified

  /** The runtime events the subscription delivers; only key presses matter to the core. */
  datatype Event = KeyPressed(key: Key) | OtherKeyboardEvent | Mouse | OtherEvent

  /** The `Message` enum. */
  datatype Message =
    | ExitApp
    | EventOccurred(event: Event)
    | TextInputChanged(text: string)
    | AddNewTodo
    | BeginEditTodo(uuid: Uuid)
    | FinishEditTodo(uuid: Uuid)
    | TodoTextInputChanged(text: string)
    | TryEditCurrentItem

  /** The commands `update` returns, as tokens: nothing, a message to deliver next, closing the main
      window, or moving the focus to the text field of the todo at `index`. */
  datatype Command =
    | NoCommand
    | Perform(message: Message)
    | CloseWindow
    | FocusTextInput(index: nat)
}
