/** Turning terminal events into the viewer's commands: movement keys,
    system shortcuts, window resizes, and text edits, with edits taking
    precedence over movement and movement over system commands. */
module Commands {
  import opened Prelude

  /** The key codes the classifiers distinguish; every other key is `OtherKey`. */
  datatype KeyCode = CharKey(ch: char) | EscKey | UpKey | DownKey | PageUpKey | PageDownKey | OtherKey(code: nat)

  datatype Modifier = Shift | Control | Alt | Super | Hyper | Meta

  /** No modifier held. */
  const NONE: set<Modifier> := {}
  /** Exactly the Control modifier held. */
  const CONTROL: set<Modifier> := {Control}

  datatype KeyEvent = KeyEvent(code: KeyCode, modifiers: set<Modifier>)

  /** A terminal dimension as the event reports it, a 16-bit unsigned value. */
  type U16 = x: nat | x < 0x1_0000

  /** The terminal events: key presses, window resizes (width first, then
      height) and everything else (mouse, focus, paste), which is `OtherEvent`. */
  datatype Event = Key(keyEvent: KeyEvent) | ResizeEvent(width: U16, height: U16) | OtherEvent

  datatype Result<T> = Ok(value: T) | Err

  datatype Edit = Insert(ch: char) | Delete | DeleteBackward | InsertNewLine

  datatype Move = PageUp | PageDown | Up | Down

  datatype System = Save | Resize(size: Size) | Quit | Dismiss | Search

  datatype Command = MoveCommand(move: Move) | EditCommand(edit: Edit) | SystemCommand(system: System)

  /** `Move::try_from`: page keys, `j`/Down and `k`/Up, all without modifiers. */
  function MoveFromKey(event: KeyEvent): (r: Result<Move>)
    ensures event.modifiers != NONE ==> r == Err
    ensures r == Ok(PageUp) <==> event == KeyEvent(PageUpKey, NONE)
    ensures r == Ok(PageDown) <==> event == KeyEvent(PageDownKey, NONE)
    ensures r == Ok(Down) <==> event.modifiers == NONE && event.code in {CharKey('j'), DownKey}
    ensures r == Ok(Up) <==> event.modifiers == NONE && event.code in {CharKey('k'), UpKey}
  {
    if event.modifiers == NONE then
      match event.code
      case PageUpKey => Ok(PageUp)
      case PageDownKey => Ok(PageDown)
      case DownKey => Ok(Down)
      case UpKey => Ok(Up)
      case CharKey(c) =>
        if c == 'j' then Ok(Down) else if c == 'k' then Ok(Up) else Err
      case _ => Err
    else Err
  }

  /** `System::try_from`: Control with `s`, `q`, `f` or `c`, or a bare Esc. */
  function SystemFromKey(event: KeyEvent): (r: Result<System>)
    ensures r.Ok? ==> !r.value.Resize?
    ensures r == Ok(Save) <==> event == KeyEvent(CharKey('s'), CONTROL)
    ensures r == Ok(Quit) <==> event == KeyEvent(CharKey('q'), CONTROL)
    ensures r == Ok(Search) <==> event == KeyEvent(CharKey('f'), CONTROL)
    ensures r == Ok(Dismiss) <==> event in {KeyEvent(CharKey('c'), CONTROL), KeyEvent(EscKey, NONE)}
  {
    if event.modifiers == CONTROL then
      match event.code
      case CharKey(c) =>
        if c == 's' then Ok(Save)
        else if c == 'q' then Ok(Quit)
        else if c == 'f' then Ok(Search)
        else if c == 'c' then Ok(Dismiss)
        else Err
      case _ => Err
    else if event.modifiers == NONE && event.code == EscKey then Ok(Dismiss)
    else Err
  }

  /** `Command::try_from`. `editOf` stands for `Edit::try_from`, which this
      model does not define. */
  function CommandFromEvent(event: Event, editOf: KeyEvent -> Result<Edit>): (r: Result<Command>)
    ensures event.Key? && editOf(event.keyEvent).Ok? ==>
              r == Ok(EditCommand(editOf(event.keyEvent).value))
    ensures event.Key? && editOf(event.keyEvent).Err? && MoveFromKey(event.keyEvent).Ok? ==>
              r == Ok(MoveCommand(MoveFromKey(event.keyEvent).value))
    ensures event.Key? && editOf(event.keyEvent).Err? && MoveFromKey(event.keyEvent).Err? ==>
              r == (if SystemFromKey(event.keyEvent).Ok? then Ok(SystemCommand(SystemFromKey(event.keyEvent).value)) else Err)
    ensures event.ResizeEvent? ==> r == Ok(SystemCommand(Resize(Size(height := event.height, width := event.width))))
    ensures event.OtherEvent? ==> r == Err
  {
    match event
    case Key(k) =>
      if editOf(k).Ok? then Ok(EditCommand(editOf(k).value))
      else if MoveFromKey(k).Ok? then Ok(MoveCommand(MoveFromKey(k).value))
      else if SystemFromKey(k).Ok? then Ok(SystemCommand(SystemFromKey(k).value))
      else Err
    case ResizeEvent(w, h) => Ok(SystemCommand(Resize(Size(height := h, width := w))))
    case OtherEvent => Err
  }

  /** The `Debug` text of a command: its variant name only. */
  function DebugName(c: Command): (r: string)
    ensures c.MoveCommand? <==> r == "Move"
    ensures c.EditCommand? <==> r == "Edit"
    ensures c.SystemCommand? <==> r == "System"
  {
    match c
    case MoveCommand(_) => "Move"
    case EditCommand(_) => "Edit"
    case SystemCommand(_) => "System"
  }

  /** A key event never yields a resize command, whatever the edit classifier does. */
  lemma KeysNeverResize(k: KeyEvent, editOf: KeyEvent -> Result<Edit>)
    ensures var r := CommandFromEvent(Key(k), editOf);
            r.Ok? && r.value.SystemCommand? ==> !r.value.system.Resize?
  {
  }

  /** No key is both a movement and a system command, so the order in which
      the two are tried never hides a system shortcut. */
  lemma MoveAndSystemDisjoint(k: KeyEvent)
    ensures MoveFromKey(k).Ok? ==> SystemFromKey(k).Err?
  {
  }

  /** A movement key reaches the viewer as a movement exactly when the edit
      classifier rejects it. */
  lemma MoveKeysNeedEditRejection(k: KeyEvent, editOf: KeyEvent -> Result<Edit>)
    requires MoveFromKey(k).Ok?
    ensures CommandFromEvent(Key(k), editOf).Ok?
    ensures CommandFromEvent(Key(k), editOf).value.MoveCommand? <==> editOf(k).Err?
  {
  }
}
