/** Input events on the wire, and the native events they come from. */
module WireProtocol {
  import opened MachineInts
  import opened Wrappers
  import opened InputModel

  datatype WireScreen = WireScreen(stableId: string, name: string, width: I32, height: I32, primary: bool)

  datatype ReliableEvent =
    | Hello(version: U16, screens: seq<WireScreen>)
    | ClientHello(version: U16, screens: seq<WireScreen>)
    | ScreenInventory(screens: seq<WireScreen>)
    | EnterScreenAt(x: I32, y: I32)
    | Input(sequence: U64, eventType: U16, code: U16, value: I32)
    | Heartbeat(sequence: U64)
    | ReleaseAll

  datatype ConversionError =
    | NotInput
    | UnsupportedEventType(eventType: U16)
    | UnsupportedRelativeAxis(code: U16)
    | CombinedScroll

  function EncodeState(state: ButtonState): I32 {
    match state
    case Pressed => 1
    case Released => 0
    case Repeated => 2
  }

  function DecodeState(value: I32): ButtonState {
    if value == 0 then Released else if value == 2 then Repeated else Pressed
  }

  function EncodeButton(button: Button): U16 {
    match button
    case LeftButton => 272
    case RightButton => 273
    case MiddleButton => 274
    case BackButton => 275
    case ForwardButton => 276
    case OtherButton(code) => code
  }

  function DecodeButton(code: U16): Button {
    if code == 272 then LeftButton
    else if code == 273 then RightButton
    else if code == 274 then MiddleButton
    else if code == 275 then BackButton
    else if code == 276 then ForwardButton
    else OtherButton(code)
  }

  function EncodeInput(sequence: U64, e: InputEvent): Result<ReliableEvent, ConversionError> {
    match e
    case KeyEvent(key, state) => Success(Input(sequence, 1, key, EncodeState(state)))
    case ButtonEvent(button, state) => Success(Input(sequence, 1, EncodeButton(button), EncodeState(state)))
    case ScrollEvent(horizontal, vertical) =>
      if horizontal == 0 then Success(Input(sequence, 2, 8, vertical))
      else if vertical == 0 then Success(Input(sequence, 2, 6, horizontal))
      else Failure(CombinedScroll)
  }

  function DecodeInput(m: ReliableEvent): Result<InputEvent, ConversionError> {
    if !m.Input? then Failure(NotInput)
    else if m.eventType == 1 && 272 <= m.code <= 287 then Success(ButtonEvent(DecodeButton(m.code),
        DecodeState(m.value)))
    else if m.eventType == 1 then Success(KeyEvent(m.code, DecodeState(m.value)))
    else if m.eventType == 2 && m.code == 6 then Success(ScrollEvent(m.value, 0))
    else if m.eventType == 2 && m.code == 8 then Success(ScrollEvent(0, m.value))
    else if m.eventType == 2 then Failure(UnsupportedRelativeAxis(m.code))
    else Failure(UnsupportedEventType(m.eventType))
  }

  // What the platform layer makes of a captured native event.
  function DecodeNative(eventType: U16, code: U16, value: I32): Option<InputEvent> {
    if eventType == 1 && 272 <= code <= 287 then Some(ButtonEvent(DecodeButton(code), DecodeState(value)))
    else if eventType == 1 then Some(KeyEvent(code, DecodeState(value)))
    else if eventType == 2 && code == 6 then Some(ScrollEvent(value, 0))
    else if eventType == 2 && code == 8 then Some(ScrollEvent(0, value))
    else None
  }

  // Key codes and button codes do not overlap, and one scroll event moves along one axis.
  predicate Canonical(e: InputEvent) {
    match e
    case KeyEvent(key, _) => !(272 <= key <= 287)
    case ButtonEvent(OtherButton(code), _) => 277 <= code <= 287
    case ButtonEvent(_, _) => true
    case ScrollEvent(horizontal, vertical) => horizontal == 0 || vertical == 0
  }

  /** The canonical events are exactly those the platform layer can capture. */
  lemma CanonicalIsNative(e: InputEvent)
    ensures Canonical(e) <==> exists eventType: U16, code: U16, value: I32
            :: DecodeNative(eventType, code, value) == Some(e)
  {
    if Canonical(e) {
      match e
      case KeyEvent(key, state) => assert DecodeNative(1, key, EncodeState(state)) == Some(e);
      case ButtonEvent(button, state) => assert DecodeNative(1, EncodeButton(button), EncodeState(state)) == Some(e);
      case ScrollEvent(horizontal, vertical) =>
        if horizontal == 0 {
          assert DecodeNative(2, 8, vertical) == Some(e);
        } else {
          assert DecodeNative(2, 6, horizontal) == Some(e);
        }
    }
  }

  /** Sending an event over the wire gives it back unchanged if and only if it is canonical; whatever
      arrives is canonical; and only a scroll along both axes cannot be sent at all. */
  lemma WireRoundTripExact(sequence: U64, e: InputEvent)
    ensures (EncodeInput(sequence, e).Success? && DecodeInput(EncodeInput(sequence, e).value) == Success(e))
            <==> Canonical(e)
    ensures EncodeInput(sequence, e).Failure? <==> e.ScrollEvent? && e.horizontal != 0 && e.vertical != 0
  {
  }

  lemma DecodedIsCanonical(m: ReliableEvent)
    ensures DecodeInput(m).Success? ==> Canonical(DecodeInput(m).value)
  {
  }

  /** A captured native event goes over the wire as it was captured, but for two things: any key or button value
      other than 0, 1 and 2 becomes a press, and a sideways scroll by nothing becomes an upright one. */
  lemma NativeVerbatim(sequence: U64, eventType: U16, code: U16, value: I32)
    requires DecodeNative(eventType, code, value).Some?
    ensures EncodeInput(sequence, DecodeNative(eventType, code, value).value)
            == Success(Input(sequence, eventType, code, value))
            <==> (eventType == 1 ==> 0 <= value <= 2) && (eventType == 2 && code == 6 ==> value != 0)
  {
  }

  // The event types, codes and values that are meant: which are keys, buttons and scrolls, and in which state.
  lemma NativeMeaning(eventType: U16, code: U16, value: I32)
    ensures var e := DecodeNative(eventType, code, value);
            && (e.None? <==> eventType != 1 && !(eventType == 2 && code in {6, 8}))
            && (e.Some? && e.value.ScrollEvent? ==>
                  e.value.horizontal == (if code == 6 then value else 0)
                  && e.value.vertical == (if code == 8 then value else 0))
            && (e.Some? && !e.value.ScrollEvent? ==>
                  e.value.state == if value == 0 then Released else if value == 2 then Repeated else Pressed)
            && (e.Some? && e.value.KeyEvent? ==> e.value.key == code)
            && (e.Some? && e.value.ButtonEvent? ==>
                  272 <= code < 288
                  && (code < 277 ==>
                        e.value.button == [LeftButton, RightButton, MiddleButton, BackButton,
                            ForwardButton][code - 272])
                  && (code >= 277 ==> e.value.button == OtherButton(code)))
            && (eventType == 1 && 272 <= code < 288 ==> e.Some? && e.value.ButtonEvent?)
  {
  }
}
