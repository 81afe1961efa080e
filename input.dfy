/**
 * `platform::Button`: edge detection on the `down` flag. `update` and `tick` each keep
 * their own copy of the previous `down` value and raise their `pressed` flag on a
 * rising edge, so the two detectors run independently of each other.
 */
module Input {

  /** All fields of a button: `m_id`, `m_name`, `m_down`, `m_last`, `m_last_tick`, `m_pressed`, `m_pressed_tick`. */
  datatype ButtonState = ButtonState(
    id: nat, name: string, down: bool,
    last: bool, lastTick: bool, pressed: bool, pressedTick: bool)

  /** `update`: `pressed` on a rising edge since the previous `update`, which then remembers `down`. */
  function Updated(s: ButtonState): ButtonState
  {
    s.(pressed := s.down && !s.last, last := s.down)
  }

  /** `tick`: the same edge detection on the tick fields. */
  function Ticked(s: ButtonState): ButtonState
  {
    s.(pressedTick := s.down && !s.lastTick, lastTick := s.down)
  }

  /** After `update`, `pressed` holds exactly on a rising edge, and `last` is the current `down`. */
  lemma UpdateDetectsRisingEdge(s: ButtonState)
    ensures Updated(s).pressed <==> s.down && !s.last
    ensures Updated(s).last == s.down
    ensures Updated(s).pressedTick == s.pressedTick && Updated(s).lastTick == s.lastTick
    ensures Updated(s).down == s.down && Updated(s).id == s.id && Updated(s).name == s.name
  {
  }

  /** After `tick`, `pressed_tick` holds exactly on a rising edge since the previous `tick`. */
  lemma TickDetectsRisingEdge(s: ButtonState)
    ensures Ticked(s).pressedTick <==> s.down && !s.lastTick
    ensures Ticked(s).lastTick == s.down
    ensures Ticked(s).pressed == s.pressed && Ticked(s).last == s.last
    ensures Ticked(s).down == s.down && Ticked(s).id == s.id && Ticked(s).name == s.name
  {
  }

  /** A second `update` without a change of `down` never reports a press; likewise for `tick`. */
  lemma RepeatedUpdateIsQuiet(s: ButtonState)
    ensures !Updated(Updated(s)).pressed
    ensures !Ticked(Ticked(s)).pressedTick
    ensures Updated(Updated(s)) == Updated(s).(pressed := false)
  {
  }

  /** The two detectors do not interfere: `update` and `tick` commute. */
  lemma UpdateTickCommute(s: ButtonState)
    ensures Updated(Ticked(s)) == Ticked(Updated(s))
  {
  }

  class Button {
    const id: nat
    const name: string
    var down: bool
    var last: bool
    var lastTick: bool
    var pressed: bool
    var pressedTick: bool

    /** The abstract value of this button. */
    function State(): ButtonState
      reads this
    {
      ButtonState(id, name, down, last, lastTick, pressed, pressedTick)
    }

    /**
     * `Button(usize id, std::string name)`. The constructor leaves the flags uninitialised;
     * their indeterminate values are the parameter `flags`.
     */
    constructor (id: nat, name: string, flags: ButtonState)
      ensures State() == flags.(id := id, name := name)
    {
      this.id := id;
      this.name := name;
      down := flags.down;
      last := flags.last;
      lastTick := flags.lastTick;
      pressed := flags.pressed;
      pressedTick := flags.pressedTick;
    }

    method Update()
      modifies this
      ensures State() == Updated(old(State()))
    {
      pressed := down && !last;
      last := down;
    }

    method Tick()
      modifies this
      ensures State() == Ticked(old(State()))
    {
      pressedTick := down && !lastTick;
      lastTick := down;
    }
  }
}
