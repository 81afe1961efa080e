/**
 * `event::Event`: an event type, the category it belongs to and a display name, with the
 * two switch tables that derive a category and a name from a type.
 */
module Events {

  datatype EventType =
    | None
    | WindowClose | WindowResize | WindowFocus | WindowLostFocus | WindowMoved
    | LoadResource | FreeResource
    | EngineTick | EngineUpdate | EngineRender
    | KeyPressed | KeyReleased
    | MouseButtonPressed | MouseButtonReleased | MouseMoved | MouseScrolled
    | Custom

  datatype EventCategory = NoCategory | Window | Resource | Engine | Input | CustomCategory

  datatype Option<T> = Nothing | Some(value: T)

  /** `get_name_from_type`: the enumerator's spelling, and "Unimplemented" for the `default` case. */
  function NameOf(t: EventType): string
  {
    match t
    case None => "None"
    case WindowClose => "WindowClose"
    case WindowResize => "WindowResize"
    case WindowFocus => "WindowFocus"
    case WindowLostFocus => "WindowLostFocus"
    case WindowMoved => "WindowMoved"
    case LoadResource => "LoadResource"
    case FreeResource => "FreeResource"
    case EngineTick => "EngineTick"
    case EngineUpdate => "EngineUpdate"
    case EngineRender => "EngineRender"
    case KeyPressed => "KeyPressed"
    case KeyReleased => "KeyReleased"
    case MouseButtonPressed => "MouseButtonPressed"
    case MouseButtonReleased => "MouseButtonReleased"
    case MouseMoved => "MouseMoved"
    case MouseScrolled => "MouseScrolled"
    case Custom => "Unimplemented"
  }

  /** `get_category_from_type`; the `default` case, reached only by `Custom`, is the `Custom` category. */
  function CategoryOf(t: EventType): EventCategory
  {
    match t
    case None => NoCategory
    case WindowClose | WindowResize | WindowFocus | WindowLostFocus | WindowMoved => Window
    case LoadResource | FreeResource => Resource
    case EngineTick | EngineUpdate | EngineRender => Engine
    case KeyPressed | KeyReleased | MouseButtonPressed | MouseButtonReleased | MouseMoved | MouseScrolled => Input
    case Custom => CustomCategory
  }

  /** The reverse lookup of the name table: the type spelled `name`, if any. */
  function TypeNamed(name: string): Option<EventType>
  {
    if name == "None" then Some(None)
    else if name == "WindowClose" then Some(WindowClose)
    else if name == "WindowResize" then Some(WindowResize)
    else if name == "WindowFocus" then Some(WindowFocus)
    else if name == "WindowLostFocus" then Some(WindowLostFocus)
    else if name == "WindowMoved" then Some(WindowMoved)
    else if name == "LoadResource" then Some(LoadResource)
    else if name == "FreeResource" then Some(FreeResource)
    else if name == "EngineTick" then Some(EngineTick)
    else if name == "EngineUpdate" then Some(EngineUpdate)
    else if name == "EngineRender" then Some(EngineRender)
    else if name == "KeyPressed" then Some(KeyPressed)
    else if name == "KeyReleased" then Some(KeyReleased)
    else if name == "MouseButtonPressed" then Some(MouseButtonPressed)
    else if name == "MouseButtonReleased" then Some(MouseButtonReleased)
    else if name == "MouseMoved" then Some(MouseMoved)
    else if name == "MouseScrolled" then Some(MouseScrolled)
    else Nothing
  }

  /** The category table groups the types exactly as its cases are listed. */
  lemma CategoryGroups(t: EventType)
    ensures CategoryOf(t) == Window <==> t in {WindowClose, WindowResize, WindowFocus, WindowLostFocus, WindowMoved}
    ensures CategoryOf(t) == Resource <==> t in {LoadResource, FreeResource}
    ensures CategoryOf(t) == Engine <==> t in {EngineTick, EngineUpdate, EngineRender}
    ensures CategoryOf(t) == Input <==>
      t in {KeyPressed, KeyReleased, MouseButtonPressed, MouseButtonReleased, MouseMoved, MouseScrolled}
    ensures CategoryOf(t) == NoCategory <==> t == None
    ensures CategoryOf(t) == CustomCategory <==> t == Custom
  {
  }

  /** Exactly the named types get their own spelling; only `Custom` falls to "Unimplemented". */
  lemma NamedTypesAreAllButCustom(t: EventType)
    ensures NameOf(t) == "Unimplemented" <==> t == Custom
    ensures |NameOf(t)| > 0
  {
  }

  /** Round trip through the reverse lookup: the name of every named type identifies it. */
  lemma TypeNamedFinds(t: EventType)
    requires t != Custom
    ensures TypeNamed(NameOf(t)) == Some(t)
  {
  }

  /** All spellings in the table differ, and none is "Unimplemented". */
  lemma DistinctNames(a: EventType, b: EventType)
    requires a != Custom && a != b
    ensures NameOf(a) != NameOf(b)
  {
    TypeNamedFinds(a);
    if b != Custom {
      TypeNamedFinds(b);
    }
  }

  /** The name table is one-to-one on the named types, and `Custom` shares no spelling with them. */
  lemma NameOfInjective(a: EventType, b: EventType)
    requires a != Custom
    ensures NameOf(a) == NameOf(b) <==> a == b
  {
    if a != b {
      DistinctNames(a, b);
    }
  }

  /** The fields `m_type`, `m_category` and `m_name`. */
  class Event {
    var eventType: EventType
    var category: EventCategory
    var name: string

    /** The defaulted constructor: type and category `None`, and the member initialiser's name `get_name_from_type(None)`. */
    constructor ()
      ensures eventType == None && category == NoCategory && name == NameOf(None)
    {
      eventType := None;
      category := NoCategory;
      name := NameOf(None);
    }

    /** `Event(EventType const &)`: the category and the name both derived from the type. */
    constructor OfType(t: EventType)
      ensures eventType == t && category == CategoryOf(t) && name == NameOf(t)
    {
      eventType := t;
      category := CategoryOf(t);
      name := NameOf(t);
    }

    /** Changes the type only: the category and the name keep the values the old type gave them. */
    method SetType(t: EventType)
      modifies this
      ensures eventType == t && category == old(category) && name == old(name)
    {
      eventType := t;
    }

    /** Changes the name only. */
    method SetName(n: string)
      modifies this
      ensures name == n && eventType == old(eventType) && category == old(category)
    {
      name := n;
    }

    /** `to_string`: the stored name, or the type's table name when the stored name is empty; never empty. */
    function ToString(): (s: string)
      reads this
      ensures |s| > 0
      ensures name != "" ==> s == name
      ensures name == "" ==> s == NameOf(eventType)
    {
      if name != "" then name else NameOf(eventType)
    }
  }
}
