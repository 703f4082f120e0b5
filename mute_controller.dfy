/**
 The mute controller (examples/mute_controller.py): a subclass of the gamepad library's
 Controller whose constructor overwrites, in the Controller class itself, every attribute
 whose name starts with "on_" by a handler that does nothing, and then runs the base
 initialiser. The subclass defines its own `on_x_press` and `on_circle_press`, and those
 are found before the base class's entries.

 The Controller class is represented by its attribute table (name to handler). Its own
 handlers are outside this model; they appear as `Original` entries.
 */
module Mute {

  datatype Option<T> = None | Some(value: T)

  /** What an attribute of a class is bound to. */
  datatype Handler =
    | DoNothing                          // `do_nothing(self, value=None)`
    | Prints(text: string)               // a method whose body prints one line
    | Original(owner: string, name: string) // a definition outside this model

  /** The arguments a handler is called with, besides self. */
  datatype Call = NoValue | WithValue(value: int)

  /** The result of calling a handler: the lines it prints, a TypeError for a wrong number of
      arguments, or a behaviour outside this model. */
  datatype Effect = Output(lines: seq<string>) | TypeError | External

  /** Calling a handler. `do_nothing` takes an optional value and has no effect; the
      subclass's two handlers take no argument and print their text. */
  function Invoke(h: Handler, call: Call): (e: Effect)
    ensures h == DoNothing ==> e == Output([])
    ensures h.Prints? ==> (e == Output([h.text]) <==> call == NoValue)
  {
    match h
    case DoNothing => Output([])
    case Prints(text) => if call == NoValue then Output([text]) else TypeError
    case Original(_, _) => External
  }

  /** `str.startswith`. */
  predicate StartsWith(s: string, prefix: string)
  {
    |prefix| <= |s| && s[..|prefix|] == prefix
  }

  const HandlerPrefix: string := "on_"

  /** The table after the overwrite: every "on_" name bound to `DoNothing`, every other entry kept. */
  function Muted(attrs: map<string, Handler>): (m: map<string, Handler>)
    ensures m.Keys == attrs.Keys
  {
    map name | name in attrs :: if StartsWith(name, HandlerPrefix) then DoNothing else attrs[name]
  }

  /** A class object: its attribute table, updated in place by `setattr`. */
  class ControllerClass {
    var attrs: map<string, Handler>

    constructor (attrs: map<string, Handler>)
      ensures this.attrs == attrs
    {
      this.attrs := attrs;
    }
  }

  /** The loop of `MuteController.__init__`: for each attribute name of the class, a name that
      starts with "on_" is rebound to `do_nothing`. The order in which `dir` lists the names does
      not affect the result. */
  method MuteHandlers(cls: ControllerClass)
    modifies cls
    ensures cls.attrs == Muted(old(cls.attrs))
  {
    var names := cls.attrs.Keys;
    while names != {}
      invariant names <= cls.attrs.Keys == old(cls.attrs).Keys
      invariant forall name :: name in cls.attrs ==>
        cls.attrs[name] == (if name !in names && StartsWith(name, HandlerPrefix) then DoNothing else old(cls.attrs)[name])
      decreases names
    {
      var attr :| attr in names;
      if StartsWith(attr, HandlerPrefix) {
        cls.attrs := cls.attrs[attr := DoNothing];
      }
      names := names - {attr};
    }
  }

  /** The attributes the MuteController class body defines itself. */
  const OwnAttrs: map<string, Handler> := map[
    "__init__" := Original("MuteController", "__init__"),
    "on_x_press" := Prints("X pressed"),
    "on_circle_press" := Prints("O pressed")
  ]

  /** Attribute lookup on an instance: the subclass's own table first, then the base class's. */
  function Resolve(own: map<string, Handler>, base: map<string, Handler>, name: string): (h: Option<Handler>)
    ensures h.Some? <==> name in own || name in base
    ensures name in own ==> h == Some(own[name])
    ensures name !in own && name in base ==> h == Some(base[name])
  {
    if name in own then Some(own[name]) else if name in base then Some(base[name]) else None
  }

  /** A MuteController instance: the shared base class it mutates, and the base table as the
      base initialiser saw it. */
  class MuteController {
    const base: ControllerClass
    var tableAtInit: map<string, Handler>

    /** `MuteController.__init__`: the overwrite loop, then `Controller.__init__(self, **kwargs)`,
        which is outside this model beyond the moment it runs. */
    constructor (base: ControllerClass)
      modifies base
      ensures this.base == base
      ensures base.attrs == Muted(old(base.attrs))
      ensures tableAtInit == base.attrs
    {
      this.base := base;
      tableAtInit := map[];
      new;
      MuteHandlers(base);
      tableAtInit := base.attrs;
    }

    /** `getattr(controller, name)`. */
    function Lookup(name: string): (h: Option<Handler>)
      reads this, base
      ensures name in OwnAttrs ==> h == Some(OwnAttrs[name])
      ensures name !in OwnAttrs ==> (h.Some? <==> name in base.attrs)
      ensures name !in OwnAttrs && name in base.attrs ==> h == Some(base.attrs[name])
    {
      Resolve(OwnAttrs, base.attrs, name)
    }
  }

  // ---------------------------------------------------------------------------------------
  // Properties of the overwrite

  /** After the overwrite every "on_" attribute of the class is `do_nothing`, and every other
      attribute is unchanged. */
  lemma MutedEntries(attrs: map<string, Handler>, name: string)
    requires name in attrs
    ensures StartsWith(name, HandlerPrefix) ==> Muted(attrs)[name] == DoNothing
    ensures !StartsWith(name, HandlerPrefix) ==> Muted(attrs)[name] == attrs[name]
  {
  }

  /** Muting an already muted table changes nothing: a second MuteController leaves the base
      class as the first left it. */
  lemma MutedIdempotent(attrs: map<string, Handler>)
    ensures Muted(Muted(attrs)) == Muted(attrs)
  {
  }

  /** Lookup on a MuteController, for a base table after the overwrite: the subclass's own
      attributes win, "on_" attributes of the base resolve to `do_nothing`, others to the
      original entry. */
  lemma ResolveMuted(base: map<string, Handler>, name: string)
    ensures Resolve(OwnAttrs, Muted(base), name) ==
      if name in OwnAttrs then Some(OwnAttrs[name])
      else if name !in base then None
      else if StartsWith(name, HandlerPrefix) then Some(DoNothing)
      else Some(base[name])
  {
  }

  /** The two handlers the subclass defines still print, whatever the base class held. */
  lemma OverridesWin(base: map<string, Handler>)
    ensures Resolve(OwnAttrs, Muted(base), "on_x_press") == Some(Prints("X pressed"))
    ensures Resolve(OwnAttrs, Muted(base), "on_circle_press") == Some(Prints("O pressed"))
    ensures Invoke(Resolve(OwnAttrs, Muted(base), "on_x_press").value, NoValue) == Output(["X pressed"])
    ensures Invoke(Resolve(OwnAttrs, Muted(base), "on_circle_press").value, NoValue) == Output(["O pressed"])
  {
  }

  /** Every other "on_" handler a MuteController finds in the base class prints nothing, with
      or without a value. */
  lemma OtherHandlersSilent(base: map<string, Handler>, name: string, call: Call)
    requires name in base && StartsWith(name, HandlerPrefix)
    requires name != "on_x_press" && name != "on_circle_press"
    ensures Resolve(OwnAttrs, Muted(base), name) == Some(DoNothing)
    ensures Invoke(Resolve(OwnAttrs, Muted(base), name).value, call) == Output([])
  {
    assert name != "__init__" by {
      assert name[..3] == "on_";
      assert name[0] == name[..3][0] == 'o';
    }
    assert name !in OwnAttrs;
    ResolveMuted(base, name);
  }

  /** The overwrite is on the shared base class: a plain Controller created afterwards, which
      has no table of its own, finds `do_nothing` for every "on_" handler too. */
  lemma PlainControllerMuted(base: map<string, Handler>, name: string)
    requires name in base && StartsWith(name, HandlerPrefix)
    ensures Resolve(map[], Muted(base), name) == Some(DoNothing)
  {
  }
}
