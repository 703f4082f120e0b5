/**
 The remapped button event (examples/remapped_buttons.py): an event of the gamepad library
 whose face-button IDs are looked up in a keymap that depends on whether the controller
 is connected through ds4drv. The library's Event class is not part of this model; an
 event is the record of the fields the predicates read.
 */
module RemappedButtons {

  datatype Button = X | Circle | Triangle | Square

  /** A button event: its id, its type (1 for buttons), its value (1 press, 0 release)
      and how the controller is connected. */
  datatype Event = Event(buttonId: int, buttonType: int, value: int, connectingUsingDs4drv: bool)

  /** The keymap `RemappedEvent.__init__` builds from the connection flag. */
  function Keymap(ds4drv: bool): (m: map<Button, int>)
    ensures m.Keys == {X, Circle, Triangle, Square} && forall b: Button :: b in m
  {
    var m := map[
      X := if !ds4drv then 0 else 1,
      Circle := if !ds4drv then 1 else 2,
      Triangle := if !ds4drv then 2 else 3,
      Square := if !ds4drv then 3 else 0
    ];
    CoversButtons(m);
    m
  }

  /** A map holding the four named buttons is defined on every button. */
  lemma CoversButtons(m: map<Button, int>)
    requires X in m && Circle in m && Triangle in m && Square in m
    ensures forall b: Button :: b in m
  {
    forall b: Button
      ensures b in m
    {
      match b
      case X =>
      case Circle =>
      case Triangle =>
      case Square =>
    }
  }

  /** The common test of the `*_pressed` methods. */
  predicate Pressed(e: Event, b: Button)
  {
    e.buttonId == Keymap(e.connectingUsingDs4drv)[b] && e.buttonType == 1 && e.value == 1
  }

  /** The common test of the `*_released` methods. */
  predicate Released(e: Event, b: Button)
  {
    e.buttonId == Keymap(e.connectingUsingDs4drv)[b] && e.buttonType == 1 && e.value == 0
  }

  function XPressed(e: Event): (r: bool)
    ensures r <==> e.buttonType == 1 && e.value == 1 && e.buttonId == (if e.connectingUsingDs4drv then 1 else 0)
  {
    Pressed(e, X)
  }

  function XReleased(e: Event): (r: bool)
    ensures r <==> e.buttonType == 1 && e.value == 0 && e.buttonId == (if e.connectingUsingDs4drv then 1 else 0)
  {
    Released(e, X)
  }

  function TrianglePressed(e: Event): (r: bool)
    ensures r <==> e.buttonType == 1 && e.value == 1 && e.buttonId == (if e.connectingUsingDs4drv then 3 else 2)
  {
    Pressed(e, Triangle)
  }

  function TriangleReleased(e: Event): (r: bool)
    ensures r <==> e.buttonType == 1 && e.value == 0 && e.buttonId == (if e.connectingUsingDs4drv then 3 else 2)
  {
    Released(e, Triangle)
  }

  function SquarePressed(e: Event): (r: bool)
    ensures r <==> e.buttonType == 1 && e.value == 1 && e.buttonId == (if e.connectingUsingDs4drv then 0 else 3)
  {
    Pressed(e, Square)
  }

  function SquareReleased(e: Event): (r: bool)
    ensures r <==> e.buttonType == 1 && e.value == 0 && e.buttonId == (if e.connectingUsingDs4drv then 0 else 3)
  {
    Released(e, Square)
  }

  function CirclePressed(e: Event): (r: bool)
    ensures r <==> e.buttonType == 1 && e.value == 1 && e.buttonId == (if e.connectingUsingDs4drv then 2 else 1)
  {
    Pressed(e, Circle)
  }

  function CircleReleased(e: Event): (r: bool)
    ensures r <==> e.buttonType == 1 && e.value == 0 && e.buttonId == (if e.connectingUsingDs4drv then 2 else 1)
  {
    Released(e, Circle)
  }

  /** The button a keymap assigns to an id in 0..3: the inverse of the keymap. */
  function ButtonFor(ds4drv: bool, id: int): (b: Button)
    requires 0 <= id < 4
    ensures Keymap(ds4drv)[b] == id
  {
    var k := if ds4drv then (id + 3) % 4 else id;
    if k == 0 then X else if k == 1 then Circle else if k == 2 then Triangle else Square
  }

  // ---------------------------------------------------------------------------------------
  // Properties of the keymap

  /** In both modes the keymap is a bijection from the four buttons onto the ids 0..3. */
  lemma KeymapBijection(ds4drv: bool)
    ensures Keymap(ds4drv).Values == {0, 1, 2, 3}
    ensures forall a, b :: Keymap(ds4drv)[a] == Keymap(ds4drv)[b] ==> a == b
    ensures forall b :: ButtonFor(ds4drv, Keymap(ds4drv)[b]) == b
  {
  }

  /** The ds4drv keymap is the default keymap with every id shifted by one, modulo 4. */
  lemma KeymapRotation(b: Button)
    ensures Keymap(true)[b] == (Keymap(false)[b] + 1) % 4
  {
  }

  // ---------------------------------------------------------------------------------------
  // Properties of the predicates

  /** An event never counts as both a press and a release of the same button. */
  lemma PressReleaseExclusive(e: Event, b: Button)
    ensures !(Pressed(e, b) && Released(e, b))
  {
  }

  /** At most one button is pressed, and at most one released, by any event. */
  lemma AtMostOneButton(e: Event, a: Button, b: Button)
    ensures Pressed(e, a) && Pressed(e, b) ==> a == b
    ensures Released(e, a) && Released(e, b) ==> a == b
  {
  }

  /** The same for the named predicates: no event satisfies two of the four `*_pressed`
      methods, nor two of the four `*_released` methods. */
  lemma OneNamedButton(e: Event)
    ensures (if XPressed(e) then 1 else 0) + (if CirclePressed(e) then 1 else 0)
          + (if TrianglePressed(e) then 1 else 0) + (if SquarePressed(e) then 1 else 0) <= 1
    ensures (if XReleased(e) then 1 else 0) + (if CircleReleased(e) then 1 else 0)
          + (if TriangleReleased(e) then 1 else 0) + (if SquareReleased(e) then 1 else 0) <= 1
  {
  }

  /** An event that is not a button event, or whose value is neither 1 nor 0, matches no predicate. */
  lemma NonButtonEvent(e: Event, b: Button)
    requires e.buttonType != 1 || (e.value != 0 && e.value != 1)
    ensures !Pressed(e, b) && !Released(e, b)
  {
  }

  /** A button event with value 1 or 0 and an id in 0..3 is a press (or release) of exactly
      the button the keymap assigns to that id. */
  lemma ButtonEventClassified(e: Event, b: Button)
    requires e.buttonType == 1 && (e.value == 0 || e.value == 1) && 0 <= e.buttonId < 4
    ensures (e.value == 1 ==> (Pressed(e, b) <==> b == ButtonFor(e.connectingUsingDs4drv, e.buttonId)))
    ensures (e.value == 0 ==> (Released(e, b) <==> b == ButtonFor(e.connectingUsingDs4drv, e.buttonId)))
  {
  }
}
