/**
 A digital button that remembers its state on the previous frame, so that the
 frame on which it went down or came up can be told apart from holding it.
 */
module Buttons {

  datatype Button = Button(pressed: bool, previous: bool)

  /** A button that is up and was up. */
  function NewButton(): (b: Button)
    ensures !IsPressed(b) && !JustPressed(b) && !JustReleased(b)
  {
    Button(false, false)
  }

  predicate IsPressed(b: Button) {
    b.pressed
  }

  predicate JustPressed(b: Button) {
    b.pressed && !b.previous
  }

  predicate JustReleased(b: Button) {
    b.previous && !b.pressed
  }

  /** Records this frame's state; what the button was last frame is kept. */
  function SetPressed(b: Button, value: bool): (r: Button)
    ensures IsPressed(r) == value
    ensures r.previous == b.previous
    ensures JustPressed(r) <==> value && !b.previous
    ensures JustReleased(r) <==> b.previous && !value
  {
    b.(pressed := value)
  }

  /** Ends the frame: this frame's state becomes the previous one. */
  function Update(b: Button): (r: Button)
    ensures IsPressed(r) == IsPressed(b)
    ensures !JustPressed(r) && !JustReleased(r)
  {
    b.(previous := b.pressed)
  }

  /** A button never reports both edges at once. */
  lemma EdgesExclusive(b: Button)
    ensures !(JustPressed(b) && JustReleased(b))
  {
  }

  /**
   Over one frame boundary the edges report exactly the change: a button set to
   `value` after a frame in which it was `before` is just pressed iff it went from
   up to down, and just released iff it went from down to up.
   */
  lemma EdgesAcrossFrame(b: Button, value: bool)
    ensures JustPressed(SetPressed(Update(b), value)) <==> value && !IsPressed(b)
    ensures JustReleased(SetPressed(Update(b), value)) <==> IsPressed(b) && !value
  {
  }

  /** Holding a button down for a second frame reports no new press. */
  lemma HoldingReportsOnePress(b: Button)
    ensures !JustPressed(SetPressed(Update(SetPressed(b, true)), true))
    ensures IsPressed(SetPressed(Update(SetPressed(b, true)), true))
  {
  }
}
