/** Keys, buttons and the set of inputs that are held down. */
module InputModel {
  import opened MachineInts
  import opened Wrappers

  datatype Button = LeftButton | RightButton | MiddleButton | BackButton | ForwardButton | OtherButton(code: U16)

  datatype ButtonState = Pressed | Released | Repeated

  datatype InputEvent =
    | KeyEvent(key: U16, state: ButtonState)
    | ButtonEvent(button: Button, state: ButtonState)
    | ScrollEvent(horizontal: I32, vertical: I32)

  datatype Motion = Motion(sequence: U64, timestamp: U64, dx: I32, dy: I32)

  datatype HeldInput = HeldKey(key: U16) | HeldButton(button: Button)
  {
    function Event(state: ButtonState): InputEvent {
      match this
      case HeldKey(key) => KeyEvent(key, state)
      case HeldButton(button) => ButtonEvent(button, state)
    }

    // The derived order: keys by code, then buttons by kind.
    function Rank(): nat {
      match this
      case HeldKey(key) => key
      case HeldButton(LeftButton) => 0x1_0000
      case HeldButton(RightButton) => 0x1_0001
      case HeldButton(MiddleButton) => 0x1_0002
      case HeldButton(BackButton) => 0x1_0003
      case HeldButton(ForwardButton) => 0x1_0004
      case HeldButton(OtherButton(code)) => 0x1_0005 + code
    }
  }

  // The inputs held after an event: a press adds, a release removes, anything else leaves them.
  function Observe(held: set<HeldInput>, e: InputEvent): set<HeldInput> {
    match e
    case KeyEvent(key, Pressed) => held + {HeldKey(key)}
    case KeyEvent(key, Released) => held - {HeldKey(key)}
    case ButtonEvent(button, Pressed) => held + {HeldButton(button)}
    case ButtonEvent(button, Released) => held - {HeldButton(button)}
    case _ => held
  }

  // ---------- Sets in the order a sorted set is iterated ----------

  predicate IsLeast(h: HeldInput, s: set<HeldInput>) {
    h in s && forall k | k in s :: h.Rank() <= k.Rank()
  }

  lemma {:induction false} LeastExists(s: set<HeldInput>)
    requires s != {}
    ensures exists h :: IsLeast(h, s)
    decreases |s|
  {
    var x :| x in s;
    if s == {x} {
      assert IsLeast(x, s);
    } else {
      LeastExists(s - {x});
      var h :| IsLeast(h, s - {x});
      assert IsLeast(if x.Rank() <= h.Rank() then x else h, s);
    }
  }

  lemma LeastUnique(s: set<HeldInput>, h: HeldInput, k: HeldInput)
    requires IsLeast(h, s) && IsLeast(k, s)
    ensures h == k
  {
  }

  function Least(s: set<HeldInput>): (h: HeldInput)
    requires s != {}
    ensures IsLeast(h, s)
  {
    LeastExists(s);
    assert forall h, k | IsLeast(h, s) && IsLeast(k, s) :: h == k by {
      forall h, k | IsLeast(h, s) && IsLeast(k, s) ensures h == k {
        LeastUnique(s, h, k);
      }
    }
    var h :| h in s && IsLeast(h, s);
    h
  }

  function Ordered(s: set<HeldInput>): seq<HeldInput> {
    if s == {} then [] else [Least(s)] + Ordered(s - {Least(s)})
  }

  lemma {:induction false} OrderedElements(s: set<HeldInput>)
    ensures forall h :: h in Ordered(s) <==> h in s
    decreases |s|
  {
    if s != {} {
      OrderedElements(s - {Least(s)});
    }
  }

  // Ordered lists a set strictly by rank, so its result is the only such listing.
  lemma {:induction false} OrderedAscends(s: set<HeldInput>)
    ensures forall i, j | 0 <= i < j < |Ordered(s)| :: Ordered(s)[i].Rank() < Ordered(s)[j].Rank()
    decreases |s|
  {
    if s != {} {
      var h, rest := Least(s), s - {Least(s)};
      OrderedAscends(rest);
      OrderedElements(rest);
      forall k | k in Ordered(rest) ensures h.Rank() < k.Rank() {
        assert k in rest;
        if h.Rank() == k.Rank() {
          LeastUnique(s, h, k);
        }
      }
    }
  }
}
