/** The keyboard handlers of `setupControls`: the key of each event is
    lower-cased and looked up in a fixed table of five controls; keydown sets
    that control's flag in `GAME_STATE.controls`, keyup clears it. */
module Controls {
  import opened Wrappers

  datatype Control = Accelerate | Brake | TurnLeft | TurnRight | Handbrake

  /** The `controls` record, as a value. */
  datatype ControlState = ControlState(accelerate: bool, brake: bool, turnLeft: bool, turnRight: bool, handbrake: bool)
  {
    function Get(c: Control): bool
    {
      match c
      case Accelerate => accelerate
      case Brake => brake
      case TurnLeft => turnLeft
      case TurnRight => turnRight
      case Handbrake => handbrake
    }

    /** The record with the flag of c set to v and every other flag kept. */
    function With(c: Control, v: bool): (r: ControlState)
      ensures r.Get(c) == v
      ensures forall c' :: c' != c ==> r.Get(c') == Get(c')
    {
      match c
      case Accelerate => this.(accelerate := v)
      case Brake => this.(brake := v)
      case TurnLeft => this.(turnLeft := v)
      case TurnRight => this.(turnRight := v)
      case Handbrake => this.(handbrake := v)
    }
  }

  /** `toLowerCase` on one character, for the Latin letters A to Z. */
  function LowerChar(c: char): (r: char)
    ensures 'A' <= c <= 'Z' ==> 'a' <= r <= 'z'
    ensures !('A' <= c <= 'Z') ==> r == c
    ensures !('A' <= r <= 'Z')
  {
    if 'A' <= c <= 'Z' then (c as int - 'A' as int + 'a' as int) as char else c
  }

  /** `toLowerCase` on a key name. */
  function ToLower(s: string): (r: string)
    ensures |r| == |s|
    ensures forall i :: 0 <= i < |s| ==> r[i] == LowerChar(s[i])
  {
    if s == [] then [] else [LowerChar(s[0])] + ToLower(s[1..])
  }

  /** Lower-casing twice is lower-casing once. */
  lemma {:induction false} ToLowerIdempotent(s: string)
    ensures ToLower(ToLower(s)) == ToLower(s)
  {
    if s != [] {
      ToLowerIdempotent(s[1..]);
      assert ToLower(s)[1..] == ToLower(s[1..]);
    }
  }

  /** The `switch` on the lower-cased key. It agrees with the binding table
      `KeysOf` in both directions; a name bound to no control is ignored. */
  function Lookup(k: string): (r: Option<Control>)
    ensures forall c :: r == Some(c) <==> k in KeysOf(c)
    ensures r.None? <==> forall c :: k !in KeysOf(c)
  {
    assert "w" != "s" && "w" != "a" && "w" != "d" && "w" != " ";
    assert "s" != "a" && "s" != "d" && "s" != " ";
    assert "a" != "d" && "a" != " " && "d" != " ";
    assert "arrowup" != "arrowdown" && "arrowleft" != "arrowright";
    if k == "w" || k == "arrowup" then Some(Accelerate)
    else if k == "s" || k == "arrowdown" then Some(Brake)
    else if k == "a" || k == "arrowleft" then Some(TurnLeft)
    else if k == "d" || k == "arrowright" then Some(TurnRight)
    else if k == " " then Some(Handbrake)
    else None
  }

  /** The control a key event selects: the key is lower-cased first and then
      looked up in the binding table. */
  function KeyControl(key: string): (r: Option<Control>)
    ensures forall c :: r == Some(c) <==> ToLower(key) in KeysOf(c)
    ensures r.None? <==> forall c :: ToLower(key) !in KeysOf(c)
  {
    Lookup(ToLower(key))
  }

  /** The lower-case key names bound to each control. */
  function KeysOf(c: Control): set<string>
  {
    match c
    case Accelerate => {"w", "arrowup"}
    case Brake => {"s", "arrowdown"}
    case TurnLeft => {"a", "arrowleft"}
    case TurnRight => {"d", "arrowright"}
    case Handbrake => {" "}
  }

  /** Keys are matched regardless of case. */
  lemma KeyCaseInsensitive(key: string)
    ensures KeyControl(key) == KeyControl(ToLower(key))
  {
    ToLowerIdempotent(key);
  }

  /** Key names as browsers report them, whatever their case. */
  lemma KeyExamples()
    ensures KeyControl("W") == Some(Accelerate)
    ensures KeyControl("ArrowLeft") == Some(TurnLeft)
    ensures KeyControl("Shift") == None
  {
    assert LowerChar('W') == 'w';
    assert ToLower("W") == "w";
    assert LowerChar('A') == 'a';
    assert ToLower("ArrowLeft") == "arrowleft";
    assert LowerChar('S') == 's';
    assert ToLower("Shift") == "shift";
  }

  /** The state after one key event, `down` being true for keydown: a bound
      key sets (keydown) or clears (keyup) exactly its own flag; an unbound
      key changes nothing. */
  function OnKey(s: ControlState, key: string, down: bool): (r: ControlState)
    ensures KeyControl(key).None? ==> r == s
    ensures forall c :: KeyControl(key) == Some(c) ==>
      r.Get(c) == down && forall c' :: c' != c ==> r.Get(c') == s.Get(c')
  {
    match KeyControl(key)
    case None => s
    case Some(c) => s.With(c, down)
  }

  /** Releasing a key after pressing it clears its flag and leaves the rest
      as they were before the press; pressing twice is pressing once. */
  lemma PressRelease(s: ControlState, key: string)
    ensures KeyControl(key).Some? ==> OnKey(OnKey(s, key, true), key, false) == s.With(KeyControl(key).value, false)
    ensures OnKey(OnKey(s, key, true), key, true) == OnKey(s, key, true)
  {
    if KeyControl(key).Some? {
      var c := KeyControl(key).value;
      var r, r' := OnKey(OnKey(s, key, true), key, false), s.With(c, false);
      assert forall c' :: r.Get(c') == r'.Get(c');
    }
  }

  /** `GAME_STATE.controls`, updated in place by the two listeners. */
  class ControlFlags {
    var accelerate: bool
    var brake: bool
    var turnLeft: bool
    var turnRight: bool
    var handbrake: bool

    function State(): ControlState
      reads this
    {
      ControlState(accelerate, brake, turnLeft, turnRight, handbrake)
    }

    /** Every flag starts false. */
    constructor ()
      ensures State() == ControlState(false, false, false, false, false)
    {
      accelerate, brake, turnLeft, turnRight, handbrake := false, false, false, false, false;
    }

    /** The `keydown` listener. */
    method KeyDown(key: string)
      modifies this
      ensures State() == OnKey(old(State()), key, true)
    {
      SetFor(key, true);
    }

    /** The `keyup` listener. */
    method KeyUp(key: string)
      modifies this
      ensures State() == OnKey(old(State()), key, false)
    {
      SetFor(key, false);
    }

    /** The `switch` on the lower-cased key, written out identically in the
        keydown and the keyup listener and factored out here; it assigns `v`
        to the bound flag. */
    method SetFor(key: string, v: bool)
      modifies this
      ensures State() == OnKey(old(State()), key, v)
    {
      var k := ToLower(key);
      if k == "w" || k == "arrowup" {
        accelerate := v;
      } else if k == "s" || k == "arrowdown" {
        brake := v;
      } else if k == "a" || k == "arrowleft" {
        turnLeft := v;
      } else if k == "d" || k == "arrowright" {
        turnRight := v;
      } else if k == " " {
        handbrake := v;
      }
    }
  }
}
