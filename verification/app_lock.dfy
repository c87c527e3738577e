/** The app-lock settings screen: four screen states, the first PIN remembered during
    setup, the stored PIN, and the keypad's four-character entry buffer. */
module AppLock {
  import opened Wrappers

  datatype LockScreenState = Overview | SetupEnter | SetupConfirm | UnlockToDisable

  /** What the user can press: a keypad digit, Back, Cancel, and the overview's setup
      ("Setup PIN Lock" / "Change PIN") and "Remove PIN Lock" buttons. */
  datatype Press = Digit(c: char) | Back | Cancel | SetupClick | DisableClick

  datatype LockState = LockState(screen: LockScreenState, firstPinEntry: string, currentPin: string, pinCode: Option<string>)

  /** `!pinCode.isNullOrEmpty()` */
  predicate IsPinSet(pinCode: Option<string>) {
    pinCode.Some? && pinCode.value != ""
  }

  predicate IsEntryScreen(screen: LockScreenState) { screen != Overview }

  /** onPinEntered of the current entry screen, with the buffer already cleared. */
  function PinEntered(s: LockState, pin: string): LockState {
    match s.screen
    case Overview => s
    case SetupEnter => s.(firstPinEntry := pin, screen := SetupConfirm)
    case SetupConfirm =>
      if pin == s.firstPinEntry then s.(pinCode := Some(pin), screen := Overview)
      else s.(screen := SetupEnter)
    case UnlockToDisable =>
      if Some(pin) == s.pinCode then s.(pinCode := None, screen := Overview)
      else s
  }

  /** One press. Keypad presses act only on entry screens and overview buttons only on the
      overview; the remove button exists only while a PIN is set. The buffer reaching four
      characters emits it and clears it within the same step. */
  function Step(s: LockState, p: Press): LockState {
    match p
    case SetupClick => if s.screen == Overview then s.(screen := SetupEnter) else s
    case DisableClick =>
      if s.screen == Overview && IsPinSet(s.pinCode) then s.(screen := UnlockToDisable) else s
    case Cancel => if IsEntryScreen(s.screen) then s.(screen := Overview, currentPin := "") else s
    case Back =>
      if IsEntryScreen(s.screen) && |s.currentPin| > 0 then s.(currentPin := s.currentPin[..|s.currentPin| - 1])
      else s
    case Digit(c) =>
      if !IsEntryScreen(s.screen) || |s.currentPin| >= 4 then s
      else
        var pin := s.currentPin + [c];
        if |pin| == 4 then PinEntered(s.(currentPin := ""), pin) else s.(currentPin := pin)
  }

  function Run(s: LockState, ps: seq<Press>): LockState
    decreases ps
  {
    if ps == [] then s else Run(Step(s, ps[0]), ps[1..])
  }

  /** The screen's mutable state. */
  class AppLockScreen {
    var screen: LockScreenState
    var firstPinEntry: string
    var currentPin: string
    var pinCode: Option<string>

    function State(): LockState
      reads this
    {
      LockState(screen, firstPinEntry, currentPin, pinCode)
    }

    constructor(storedPin: Option<string>)
      ensures State() == LockState(Overview, "", "", storedPin)
    {
      screen := Overview;
      firstPinEntry := "";
      currentPin := "";
      pinCode := storedPin;
    }

    /** The LaunchedEffect on the buffer: a complete entry is handed to the screen's
        onPinEntered and the buffer is cleared. */
    method EmitIfComplete()
      modifies this
      ensures |old(currentPin)| == 4 ==> State() == PinEntered(old(State()).(currentPin := ""), old(currentPin))
      ensures |old(currentPin)| != 4 ==> State() == old(State())
    {
      if |currentPin| == 4 {
        var pin := currentPin;
        currentPin := "";
        if screen == SetupEnter {
          firstPinEntry := pin;
          screen := SetupConfirm;
        } else if screen == SetupConfirm {
          if pin == firstPinEntry {
            pinCode := Some(pin);
            screen := Overview;
          } else {
            screen := SetupEnter;
          }
        } else if screen == UnlockToDisable {
          if Some(pin) == pinCode {
            pinCode := None;
            screen := Overview;
          }
        }
      }
    }

    method Tap(p: Press)
      modifies this
      ensures State() == Step(old(State()), p)
    {
      match p {
        case SetupClick =>
          if screen == Overview { screen := SetupEnter; }
        case DisableClick =>
          if screen == Overview && IsPinSet(pinCode) { screen := UnlockToDisable; }
        case Cancel =>
          if screen != Overview { screen := Overview; currentPin := ""; }
        case Back =>
          if screen != Overview && |currentPin| > 0 { currentPin := currentPin[..|currentPin| - 1]; }
        case Digit(c) =>
          if screen != Overview && |currentPin| < 4 {
            currentPin := currentPin + [c];
            EmitIfComplete();
          }
      }
    }
  }

  // ---------------------------------------------------------------- properties

  /** What every reachable state satisfies: the buffer holds fewer than four characters,
      is empty on the overview, and the unlock-to-disable screen is shown only while a PIN
      is set. */
  predicate Inv(s: LockState) {
    |s.currentPin| < 4
    && (s.screen == Overview ==> s.currentPin == "")
    && (s.screen == UnlockToDisable ==> IsPinSet(s.pinCode))
  }

  lemma StepKeepsInv(s: LockState, p: Press)
    requires Inv(s)
    ensures Inv(Step(s, p))
  {
  }

  lemma {:induction false} RunKeepsInv(s: LockState, ps: seq<Press>)
    requires Inv(s)
    ensures Inv(Run(s, ps))
    decreases ps
  {
    if ps != [] {
      StepKeepsInv(s, ps[0]);
      RunKeepsInv(Step(s, ps[0]), ps[1..]);
    }
  }

  /** The stored PIN changes in exactly two ways: a confirming entry equal to the first
      stores it, and the correct current PIN on the disable screen clears it; both return
      to the overview. */
  lemma PinChangesOnlyByConfirmOrUnlock(s: LockState, p: Press)
    requires Step(s, p).pinCode != s.pinCode
    ensures var t := Step(s, p);
      p.Digit? && |s.currentPin| == 3 && t.screen == Overview && t.currentPin == ""
      && ((s.screen == SetupConfirm && t.pinCode == Some(s.firstPinEntry) && s.firstPinEntry == s.currentPin + [p.c])
          || (s.screen == UnlockToDisable && t.pinCode == None && s.pinCode == Some(s.currentPin + [p.c])))
  {
  }

  /** The fourth digit hands exactly the four typed characters to the screen and leaves the
      buffer empty; fewer digits only grow the buffer. */
  lemma FourthDigitEmits(s: LockState, c: char)
    requires IsEntryScreen(s.screen) && |s.currentPin| < 4
    ensures |s.currentPin| == 3 ==> (Step(s, Digit(c)) == PinEntered(s.(currentPin := ""), s.currentPin + [c])
                                  && Step(s, Digit(c)).currentPin == "")
    ensures |s.currentPin| < 3 ==> Step(s, Digit(c)) == s.(currentPin := s.currentPin + [c])
  {
  }

  /** A confirmation that differs from the first entry restarts setup without touching the
      stored PIN; a wrong PIN on the disable screen stays there; Cancel on any entry screen
      returns to the overview with the PIN untouched. */
  lemma MismatchAndCancel(s: LockState, pin: string, p: Press)
    ensures s.screen == SetupConfirm && pin != s.firstPinEntry ==>
      PinEntered(s, pin) == s.(screen := SetupEnter)
    ensures s.screen == UnlockToDisable && Some(pin) != s.pinCode ==> PinEntered(s, pin) == s
    ensures IsEntryScreen(s.screen) ==> Step(s, Cancel).screen == Overview && Step(s, Cancel).pinCode == s.pinCode
    ensures s.screen == SetupEnter ==> (PinEntered(s, pin).screen == SetupConfirm
      && PinEntered(s, pin).firstPinEntry == pin && PinEntered(s, pin).pinCode == s.pinCode)
  {
  }

  /** The remove button does nothing while no PIN is set. */
  lemma DisableOnlyWhenSet(s: LockState)
    requires !IsPinSet(s.pinCode)
    ensures Step(s, DisableClick) == s
  {
  }

  function Typed(pin: string): (r: seq<Press>)
    ensures |r| == |pin|
    ensures forall i :: 0 <= i < |pin| ==> r[i] == Digit(pin[i])
  {
    if pin == [] then [] else [Digit(pin[0])] + Typed(pin[1..])
  }

  /** Typing a four-character entry from an empty buffer on an entry screen is one emission. */
  lemma TypeEntry(s: LockState, pin: string)
    requires IsEntryScreen(s.screen) && s.currentPin == "" && |pin| == 4
    ensures Run(s, Typed(pin)) == PinEntered(s, pin)
  {
    var ps := Typed(pin);
    var s1 := Step(s, ps[0]);
    var s2 := Step(s1, ps[1]);
    var s3 := Step(s2, ps[2]);
    assert s1.currentPin == pin[..1];
    assert s2.currentPin == pin[..2];
    assert s3.currentPin == pin[..3];
    assert pin[..3] + [pin[3]] == pin;
    assert Run(s3, ps[3..]) == Step(s3, ps[3]);
    assert Run(s2, ps[2..]) == Run(s3, ps[3..]);
    assert Run(s1, ps[1..]) == Run(s2, ps[2..]);
  }

  /** Setting a PIN and then removing it: setup, the PIN twice, remove, the PIN once, leaves
      no PIN on the overview. */
  lemma SetupThenRemove(s: LockState, pin: string)
    requires s.screen == Overview && s.currentPin == "" && |pin| == 4
    ensures var afterSetup := Run(s, [SetupClick] + Typed(pin) + Typed(pin));
      afterSetup.screen == Overview && afterSetup.pinCode == Some(pin)
      && Run(afterSetup, [DisableClick] + Typed(pin)).pinCode == None
      && Run(afterSetup, [DisableClick] + Typed(pin)).screen == Overview
  {
    RunAppend(s, [SetupClick], Typed(pin) + Typed(pin));
    var a := Step(s, SetupClick);
    assert Run(s, [SetupClick]) == a;
    assert [SetupClick] + Typed(pin) + Typed(pin) == [SetupClick] + (Typed(pin) + Typed(pin));
    RunAppend(a, Typed(pin), Typed(pin));
    TypeEntry(a, pin);
    var b := PinEntered(a, pin);
    TypeEntry(b, pin);
    var c := PinEntered(b, pin);
    assert c.pinCode == Some(pin) && c.screen == Overview;
    var d := Step(c, DisableClick);
    assert Run(c, [DisableClick]) == d;
    RunAppend(c, [DisableClick], Typed(pin));
    TypeEntry(d, pin);
  }

  lemma {:induction false} RunAppend(s: LockState, xs: seq<Press>, ys: seq<Press>)
    ensures Run(s, xs + ys) == Run(Run(s, xs), ys)
    decreases xs
  {
    if xs != [] {
      assert (xs + ys)[1..] == xs[1..] + ys;
      RunAppend(Step(s, xs[0]), xs[1..], ys);
    } else {
      assert xs + ys == ys;
    }
  }
}
