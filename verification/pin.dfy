/** The PIN screens: the four-digit keypad buffer shared by every PIN
    screen, the two-step setup that stores a new PIN, and the lock screen
    that compares an entry with the stored one. The short delays before a
    completed entry is delivered, and before a mismatch resets the setup,
    are taken as immediate. */
module Pin {
  import opened Common
  import opened Store

  /** The number of keys that make up a PIN. */
  const PinLength := 4

  /** `joined()`: the entered keys, one after the other. */
  function Join(keys: seq<string>): (s: string)
    ensures |keys| == 0 ==> s == []
  {
    if keys == [] then [] else Join(keys[..|keys| - 1]) + keys[|keys| - 1]
  }

  /** The result of a key press: the buffer afterwards and, when the press
      was the fourth, the PIN handed to the screen. */
  datatype Press = Press(buffer: seq<string>, completed: Option<string>)

  /** `addDigit`: a press on a full buffer is ignored; the fourth key
      completes the entry with the joined keys and empties the buffer. */
  function AddDigit(buffer: seq<string>, key: string): (r: Press)
    ensures |buffer| >= PinLength ==> r == Press(buffer, None)
    ensures |buffer| < PinLength - 1 ==> r == Press(buffer + [key], None)
    ensures |buffer| == PinLength - 1 ==> r == Press([], Some(Join(buffer + [key])))
  {
    if |buffer| >= PinLength then Press(buffer, None)
    else
      var entered := buffer + [key];
      if |entered| == PinLength then Press([], Some(Join(entered))) else Press(entered, None)
  }

  /** `deleteDigit`: drops the last key; nothing happens on an empty buffer. */
  function DeleteDigit(buffer: seq<string>): (r: seq<string>)
    ensures buffer == [] ==> r == []
    ensures buffer != [] ==> r + [buffer[|buffer| - 1]] == buffer
  {
    if buffer == [] then [] else buffer[..|buffer| - 1]
  }

  /** Between presses the buffer never holds a whole PIN. */
  lemma AddDigitKeepsBound(buffer: seq<string>, key: string)
    requires |buffer| < PinLength
    ensures |AddDigit(buffer, key).buffer| < PinLength
  {
  }

  /** Deleting right after a key press that did not complete the entry
      takes the key back. */
  lemma DeleteUndoesAdd(buffer: seq<string>, key: string)
    requires |buffer| < PinLength - 1
    ensures DeleteDigit(AddDigit(buffer, key).buffer) == buffer
  {
  }

  /** A run of key presses from `buffer`: the buffer afterwards and every
      PIN completed on the way, in order. */
  datatype Typed = Typed(buffer: seq<string>, pins: seq<string>)

  function TypeKeys(keys: seq<string>): Typed
  {
    if keys == [] then Typed([], [])
    else
      var before := TypeKeys(keys[..|keys| - 1]);
      var press := AddDigit(before.buffer, keys[|keys| - 1]);
      Typed(press.buffer, before.pins + Completed(press))
  }

  /** One more key after a run: the press acts on the buffer the run left. */
  lemma TypeSnoc(keys: seq<string>, key: string)
    ensures TypeKeys(keys + [key]) == Typed(AddDigit(TypeKeys(keys).buffer, key).buffer,
                                            TypeKeys(keys).pins + Completed(AddDigit(TypeKeys(keys).buffer, key)))
  {
    var t := keys + [key];
    assert t[..|t| - 1] == keys && t[|t| - 1] == key;
  }

  /** The PIN a press delivers, as a list of none or one. */
  function Completed(p: Press): seq<string>
  {
    if p.completed.Some? then [p.completed.value] else []
  }

  /** Up to three keys typed on an empty buffer are simply held. */
  lemma {:induction false} TypePartial(keys: seq<string>, group: seq<string>)
    requires TypeKeys(keys).buffer == [] && |group| < PinLength
    ensures TypeKeys(keys + group) == Typed(group, TypeKeys(keys).pins)
    decreases |group|
  {
    if group == [] {
      assert keys + group == keys;
    } else {
      var n := |group| - 1;
      TypePartial(keys, group[..n]);
      HoldKey(keys + group[..n], group[..n], TypeKeys(keys).pins, group[n]);
      SnocLast(keys, group);
    }
  }

  /** A key typed on a buffer that is not one short of a PIN is held. */
  lemma HoldKey(keys: seq<string>, buffer: seq<string>, pins: seq<string>, key: string)
    requires TypeKeys(keys) == Typed(buffer, pins) && |buffer| < PinLength - 1
    ensures TypeKeys(keys + [key]) == Typed(buffer + [key], pins)
  {
    TypeSnoc(keys, key);
  }

  /** Four keys typed on an empty buffer deliver their join as one PIN and
      leave the buffer empty again. */
  lemma TypeGroup(keys: seq<string>, group: seq<string>)
    requires TypeKeys(keys).buffer == [] && |group| == PinLength
    ensures TypeKeys(keys + group) == Typed([], TypeKeys(keys).pins + [Join(group)])
  {
    var n := PinLength - 1;
    TypePartial(keys, group[..n]);
    TypeSnoc(keys + group[..n], group[n]);
    SnocLast(keys, group);
  }

  /** The keys of a PIN, one per character. */
  function KeysOf(pin: string): (keys: seq<string>)
    ensures |keys| == |pin|
    ensures forall k :: 0 <= k < |pin| ==> keys[k] == [pin[k]]
  {
    seq(|pin|, k requires 0 <= k < |pin| => [pin[k]])
  }

  lemma {:induction false} JoinKeysOf(pin: string)
    ensures Join(KeysOf(pin)) == pin
    decreases |pin|
  {
    if pin != [] {
      var n := |pin| - 1;
      assert KeysOf(pin)[..n] == KeysOf(pin[..n]);
      JoinKeysOf(pin[..n]);
      assert pin == pin[..n] + [pin[n]];
    }
  }

  /** The keys of several PINs, one PIN after the other. */
  function KeysOfAll(pins: seq<string>): (keys: seq<string>)
  {
    if pins == [] then [] else KeysOfAll(pins[..|pins| - 1]) + KeysOf(pins[|pins| - 1])
  }

  /** Typing PINs of four characters one after the other delivers exactly
      those PINs, in order, each once, and leaves the buffer empty. */
  lemma {:induction false} TypingPins(pins: seq<string>)
    requires forall k :: 0 <= k < |pins| ==> |pins[k]| == PinLength
    ensures TypeKeys(KeysOfAll(pins)) == Typed([], pins)
    decreases |pins|
  {
    if pins != [] {
      var n := |pins| - 1;
      assert forall k :: 0 <= k < n ==> pins[..n][k] == pins[k];
      TypingPins(pins[..n]);
      TypingLast(pins);
    }
  }

  /** The induction step: the last PIN typed after the others. */
  lemma TypingLast(pins: seq<string>)
    requires pins != [] && |pins[|pins| - 1]| == PinLength
    requires TypeKeys(KeysOfAll(pins[..|pins| - 1])) == Typed([], pins[..|pins| - 1])
    ensures TypeKeys(KeysOfAll(pins)) == Typed([], pins)
  {
    var n := |pins| - 1;
    KeysOfAllLast(pins);
    TypeOnePin(KeysOfAll(pins[..n]), pins[..n], pins[n]);
    SnocLast([], pins);
  }

  lemma KeysOfAllLast(pins: seq<string>)
    requires pins != []
    ensures KeysOfAll(pins) == KeysOfAll(pins[..|pins| - 1]) + KeysOf(pins[|pins| - 1])
  {
  }

  /** Typing one more PIN of four characters on an empty buffer delivers it. */
  lemma TypeOnePin(keys: seq<string>, done: seq<string>, pin: string)
    requires TypeKeys(keys) == Typed([], done) && |pin| == PinLength
    ensures TypeKeys(keys + KeysOf(pin)) == Typed([], done + [pin])
  {
    TypeGroup(keys, KeysOf(pin));
    JoinKeysOf(pin);
  }

  /** The two pages of the setup screen. */
  datatype SetupStep = Create | Confirm

  /** The setup screen's state: its page and the PIN entered on the first page. */
  datatype Setup = Setup(step: SetupStep, firstPin: string)

  const SetupStart := Setup(Create, "")

  /** What a completed entry or a cancel does: the screen's next state, the
      store afterwards, whether the screen closed, and whether the mismatch
      message was shown. */
  datatype SetupOutcome = SetupOutcome(setup: Setup, store: DataManager, dismissed: bool, mismatch: bool)

  /** A PIN completed on the setup screen. On the first page it is kept and
      the screen asks for it again; on the second page a match stores it
      and enables the lock, and a mismatch starts over from the first page. */
  function SetupComplete(s: Setup, m: DataManager, pin: string): (r: SetupOutcome)
    ensures r.dismissed <==> s.step == Confirm && pin == s.firstPin
    ensures r.mismatch <==> s.step == Confirm && pin != s.firstPin
    ensures r.dismissed ==> r.store.settings == m.settings.(pinEnabled := true, pinCode := Some(pin))
    ensures !r.dismissed ==> r.store == m
    ensures r.store.folders == m.folders && r.store.documents == m.documents
    ensures s.step == Create ==> r.setup == Setup(Confirm, pin)
    ensures r.mismatch ==> r.setup == SetupStart
  {
    match s.step
    case Create => SetupOutcome(Setup(Confirm, pin), m, false, false)
    case Confirm =>
      if pin == s.firstPin then
        var settings := m.settings.(pinEnabled := true, pinCode := Some(pin));
        SetupOutcome(s, UpdateSettings(m, settings), true, false)
      else SetupOutcome(SetupStart, m, false, true)
  }

  /** The cancel button: it closes the screen on the first page and goes
      back to the first page, forgetting the PIN, on the second. The
      stored settings are never touched. */
  function SetupCancel(s: Setup, m: DataManager): (r: SetupOutcome)
    ensures r.store == m && !r.mismatch
    ensures r.dismissed <==> s.step == Create
    ensures s.step == Confirm ==> r.setup == SetupStart
  {
    match s.step
    case Create => SetupOutcome(s, m, true, false)
    case Confirm => SetupOutcome(SetupStart, m, false, false)
  }

  /** The lock screen's state: failed attempts so far and whether the
      lock has been opened. */
  datatype Lock = Lock(attempts: nat, unlocked: bool)

  const LockStart := Lock(0, false)

  /** A PIN completed on the lock screen: equal to the stored code it
      opens the lock, anything else counts one more failed attempt. A
      missing stored code matches nothing. There is no lockout. */
  function LockComplete(l: Lock, settings: AppSettings, pin: string): (r: Lock)
    ensures r.unlocked <==> l.unlocked || settings.pinCode == Some(pin)
    ensures settings.pinCode == Some(pin) ==> r.attempts == l.attempts
    ensures settings.pinCode != Some(pin) ==> r.attempts == l.attempts + 1
  {
    if Some(pin) == settings.pinCode then l.(unlocked := true) else l.(attempts := l.attempts + 1)
  }

  /** The count in the "Kalan deneme" message after a failure; it goes
      below zero once more than three attempts have failed. */
  function RemainingShown(l: Lock): int
  {
    3 - l.attempts
  }

  /** A run of entries on the lock screen. */
  function TryAll(l: Lock, settings: AppSettings, pins: seq<string>): (r: Lock)
    decreases |pins|
  {
    if pins == [] then l else TryAll(LockComplete(l, settings, pins[0]), settings, pins[1..])
  }

  /** Wrong entries only count up: however many fail, the lock stays
      closed, and the stored code still opens it afterwards. */
  lemma NoLockout(l: Lock, settings: AppSettings, wrong: seq<string>, pin: string)
    requires forall k :: 0 <= k < |wrong| ==> settings.pinCode != Some(wrong[k])
    requires settings.pinCode == Some(pin)
    ensures TryAll(l, settings, wrong) == l.(attempts := l.attempts + |wrong|)
    ensures LockComplete(TryAll(l, settings, wrong), settings, pin).unlocked
  {
    WrongEntriesCount(l, settings, wrong);
  }

  /** With no stored code nothing opens the lock. */
  lemma {:induction false} NoCodeNeverUnlocks(l: Lock, settings: AppSettings, pins: seq<string>)
    requires settings.pinCode.None?
    ensures TryAll(l, settings, pins) == Lock(l.attempts + |pins|, l.unlocked)
    decreases |pins|
  {
    if pins != [] {
      NoCodeNeverUnlocks(LockComplete(l, settings, pins[0]), settings, pins[1..]);
    }
  }

  /** Four failures from a fresh lock screen announce -1 remaining attempts. */
  lemma RemainingAfterFourFailures(settings: AppSettings, wrong: seq<string>)
    requires |wrong| == 4
    requires forall k :: 0 <= k < |wrong| ==> settings.pinCode != Some(wrong[k])
    ensures RemainingShown(TryAll(LockStart, settings, wrong)) == -1
  {
    WrongEntriesCount(LockStart, settings, wrong);
  }

  /** Each wrong entry adds one failed attempt and nothing else. */
  lemma {:induction false} WrongEntriesCount(l: Lock, settings: AppSettings, wrong: seq<string>)
    requires forall k :: 0 <= k < |wrong| ==> settings.pinCode != Some(wrong[k])
    ensures TryAll(l, settings, wrong) == l.(attempts := l.attempts + |wrong|)
    decreases |wrong|
  {
    if wrong != [] {
      WrongEntriesCount(LockComplete(l, settings, wrong[0]), settings, wrong[1..]);
    }
  }

  /** Entering the same PIN on both setup pages stores it, and from then on
      exactly that PIN opens the lock screen. */
  lemma SetupThenUnlock(m: DataManager, pin: string, other: string)
    requires other != pin
    ensures var first := SetupComplete(SetupStart, m, pin);
            var second := SetupComplete(first.setup, first.store, pin);
            && second.dismissed
            && second.store.settings.pinEnabled
            && LockComplete(LockStart, second.store.settings, pin).unlocked
            && !LockComplete(LockStart, second.store.settings, other).unlocked
  {
  }

  /** Two different PINs on the two pages store nothing and start over. */
  lemma SetupMismatchRestarts(m: DataManager, pin: string, other: string)
    requires other != pin
    ensures var first := SetupComplete(SetupStart, m, pin);
            SetupComplete(first.setup, first.store, other) == SetupOutcome(SetupStart, m, false, true)
  {
  }
}
