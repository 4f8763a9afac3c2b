/**
 * The positional key map of the option menu (indexToNumberAndLowerCaseKey in
 * index.js) and the dispatch rule built on it: the i-th option (0-based) is
 * triggered by the key whose code the map gives for i + 1, or for i + 1 - 36
 * while Ctrl is held.
 */
module Keys {
  import opened Wrappers

  const CtrlOffset: int := 36

  /** The key code of a 1-based menu position; `None` stands for the source's `null`. */
  function KeyCode(index: int): (c: Option<int>)
    ensures c.Some? <==> index <= 36
  {
    if index <= 9 then Some(48 + index)
    else if index == 10 then Some(48)
    else if 10 < index <= 36 then Some(64 + (index - 10))
    else None
  }

  /**
   * The menu position a digit or capital-letter key code stands for: an
   * independent reading of the key labels ('1'..'9', then '0', then 'A'..'Z').
   */
  function PositionOfKey(code: int): (i: Option<int>)
    ensures i.Some? ==> 1 <= i.value <= 36
  {
    if '1' as int <= code <= '9' as int then Some(code - '0' as int)
    else if code == '0' as int then Some(10)
    else if 'A' as int <= code <= 'Z' as int then Some(code - 'A' as int + 11)
    else None
  }

  /** The table the menu shows: digits 1..9, then 0, then A..Z. */
  lemma KeyCodeTable()
    ensures forall i :: 1 <= i <= 9 ==> KeyCode(i) == Some('0' as int + i)
    ensures KeyCode(10) == Some('0' as int)
    ensures forall i :: 11 <= i <= 36 ==> KeyCode(i) == Some('A' as int + i - 11)
    ensures KeyCode(1) == Some(49) && KeyCode(9) == Some(57) && KeyCode(11) == Some(65)
    ensures KeyCode(36) == Some(90) && KeyCode(37) == None
    ensures forall i :: i > 36 ==> KeyCode(i) == None
  {
  }

  /** Every position up to 9, including 0 and the negative positions Ctrl produces, maps to 48 + position. */
  lemma KeyCodeAtOrBelowNine(index: int)
    requires index <= 9
    ensures KeyCode(index) == Some(48 + index)
  {
  }

  /** The positions 1..36 and the digit/letter codes are in one-to-one correspondence. */
  lemma KeyCodeRoundTrip(index: int, code: int)
    ensures 1 <= index <= 36 ==> PositionOfKey(KeyCode(index).value) == Some(index)
    ensures PositionOfKey(code) == Some(index) ==> KeyCode(index) == Some(code)
  {
  }

  /** Two positions of the visible table never share a key. */
  lemma KeyCodeInjective(i: int, j: int)
    requires 1 <= i <= 36 && 1 <= j <= 36
    requires KeyCode(i) == KeyCode(j)
    ensures i == j
  {
    KeyCodeRoundTrip(i, 0);
    KeyCodeRoundTrip(j, 0);
  }

  /** The code option `i` (0-based) answers to; Ctrl shifts its position down by 36. */
  function OptionKeyCode(i: int, ctrlDown: bool): Option<int> {
    KeyCode(i + 1 - (if ctrlDown then CtrlOffset else 0))
  }

  /** The source's test `charId && value.key === charId`: a code of 0 is falsy and never matches. */
  predicate Triggers(i: int, key: int, ctrlDown: bool) {
    var c := OptionKeyCode(i, ctrlDown);
    c.Some? && c.value != 0 && key == c.value
  }

  /** The first option, scanning positions `from`..`count - 1` in order, that `key` triggers. */
  function FirstMatchFrom(count: nat, key: int, ctrlDown: bool, from: nat): Option<nat>
    decreases count - from
  {
    if from >= count then None
    else if Triggers(from, key, ctrlDown) then Some(from)
    else FirstMatchFrom(count, key, ctrlDown, from + 1)
  }

  function FirstMatch(count: nat, key: int, ctrlDown: bool): Option<nat> {
    FirstMatchFrom(count, key, ctrlDown, 0)
  }

  /** The scan finds the first triggered position, and finds nothing exactly when none is triggered. */
  lemma {:induction false} FirstMatchFromIsFirst(count: nat, key: int, ctrlDown: bool, from: nat)
    ensures var m := FirstMatchFrom(count, key, ctrlDown, from);
      (m.Some? ==> from <= m.value < count && Triggers(m.value, key, ctrlDown)
                   && forall k :: from <= k < m.value ==> !Triggers(k, key, ctrlDown))
      && (m.None? <==> forall k :: from <= k < count ==> !Triggers(k, key, ctrlDown))
    decreases count - from
  {
    if from < count && !Triggers(from, key, ctrlDown) {
      FirstMatchFromIsFirst(count, key, ctrlDown, from + 1);
      var m := FirstMatchFrom(count, key, ctrlDown, from + 1);
      if m.None? {
        forall k | from <= k < count ensures !Triggers(k, key, ctrlDown) {
          if k > from { }
        }
      }
    }
  }

  lemma FirstMatchIsFirst(count: nat, key: int, ctrlDown: bool)
    ensures var m := FirstMatch(count, key, ctrlDown);
      (m.Some? ==> m.value < count && Triggers(m.value, key, ctrlDown)
                   && forall k :: 0 <= k < m.value ==> !Triggers(k, key, ctrlDown))
      && (m.None? <==> forall k :: 0 <= k < count ==> !Triggers(k, key, ctrlDown))
  {
    FirstMatchFromIsFirst(count, key, ctrlDown, 0);
  }

  /** A triggered option with no triggered option before it is the one the scan finds. */
  lemma {:induction false} FirstMatchFromFinds(count: nat, key: int, ctrlDown: bool, from: nat, i: nat)
    requires from <= i < count && Triggers(i, key, ctrlDown)
    requires forall k :: from <= k < i ==> !Triggers(k, key, ctrlDown)
    ensures FirstMatchFrom(count, key, ctrlDown, from) == Some(i)
    decreases i - from
  {
    if from < i {
      FirstMatchFromFinds(count, key, ctrlDown, from + 1, i);
    }
  }

  /** Without Ctrl, option i < 36 is the one its own key selects. */
  lemma PlainKeySelectsItsOption(count: nat, i: nat)
    requires i < count && i < 36
    ensures KeyCode(i + 1).Some?
    ensures FirstMatch(count, KeyCode(i + 1).value, false) == Some(i)
  {
    var key := KeyCode(i + 1).value;
    FirstMatchIsFirst(count, key, false);
    var m := FirstMatch(count, key, false);
    if m != Some(i) {
      if m.Some? && m.value < i {
        KeyCodeInjective(m.value + 1, i + 1);
      } else {
        assert Triggers(i, key, false);
      }
    }
  }

  /**
   * With Ctrl held, option i in 36..71 is selected by the key of position
   * i + 1 - 36, except option 45: its key '0' (48) is also what Ctrl turns
   * position 0 into, and option 35 comes first in the scan.
   */
  lemma CtrlKeySelectsItsOption(count: nat, i: nat)
    requires i < count && 36 <= i < 72
    ensures KeyCode(i + 1 - 36).Some?
    ensures i != 45 ==> FirstMatch(count, KeyCode(i + 1 - 36).value, true) == Some(i)
    ensures i == 45 ==> FirstMatch(count, KeyCode(i + 1 - 36).value, true) == Some(35)
  {
    var key := KeyCode(i + 1 - 36).value;
    FirstMatchIsFirst(count, key, true);
    var m := FirstMatch(count, key, true);
    assert Triggers(i, key, true);
    if i == 45 {
      assert Triggers(35, key, true);
    } else if m.Some? && m.value < i && m.value >= 36 {
      KeyCodeInjective(m.value + 1 - 36, i + 1 - 36);
    }
  }

  /**
   * With Ctrl held, option i of the first 36 answers to key code 13 + i.
   * For options 0..34 that key is outside the table, so Ctrl+Enter (13)
   * selects the first option and the Ctrl key itself (17) the fifth; for
   * option 35 it is 48, the key `0`.
   */
  lemma CtrlLowKeySelectsOption(count: nat, i: nat)
    requires i < count && i < 36
    ensures FirstMatch(count, 13 + i, true) == Some(i)
  {
    FirstMatchFromFinds(count, 13 + i, true, 0, i);
  }

  /** Option 45 cannot be reached from the keyboard at all. */
  lemma OptionFortyFiveIsUnreachable(count: nat, key: int, ctrlDown: bool)
    requires 45 < count
    ensures FirstMatch(count, key, ctrlDown) != Some(45)
  {
    FirstMatchIsFirst(count, key, ctrlDown);
    if FirstMatch(count, key, ctrlDown) == Some(45) {
      if ctrlDown {
        assert Triggers(35, key, ctrlDown);
      }
    }
  }

  /** Keys outside the digit/letter table, and below 13 or above 90, are never menu keys. */
  lemma NoMenuKeyOutsideRange(count: nat, key: int, ctrlDown: bool)
    requires key < 13 || key > 90
    ensures FirstMatch(count, key, ctrlDown) == None
  {
    FirstMatchIsFirst(count, key, ctrlDown);
    forall k | 0 <= k < count ensures !Triggers(k, key, ctrlDown) { }
  }
}
