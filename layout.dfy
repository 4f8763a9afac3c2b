/**
 * The arithmetic of the overlay's drawing code (_renderLogs, _renderText and
 * _renderShortcuts in index.js): where each log row and menu line goes, the
 * label a menu line shows, and the rectangle a drawn text reports to the
 * dirty-rectangle manager. The drawing itself is left to the host.
 */
module Layout {
  import opened Wrappers
  import opened Keys
  import opened Options
  import DirtyRegion

  /** The baseline of log row `i` of `count`: the newest sits 10 above the bottom edge, older ones 20 apart above it. */
  function LogRowY(viewHeight: real, i: int, count: int): (y: real)
    ensures i == count - 1 ==> y == viewHeight - 10.0
    ensures i < count ==> y <= viewHeight - 10.0
  {
    -10.0 + viewHeight + ((i - count + 1) as real) * 20.0
  }

  /** Consecutive rows are one slot of 20 apart, older rows above newer ones. */
  lemma LogRowsStackUpward(viewHeight: real, i: int, j: int, count: int)
    requires i < j
    ensures LogRowY(viewHeight, j, count) - LogRowY(viewHeight, i, count) == ((j - i) as real) * 20.0
    ensures LogRowY(viewHeight, i, count) < LogRowY(viewHeight, j, count)
  {
  }

  /**
   * The rectangle _renderText reports for a text `width` wide drawn at (x, y)
   * in a font of `fontSize`: 5 of margin left and right of the text, which
   * ends at x when right-aligned and starts at x otherwise, and 10 more than
   * the font size downward from y.
   */
  function TextDirtyRect(x: real, y: real, width: real, fontSize: real, rightAligned: bool): (r: DirtyRegion.Rect)
    ensures var textLeft := if rightAligned then x - width else x;
      && r.x + 5.0 == textLeft && r.x + r.width - 5.0 == textLeft + width
      && r.y == y && r.height == fontSize + 10.0
    ensures width >= 0.0 && fontSize >= 0.0 ==> r.width >= 10.0 && r.height >= 10.0
  {
    var dx := if rightAligned then x - 5.0 - width else x - 5.0;
    DirtyRegion.Rect(dx, y, width + 10.0, fontSize + 10.0)
  }

  const MenuMargin: int := 14
  const MenuRowHeight: int := 28
  const MenuColumnWidth: int := 320

  /** How many menu lines fit in one column: floor((height - 14) / 28). */
  function RowsPerColumn(viewHeight: real): (m: int)
    ensures (m * MenuRowHeight + MenuMargin) as real <= viewHeight
    ensures viewHeight < ((m + 1) * MenuRowHeight + MenuMargin) as real
  {
    ((viewHeight - 14.0) / 28.0).Floor
  }

  /** Math.floor(a / b) for a non-zero divisor. */
  function FloorDiv(a: int, b: int): (q: int)
    requires b != 0
    ensures b > 0 ==> b * q <= a < b * q + b
    ensures b < 0 ==> b * q >= a > b * q + b
  {
    if b > 0 then a / b else (-a) / (-b)
  }

  /**
   * The top-left corner of menu line `i` (0-based): lines fill a column top
   * to bottom, then the next column 320 to the right. When no line fits
   * (zero lines per column) the source divides by zero and draws at
   * non-finite coordinates; `None` stands for those.
   * For a non-negative `i`, the source's `%` agrees with Dafny's.
   */
  function ShortcutPosition(i: nat, viewHeight: real): (p: Option<(int, int)>)
    ensures p.None? <==> RowsPerColumn(viewHeight) == 0
  {
    var m := RowsPerColumn(viewHeight);
    if m == 0 then None
    else Some((MenuMargin + FloorDiv(i, m) * MenuColumnWidth, MenuMargin + (i % m) * MenuRowHeight))
  }

  /** When at least one line fits, every line lies inside the viewport's height and no two lines share a position. */
  lemma ShortcutPositionsAreDistinct(i: nat, j: nat, viewHeight: real)
    requires RowsPerColumn(viewHeight) > 0
    ensures ShortcutPosition(i, viewHeight).Some?
    ensures var (_, y) := ShortcutPosition(i, viewHeight).value;
      MenuMargin <= y && (y + MenuRowHeight) as real <= viewHeight
    ensures i != j ==> ShortcutPosition(i, viewHeight) != ShortcutPosition(j, viewHeight)
  {
    var m := RowsPerColumn(viewHeight);
    assert (i % m) * MenuRowHeight <= (m - 1) * MenuRowHeight;
    if i != j {
      DivModSeparates(i, j, m);
    }
  }

  /** Two different non-negative numbers differ in their quotient or their remainder. */
  lemma DivModSeparates(i: nat, j: nat, m: int)
    requires m > 0 && i != j
    ensures i / m != j / m || i % m != j % m
  {
    assert i == m * (i / m) + i % m;
    assert j == m * (j / m) + j % m;
  }

  /** String.fromCharCode: a missing code (`null`) becomes the character 0. */
  function FromCharCode(c: Option<int>): char
    requires c.Some? ==> 0 <= c.value < 0xD800
  {
    if c.Some? then c.value as char else 0 as char
  }

  /** The key label of menu line `i`: the key itself, or `^+` and the key for a line past the 36th. */
  function ShortcutLabel(i: nat): string {
    var charId := KeyCode(i + 1);
    if charId.Some? && charId.value != 0 then [charId.value as char]
    else "^+" + [FromCharCode(KeyCode(i + 1 - CtrlOffset))]
  }

  /** The text of a menu line: label, name and, by type, the toggle state or CALL. */
  function ShortcutText(i: nat, o: DebugOption, isOn: bool): string {
    var suffix := match o.kind
      case Toggle => if isOn then " (ON)" else " (OFF)"
      case Call => " (CALL)"
      case Other(_) => "";
    "[" + ShortcutLabel(i) + "] " + o.name + suffix
  }

  /** A toggle's line tells on from off; the line of any other option does not depend on a value. */
  lemma ShortcutTextShowsState(i: nat, o: DebugOption)
    ensures o.kind == Toggle <==> ShortcutText(i, o, true) != ShortcutText(i, o, false)
  {
    if o.kind == Toggle {
      assert |ShortcutText(i, o, true)| + 1 == |ShortcutText(i, o, false)|;
    }
  }

  /**
   * The label names the key that selects the line: for the first 36 lines
   * the plain key, for lines 36..71 the same key with Ctrl (except line 45,
   * whose Ctrl+0 selects line 35), and lines from 72 on show `^+` and the
   * character 0 and no key selects them.
   */
  lemma ShortcutLabelNamesItsKey(count: nat, i: nat)
    requires i < count
    ensures i < 36 ==> && ShortcutLabel(i) == [KeyCode(i + 1).value as char]
                       && FirstMatch(count, KeyCode(i + 1).value, false) == Some(i)
    ensures 36 <= i < 72 ==>
      && ShortcutLabel(i) == "^+" + [KeyCode(i + 1 - 36).value as char]
      && FirstMatch(count, KeyCode(i + 1 - 36).value, true) == (if i == 45 then Some(35) else Some(i))
    ensures i >= 72 ==> ShortcutLabel(i) == "^+" + [0 as char]
                        && forall key, ctrl :: FirstMatch(count, key, ctrl) != Some(i)
  {
    if i < 36 {
      PlainKeySelectsItsOption(count, i);
    } else if i < 72 {
      CtrlKeySelectsItsOption(count, i);
    } else {
      forall key, ctrl ensures FirstMatch(count, key, ctrl) != Some(i) {
        FirstMatchIsFirst(count, key, ctrl);
      }
    }
  }
}
