/**
 * The keyboard-navigable suggestion menu of lesson 07 (`MentionList`; the
 * unused `SlashCommandsList` is the same component over another item type,
 * so the class below is generic in the item type and covers both).
 *
 * The menu owns one number, `selectedIndex`. Arrow keys move it with
 * JavaScript's `%`, Enter hands the selected item to the `command`
 * callback, and every new `items` prop resets it to 0.
 */
module SuggestionList {
  import opened Wrappers

  const ARROW_UP: string := "ArrowUp"
  const ARROW_DOWN: string := "ArrowDown"
  const ENTER: string := "Enter"

  /** A JavaScript number used as a list index: an integer, or NaN (what `x % 0` yields). */
  datatype Index = Num(value: int) | NaN

  /** The index names an existing row of a list of length `n`. */
  predicate InRange(i: Index, n: nat)
  {
    i.Num? && 0 <= i.value < n
  }

  /** JavaScript's `a % n` for an integer `a` and a list length `n`: NaN when `n` is 0, otherwise the remainder truncated toward zero. */
  function JsRem(a: int, n: nat): (r: Index)
    ensures n == 0 <==> r.NaN?
    ensures r.Num? ==> (a - r.value) % n == 0 && -(n as int) < r.value < n
    ensures r.Num? && a >= 0 ==> r.value >= 0
    ensures r.Num? && a < 0 ==> r.value <= 0
  {
    if n == 0 then NaN
    else if a >= 0 then
      var q := a / n;
      assert a - a % n == q * n;
      MultipleMod(q, n);
      Num(a % n)
    else
      var q := (-a) / n;
      assert -a == q * n + (-a) % n;
      assert a + (-a) % n == (-q) * n;
      MultipleMod(-q, n);
      Num(-((-a) % n))
  }

  /** `upHandler`: `(selectedIndex + items.length - 1) % items.length`. */
  function Up(i: Index, n: nat): (r: Index)
    ensures n == 0 || i.NaN? ==> r.NaN?
    ensures InRange(i, n) ==> r == Num(if i.value == 0 then n - 1 else i.value - 1)
  {
    match i
    case NaN => NaN
    case Num(v) => JsRem(v + n - 1, n)
  }

  /** `downHandler`: `(selectedIndex + 1) % items.length`. */
  function Down(i: Index, n: nat): (r: Index)
    ensures n == 0 || i.NaN? ==> r.NaN?
    ensures InRange(i, n) ==> r == Num(if i.value == n - 1 then 0 else i.value + 1)
  {
    match i
    case NaN => NaN
    case Num(v) => JsRem(v + 1, n)
  }

  /** On a non-empty list, up and down keep an in-range index in range and undo each other. */
  lemma UpDownInverse(i: Index, n: nat)
    requires InRange(i, n)
    ensures InRange(Up(i, n), n) && InRange(Down(i, n), n)
    ensures Down(Up(i, n), n) == i && Up(Down(i, n), n) == i
  {
  }

  /** `k` presses of ArrowDown. */
  function DownTimes(i: Index, n: nat, k: nat): (r: Index)
    ensures InRange(i, n) ==> InRange(r, n)
    ensures k > 0 && (n == 0 || i.NaN?) ==> r.NaN?
  {
    if k == 0 then i else Down(DownTimes(i, n, k - 1), n)
  }

  /** `k` presses of ArrowUp. */
  function UpTimes(i: Index, n: nat, k: nat): (r: Index)
    ensures InRange(i, n) ==> InRange(r, n)
    ensures k > 0 && (n == 0 || i.NaN?) ==> r.NaN?
  {
    if k == 0 then i else Up(UpTimes(i, n, k - 1), n)
  }

  /** `k` down-presses advance an in-range index by `k`, wrapping around the list. */
  lemma {:induction false} DownTimesAdvances(v: int, n: nat, k: nat)
    requires 0 <= v < n
    ensures DownTimes(Num(v), n, k) == Num((v + k) % n)
  {
    if k > 0 {
      DownTimesAdvances(v, n, k - 1);
      var w := (v + k - 1) % n;
      assert (if w == n - 1 then 0 else w + 1) == (v + k) % n by {
        ModSuccessor(v + k - 1, n);
      }
    }
  }

  /** `k` up-presses move an in-range index back by `k`, wrapping around the list. */
  lemma {:induction false} UpTimesRetreats(v: int, n: nat, k: nat)
    requires 0 <= v < n
    ensures UpTimes(Num(v), n, k) == Num((v - k) % n)
  {
    if k > 0 {
      UpTimesRetreats(v, n, k - 1);
      var w := (v - k + 1) % n;
      assert (if w == 0 then n - 1 else w - 1) == (v - k) % n by {
        ModSuccessor(v - k, n);
      }
    }
  }

  /** The remainder of a successor is the successor of the remainder, wrapping at `n`. */
  lemma ModSuccessor(a: int, n: nat)
    requires n > 0
    ensures (a + 1) % n == if a % n == n - 1 then 0 else a % n + 1
  {
    var q, r := a / n, a % n;
    if r == n - 1 {
      ModUnique(a + 1, n, q + 1, 0);
    } else {
      ModUnique(a + 1, n, q, r + 1);
    }
  }

  /** Quotient and remainder are the only pair with `a == q * n + r` and `0 <= r < n`. */
  lemma ModUnique(a: int, n: int, q: int, r: int)
    requires n > 0 && 0 <= r < n && a == q * n + r
    ensures a % n == r
  {
    var q', r' := a / n, a % n;
    assert a == q' * n + r';
    assert (q - q') * n == r' - r;
    if q > q' {
      MulAtLeast(q - q', n);
    } else if q < q' {
      MulAtLeast(q' - q, n);
    }
  }

  lemma MulAtLeast(k: int, n: int)
    requires k >= 1 && n > 0
    ensures k * n >= n
  {
    assert k * n == (k - 1) * n + n;
  }

  /** A multiple of `n` leaves no remainder. */
  lemma MultipleMod(k: int, n: int)
    requires n > 0
    ensures (k * n) % n == 0
  {
    ModUnique(k * n, n, k, 0);
  }

  /** `n` down-presses on a list of `n` rows come back to the starting row; so do `n` up-presses. */
  lemma FullCycle(v: int, n: nat)
    requires 0 <= v < n
    ensures DownTimes(Num(v), n, n) == Num(v)
    ensures UpTimes(Num(v), n, n) == Num(v)
  {
    DownTimesAdvances(v, n, n);
    ModUnique(v + n, n, 1, v);
    UpTimesRetreats(v, n, n);
    ModUnique(v - n, n, -1, v);
  }

  /** Three down-presses from the first row of a five-row list select the fourth row. */
  lemma ThreeDownsOfFive()
    ensures DownTimes(Num(0), 5, 3) == Num(3)
  {
    DownTimesAdvances(0, 5, 3);
  }

  /** `selectItem(index)`: `items[index]` when that slot holds an item, and nothing otherwise. */
  function SelectItem<T>(items: seq<T>, i: Index): (r: Option<T>)
    ensures r.Some? <==> InRange(i, |items|)
    ensures r.Some? ==> r.value == items[i.value]
  {
    if InRange(i, |items|) then Some(items[i.value]) else None
  }

  /** What one key press does: whether it was handled, the new index, and the item passed to `command`, if any. */
  datatype KeyResult<T> = KeyResult(handled: bool, selected: Index, command: Option<T>)

  /** The `onKeyDown` handle of the menu. */
  function KeyDown<T>(items: seq<T>, selected: Index, key: string): (r: KeyResult<T>)
    ensures r.handled <==> key == ARROW_UP || key == ARROW_DOWN || key == ENTER
    ensures !r.handled ==> r.selected == selected && r.command.None?
    ensures key == ARROW_UP ==> r.selected == Up(selected, |items|) && r.command.None?
    ensures key == ARROW_DOWN ==> r.selected == Down(selected, |items|) && r.command.None?
    ensures key == ENTER ==> r.selected == selected && r.command == SelectItem(items, selected)
  {
    if key == ARROW_UP then KeyResult(true, Up(selected, |items|), None)
    else if key == ARROW_DOWN then KeyResult(true, Down(selected, |items|), None)
    else if key == ENTER then KeyResult(true, selected, SelectItem(items, selected))
    else KeyResult(false, selected, None)
  }

  /**
   * The index the menu can hold: 0 (its initial and reset value), a row of a
   * non-empty list, or NaN once an arrow key was pressed on an empty list.
   */
  predicate IndexOk(i: Index, n: nat)
  {
    i == Num(0) || InRange(i, n) || (n == 0 && i.NaN?)
  }

  /** Every key keeps the index acceptable; on a non-empty list it always names a row afterwards if it did before. */
  lemma KeyDownKeepsIndexOk<T>(items: seq<T>, selected: Index, key: string)
    requires IndexOk(selected, |items|)
    ensures IndexOk(KeyDown(items, selected, key).selected, |items|)
    ensures |items| > 0 ==> InRange(KeyDown(items, selected, key).selected, |items|)
  {
  }

  /** Enter on an empty list, or after the index became NaN, calls nothing. */
  lemma EnterOnEmptyCallsNothing<T>(items: seq<T>, selected: Index)
    requires |items| == 0 || selected.NaN?
    ensures KeyDown(items, selected, ENTER) == KeyResult(true, selected, None)
  {
  }

  /**
   * One mounted menu (`MentionList`, and equally `SlashCommandsList`).
   * `commands` records, oldest first, every item handed to the `command`
   * callback, which is the menu's only effect on the outside.
   */
  class MentionList<T> {
    var items: seq<T>
    var selectedIndex: Index
    var commands: seq<T>

    ghost predicate Valid()
      reads this
    {
      IndexOk(selectedIndex, |items|)
    }

    /** First render: `useState(0)`. */
    constructor (items: seq<T>)
      ensures Valid()
      ensures this.items == items && selectedIndex == Num(0) && commands == []
    {
      this.items := items;
      selectedIndex := Num(0);
      commands := [];
    }

    /** A re-render with a new `items` array; the `useEffect` on `[props.items]` resets the index. */
    method SetItems(newItems: seq<T>)
      modifies this
      ensures Valid()
      ensures items == newItems && selectedIndex == Num(0) && commands == old(commands)
    {
      items := newItems;
      selectedIndex := Num(0);
    }

    /** `selectItem(index)`: call `command` with the item at `index`, if there is one. */
    method SelectItemAt(index: Index)
      modifies this`commands
      ensures commands == old(commands) + ToSeq(SelectItem(items, index))
    {
      if InRange(index, |items|) {
        commands := commands + [items[index.value]];
      }
    }

    method UpHandler()
      requires Valid()
      modifies this`selectedIndex
      ensures Valid()
      ensures selectedIndex == Up(old(selectedIndex), |items|)
    {
      selectedIndex := Up(selectedIndex, |items|);
    }

    method DownHandler()
      requires Valid()
      modifies this`selectedIndex
      ensures Valid()
      ensures selectedIndex == Down(old(selectedIndex), |items|)
    {
      selectedIndex := Down(selectedIndex, |items|);
    }

    method EnterHandler()
      modifies this`commands
      ensures commands == old(commands) + ToSeq(SelectItem(items, selectedIndex))
    {
      SelectItemAt(selectedIndex);
    }

    /** The imperative handle's `onKeyDown`: true for ArrowUp, ArrowDown and Enter, false for every other key. */
    method OnKeyDown(key: string) returns (handled: bool)
      requires Valid()
      modifies this
      ensures Valid() && items == old(items)
      ensures handled == KeyDown(old(items), old(selectedIndex), key).handled
      ensures selectedIndex == KeyDown(old(items), old(selectedIndex), key).selected
      ensures commands == old(commands) + ToSeq(KeyDown(old(items), old(selectedIndex), key).command)
    {
      if key == ARROW_UP {
        UpHandler();
        return true;
      }
      if key == ARROW_DOWN {
        DownHandler();
        return true;
      }
      if key == ENTER {
        EnterHandler();
        return true;
      }
      return false;
    }

    /** Clicking a rendered row calls `selectItem` with that row; the highlighted index does not move. */
    method ClickRow(index: nat)
      requires index < |items|
      modifies this`commands
      ensures commands == old(commands) + [items[index]]
    {
      SelectItemAt(Num(index));
    }
  }
}
