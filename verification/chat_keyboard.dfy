/**
 * The on-screen keyboard under the composer (src/components/ChatKeyboard.tsx).
 * The key lit last is component state: an effect sets it from the typed
 * text and a 150 ms timer clears it, so it is a class with a virtual clock.
 * What the keyboard draws from that state is a pure function.
 */
module ChatKeyboard {
  import opened ChatTypes
  import Strings

  const Shift: char := '\U{21E7}'
  const Backspace: char := '\U{232B}'

  /** `ROWS`: the three rows of the letter grid. */
  const Rows: seq<string> := ["qwertyuiop", "asdfghjkl", [Shift] + "zxcvbnm" + [Backspace]]

  /** The grid's keys row after row. */
  const Keys: string := Rows[0] + Rows[1] + Rows[2]

  /** How long a key stays lit, in milliseconds. */
  const LitMs: real := 150.0

  /**
   * What the effect (lines 19-29) sets: nothing while inactive or before
   * anything is typed, else the last typed character lower-cased.
   */
  function ActiveKeyFor(currentText: string, isActive: bool): (r: Option<char>)
    ensures r.None? <==> !isActive || currentText == []
    ensures r.Some? ==> r.value == Strings.Lower(currentText[|currentText| - 1])
  {
    if !isActive || currentText == [] then None
    else Some(Strings.Lower(currentText[|currentText| - 1]))
  }

  /**
   * The component's `activeKey` state with the pending clear timer. The
   * clock is virtual: `Elapse` lets time pass and fires the timer when it
   * is due.
   */
  class Keyboard {
    var activeKey: Option<char>
    /** When the pending `setTimeout(() => setActiveKey(null), 150)` fires, if one is pending. */
    var clearAt: Option<real>
    var now: real

    /** A key is lit exactly while a clear is pending, and that clear is due within 150 ms. */
    predicate Valid()
      reads this
    {
      (activeKey.Some? <==> clearAt.Some?)
      && (clearAt.Some? ==> now < clearAt.value <= now + LitMs)
    }

    constructor()
      ensures Valid() && activeKey == None && clearAt == None && now == 0.0
    {
      activeKey := None;
      clearAt := None;
      now := 0.0;
    }

    /**
     * `currentText` or `isActive` changed: the previous run's cleanup
     * cancels its timer, then the effect sets the key and, when one is lit,
     * schedules its clear 150 ms from now.
     */
    method Change(currentText: string, isActive: bool)
      modifies this
      ensures Valid()
      ensures activeKey == ActiveKeyFor(currentText, isActive) && now == old(now)
      ensures clearAt == if activeKey.Some? then Some(now + LitMs) else None
    {
      clearAt := None;
      if !isActive || currentText == [] {
        activeKey := None;
        return;
      }
      activeKey := Some(Strings.Lower(currentText[|currentText| - 1]));
      clearAt := Some(now + LitMs);
    }

    /** `ms` milliseconds pass; a pending clear that falls due turns the key off. */
    method Elapse(ms: real)
      requires Valid() && ms >= 0.0
      modifies this
      ensures Valid() && now == old(now) + ms
      ensures old(clearAt).Some? && old(clearAt).value <= now ==> activeKey == None && clearAt == None
      ensures !(old(clearAt).Some? && old(clearAt).value <= now) ==>
        activeKey == old(activeKey) && clearAt == old(clearAt)
    {
      now := now + ms;
      if clearAt.Some? && clearAt.value <= now {
        activeKey := None;
        clearAt := None;
      }
    }
  }

  // ---------------------------------------------------------------------
  // What the keyboard draws
  // ---------------------------------------------------------------------

  /** A key of the grid: its label, whether it is the wide kind, whether it is lit. */
  datatype Key = Key(face: char, wide: bool, pressed: bool)

  /** The letter grid and the lit state of comma, space bar and period. */
  datatype Look = Look(grid: seq<seq<Key>>, comma: bool, space: bool, period: bool)

  /** A grid key (lines 38-48). */
  function KeyOf(k: char, activeKey: Option<char>): Key {
    Key(k, k == Shift || k == Backspace, activeKey == Some(Strings.Lower(k)))
  }

  function GridOf(activeKey: Option<char>): (g: seq<seq<Key>>)
    ensures |g| == |Rows|
    ensures forall r :: 0 <= r < |Rows| ==> |g[r]| == |Rows[r]|
  {
    seq(|Rows|, r requires 0 <= r < |Rows| =>
      seq(|Rows[r]|, j requires 0 <= j < |Rows[r]| => KeyOf(Rows[r][j], activeKey)))
  }

  /** `if (!isActive) return null`, else the grid and the bottom row (lines 31-75). */
  function Render(isActive: bool, activeKey: Option<char>): Option<Look> {
    if !isActive then None
    else Some(Look(GridOf(activeKey), activeKey == Some(','), activeKey == Some(' '), activeKey == Some('.')))
  }

  /** No two grid keys carry the same label. */
  lemma KeysDistinct()
    ensures forall i, j :: 0 <= i < j < |Keys| ==> Keys[i] != Keys[j]
  {
  }

  /** Where row `r`'s key `j` sits in `Keys`. */
  function Flat(r: nat, j: nat): nat
    requires r < |Rows| && j < |Rows[r]|
  {
    (if r == 0 then 0 else if r == 1 then |Rows[0]| else |Rows[0]| + |Rows[1]|) + j
  }

  lemma FlatIndex(r: nat, j: nat)
    requires r < |Rows| && j < |Rows[r]|
    ensures Flat(r, j) < |Keys| && Keys[Flat(r, j)] == Rows[r][j]
  {
  }

  /**
   * The keyboard shows nothing when inactive. Otherwise the grid shows the
   * rows' labels; a key is lit exactly when the active key is its label
   * lower-cased, and only ⇧ and ⌫ are wide; comma, period and the space bar
   * light exactly for their own character.
   */
  lemma RenderRule(isActive: bool, activeKey: Option<char>, r: nat, j: nat)
    requires r < |Rows| && j < |Rows[r]|
    ensures Render(isActive, activeKey).None? <==> !isActive
    ensures isActive ==> var look := Render(isActive, activeKey).value;
      && look.grid[r][j].face == Rows[r][j]
      && (look.grid[r][j].pressed <==> activeKey == Some(Rows[r][j]))
      && (look.grid[r][j].wide <==> Rows[r][j] in {Shift, Backspace})
      && (look.comma <==> activeKey == Some(','))
      && (look.period <==> activeKey == Some('.'))
      && (look.space <==> activeKey == Some(' '))
  {
    FlatIndex(r, j);
    assert Strings.Lower(Rows[r][j]) == Rows[r][j];
  }

  /**
   * At most one key is lit: two lit grid keys are the same key, and a lit
   * grid key leaves comma, period and space bar dark.
   */
  lemma AtMostOneLit(activeKey: Option<char>, r1: nat, j1: nat, r2: nat, j2: nat)
    requires r1 < |Rows| && j1 < |Rows[r1]| && r2 < |Rows| && j2 < |Rows[r2]|
    requires GridOf(activeKey)[r1][j1].pressed && GridOf(activeKey)[r2][j2].pressed
    ensures r1 == r2 && j1 == j2
    ensures activeKey != Some(',') && activeKey != Some('.') && activeKey != Some(' ')
  {
    RenderRule(true, activeKey, r1, j1);
    RenderRule(true, activeKey, r2, j2);
    FlatIndex(r1, j1);
    FlatIndex(r2, j2);
    KeysDistinct();
  }

  /** Every letter, in either case, has a key in the grid. */
  lemma LetterHasKey(c: char)
    requires 'a' <= c <= 'z' || 'A' <= c <= 'Z'
    ensures Strings.Lower(c) in Keys
  {
  }

  /**
   * Typing a letter lights exactly its key: after the change, the grid key
   * whose label is the letter lower-cased is lit, and no other.
   */
  lemma TypedLetterLights(currentText: string, r: nat, j: nat)
    requires currentText != []
    requires var c := currentText[|currentText| - 1]; 'a' <= c <= 'z' || 'A' <= c <= 'Z'
    requires r < |Rows| && j < |Rows[r]|
    ensures GridOf(ActiveKeyFor(currentText, true))[r][j].pressed
      <==> Rows[r][j] == Strings.Lower(currentText[|currentText| - 1])
  {
    RenderRule(true, ActiveKeyFor(currentText, true), r, j);
  }
}
