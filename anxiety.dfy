/**
 * BarManager: the anxiety score that an unserved customer raises. C# `int`
 * arithmetic is unchecked, so `anxiety += amount` wraps at 32 bits before the
 * clamp is applied.
 */
module Anxiety {

  /** A C# `int`. */
  type Int32 = x: int | -0x8000_0000 <= x < 0x8000_0000

  /** Two's-complement wrap-around of an exact sum into an `int`. */
  function Wrap32(x: int): (r: Int32)
    ensures -0x8000_0000 <= x < 0x8000_0000 ==> r == x
    ensures (r - x) % 0x1_0000_0000 == 0
  {
    (x + 0x8000_0000) % 0x1_0000_0000 - 0x8000_0000
  }

  /**
   * Unity's `Mathf.Clamp(int value, int min, int max)`: the lower bound is
   * tested first, so when `max < min` a value below `min` comes back as `min`.
   */
  function Clamp(value: Int32, min: Int32, max: Int32): (r: Int32)
    ensures min <= max ==> min <= r <= max
    ensures min <= value <= max ==> r == value
    ensures value < min ==> r == min
    ensures r != value ==> (value < min && r == min) || (value > max && r == max)
  {
    if value < min then min else if value > max then max else value
  }

  /** The anxiety after `AddAnxiety(amount)`. */
  function AfterAdd(anxiety: Int32, amount: Int32, maxAnxiety: Int32): Int32 {
    Clamp(Wrap32(anxiety + amount), 0, maxAnxiety)
  }

  /** With a non-negative maximum, anxiety lands in [0, maxAnxiety] whatever was added. */
  lemma AddStaysInBounds(anxiety: Int32, amount: Int32, maxAnxiety: Int32)
    requires 0 <= maxAnxiety
    ensures 0 <= AfterAdd(anxiety, amount, maxAnxiety) <= maxAnxiety
  {
  }

  /** Without overflow, AddAnxiety is clamp(old + amount, 0, maxAnxiety). */
  lemma AddIsClampedSum(anxiety: Int32, amount: Int32, maxAnxiety: Int32)
    requires -0x8000_0000 <= anxiety + amount < 0x8000_0000
    requires 0 <= maxAnxiety
    ensures AfterAdd(anxiety, amount, maxAnxiety) ==
      if anxiety + amount < 0 then 0
      else if anxiety + amount > maxAnxiety then maxAnxiety
      else anxiety + amount
  {
  }

  /** A negative amount lowers an in-range anxiety, but never below zero. */
  lemma SubtractNeverBelowZero(anxiety: Int32, amount: Int32, maxAnxiety: Int32)
    requires 0 <= anxiety <= maxAnxiety && amount <= 0
    ensures 0 <= AfterAdd(anxiety, amount, maxAnxiety) <= anxiety
  {
  }

  /**
   * The addition is not saturating: a large positive amount on top of a
   * positive anxiety wraps negative and is clamped to 0, not to the maximum.
   */
  lemma LargeAmountWrapsToZero()
    ensures AfterAdd(1, 0x7FFF_FFFF, 100) == 0
  {
    assert Wrap32(1 + 0x7FFF_FFFF) == -0x8000_0000;
  }

  /** The scene's BarManager (reached through `BarManager.Instance`). */
  class BarManager {
    var anxiety: Int32
    const maxAnxiety: Int32

    /** Inspector values; the serialized defaults are 0 and 100. */
    constructor (initial: Int32, maxAnxiety: Int32)
      ensures anxiety == initial && this.maxAnxiety == maxAnxiety
    {
      anxiety := initial;
      this.maxAnxiety := maxAnxiety;
    }

    /** Adds `amount` (which may be negative), then clamps into [0, maxAnxiety]. */
    method AddAnxiety(amount: Int32)
      modifies this
      ensures anxiety == AfterAdd(old(anxiety), amount, maxAnxiety)
      ensures 0 <= maxAnxiety ==> 0 <= anxiety <= maxAnxiety
    {
      var sum := Wrap32(anxiety + amount);
      anxiety := Clamp(sum, 0, maxAnxiety);
      // UIManager.SetAnxiety(anxiety, maxAnxiety) only redraws the bar.
    }

    /** Reads the score; changes nothing. */
    method GetAnxiety() returns (r: Int32)
      ensures r == anxiety
    {
      r := anxiety;
    }

    /** The per-frame developer shortcut: K adds 5. */
    method Update(kPressed: bool)
      modifies this
      ensures anxiety == if kPressed then AfterAdd(old(anxiety), 5, maxAnxiety) else old(anxiety)
    {
      if kPressed {
        AddAnxiety(5);
      }
    }
  }
}
