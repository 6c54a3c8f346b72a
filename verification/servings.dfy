/**
 * The servings selector: a minus button, a chip that opens the change dialog
 * and a plus button around a 32-bit `Int` value. The buttons go through a
 * guard that drops values below 1; the dialog's choice does not.
 */
module Servings {
  import opened Options

  const IntMin: int := -0x8000_0000
  const IntMax: int := 0x7fff_ffff

  /** Kotlin's `Int`. */
  type Int32 = x: int | -0x8000_0000 <= x <= 0x7fff_ffff

  /** Two's-complement wrap-around of an exact result into `Int`. */
  function Wrap(x: int): (r: Int32)
    ensures IntMin <= x <= IntMax ==> r == x
    ensures (r - x) % 0x1_0000_0000 == 0
  {
    (x - IntMin) % 0x1_0000_0000 + IntMin
  }

  /** `valueChange`: the value reaches `onChange` only when it is at least 1. */
  function ValueChange(v: Int32): (emitted: Option<Int32>)
    ensures emitted.Some? <==> v >= 1
    ensures emitted.Some? ==> emitted.value == v
  {
    if v < 1 then None else Some(v)
  }

  /** The minus button: `valueChange(value - 1)` with Kotlin's wrapping subtraction. */
  function MinusClicked(value: Int32): (emitted: Option<Int32>)
    ensures value > IntMin ==> (emitted.Some? <==> value >= 2)
    ensures value >= 2 ==> emitted == Some(value - 1)
    ensures value == IntMin ==> emitted == Some(IntMax)
  {
    ValueChange(Wrap(value - 1))
  }

  /** The plus button: `valueChange(value + 1)` with Kotlin's wrapping addition. */
  function PlusClicked(value: Int32): (emitted: Option<Int32>)
    ensures value < IntMax ==> (emitted.Some? <==> value >= 0)
    ensures 0 <= value < IntMax ==> emitted == Some(value + 1)
    ensures value == IntMax ==> emitted.None?
  {
    ValueChange(Wrap(value + 1))
  }

  /** A value chosen in the change dialog goes to `onChange` as it is. */
  function DialogChosen(v: Int32): (emitted: Option<Int32>)
    ensures emitted.Some? && emitted.value == v
  {
    Some(v)
  }

  /** The change dialog's state as far as the selector drives it. */
  datatype ChangeDialog = ChangeDialog(shown: bool, seed: int)

  /** The chip opens the change dialog seeded with the value on display. */
  function ChipClicked(value: Int32): (d: ChangeDialog)
    ensures d.shown && d.seed == value
  {
    ChangeDialog(true, value)
  }

  /**
   * The chip and the dialog together: confirming the dialog with the seed the
   * chip put there hands the value on display back unchanged, even one the
   * buttons' guard would drop.
   */
  lemma ChipThenConfirmKeepsValue(value: Int32)
    ensures ChipClicked(value).shown
    ensures DialogChosen(ChipClicked(value).seed as Int32) == Some(value)
  {
  }

  /** Whatever the value on display, the two buttons never emit a value below 1. */
  lemma ButtonsEmitAtLeastOne(value: Int32)
    ensures MinusClicked(value).Some? ==> MinusClicked(value).value >= 1
    ensures PlusClicked(value).Some? ==> PlusClicked(value).value >= 1
  {
  }

  /** The dialog path skips the guard: it forwards values the buttons' guard would drop. */
  lemma DialogBypassesGuard(v: Int32)
    ensures ValueChange(v).Some? ==> ValueChange(v) == DialogChosen(v)
    ensures v < 1 ==> ValueChange(v).None? && DialogChosen(v) == Some(v)
  {
  }

  /**
   * Pressing minus `n` times, with the parent feeding every emitted value back
   * in. From a value of at least 1 it ends at `value - n`, but never below 1.
   * From a value below 1 (one the dialog let through) the guard drops every
   * press, except at `IntMin`, where the wrapping subtraction jumps to
   * `IntMax` and the presses then count down from there.
   */
  method PressMinus(value: Int32, n: nat) returns (v: Int32)
    ensures value >= 1 ==> v == if value - n >= 1 then value - n else 1
    ensures IntMin < value < 1 ==> v == value
    ensures value == IntMin ==>
      v == if n == 0 then IntMin else if IntMax - (n - 1) >= 1 then IntMax - (n - 1) else 1
  {
    v := value;
    var i := 0;
    while i < n
      invariant 0 <= i <= n
      invariant value >= 1 ==> v == if value - i >= 1 then value - i else 1
      invariant IntMin < value < 1 ==> v == value
      invariant value == IntMin ==>
        v == if i == 0 then IntMin else if IntMax - (i - 1) >= 1 then IntMax - (i - 1) else 1
    {
      var emitted := MinusClicked(v);
      if emitted.Some? {
        v := emitted.value;
      }
      i := i + 1;
    }
  }

  /**
   * Pressing plus `n` times, with the parent feeding every emitted value back
   * in. From a value of at least 0 it ends at `value + n`, but the wrap-around
   * at the top of `Int` makes the guard stop it at `IntMax`. From a negative
   * value (one the dialog let through) the guard drops every press.
   */
  method PressPlus(value: Int32, n: nat) returns (v: Int32)
    ensures value >= 0 ==> v == if value + n <= IntMax then value + n else IntMax
    ensures value < 0 ==> v == value
  {
    v := value;
    var i := 0;
    while i < n
      invariant 0 <= i <= n
      invariant value >= 0 ==> v == if value + i <= IntMax then value + i else IntMax
      invariant value < 0 ==> v == value
    {
      var emitted := PlusClicked(v);
      if emitted.Some? {
        v := emitted.value;
      }
      i := i + 1;
    }
  }

  /** Kotlin's `Char.isWhitespace()` on the JVM: Unicode space separators plus the ASCII controls it names. */
  predicate IsWhitespace(c: char) {
    || c == ' ' || c == '\t' || c == '\n' || c == '\r'
    || c == '\U{000B}' || c == '\U{000C}'
    || '\U{001C}' <= c <= '\U{001F}'
    || c == '\U{00A0}' || c == '\U{1680}'
    || '\U{2000}' <= c <= '\U{200A}'
    || c == '\U{2028}' || c == '\U{2029}' || c == '\U{202F}' || c == '\U{205F}' || c == '\U{3000}'
  }

  /** `String.isBlank()`: empty or whitespace only. */
  predicate IsBlank(s: string) {
    forall i :: 0 <= i < |s| ==> IsWhitespace(s[i])
  }

  /**
   * The unit shown after the value: the caller's label (`caption`), unless it is blank,
   * in which case the plural resource for the value (`plural`, a parameter
   * standing for the resource lookup).
   */
  function PortionText(caption: string, value: Int32, plural: Int32 -> string): (text: string)
    ensures IsBlank(caption) ==> text == plural(value)
    ensures !IsBlank(caption) ==> text == caption
  {
    if IsBlank(caption) then plural(value) else caption
  }

  /**
   * For every caption: a caption that is not blank is shown whatever the
   * value and the plural resource; a blank one always yields the resource's
   * text for the value, whatever blank text it is.
   */
  lemma PortionTextDependsOnCaption(caption: string, blank: string, v1: Int32, v2: Int32, p1: Int32 -> string, p2: Int32 -> string)
    requires IsBlank(blank)
    ensures !IsBlank(caption) ==> PortionText(caption, v1, p1) == PortionText(caption, v2, p2) == caption
    ensures IsBlank(caption) ==> PortionText(caption, v1, p1) == PortionText(blank, v1, p1) == p1(v1)
  {
  }

  /** An empty or all-space caption falls back to the plural resource; one with a visible character never does. */
  lemma PortionTextFallback(value: Int32, plural: Int32 -> string, caption: string)
    ensures PortionText("", value, plural) == plural(value)
    ensures PortionText(" \t", value, plural) == plural(value)
    ensures (exists i :: 0 <= i < |caption| && !IsWhitespace(caption[i])) ==> PortionText(caption, value, plural) == caption
  {
  }
}
