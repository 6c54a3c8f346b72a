/**
 * Kotlin strings are sequences of UTF-16 code units, while a Dafny `string`
 * is a sequence of Unicode scalar values. `String.length` counts code units:
 * a character outside the Basic Multilingual Plane takes two of them.
 */
module KotlinStrings {

  /** The number of UTF-16 code units one character takes. */
  function Utf16Units(c: char): (n: nat)
    ensures n == 1 <==> (c as int) < 0x1_0000
    ensures n == 2 <==> (c as int) >= 0x1_0000
  {
    if (c as int) < 0x1_0000 then 1 else 2
  }

  /** Kotlin's `String.length`: the number of UTF-16 code units of `s`. */
  function Utf16Length(s: string): (n: nat)
    ensures |s| <= n <= 2 * |s|
    decreases |s|
  {
    if |s| == 0 then 0 else Utf16Units(s[0]) + Utf16Length(s[1..])
  }

  /** The length of a concatenation is the sum of the lengths. */
  lemma {:induction false} Utf16LengthAppend(a: string, b: string)
    ensures Utf16Length(a + b) == Utf16Length(a) + Utf16Length(b)
    decreases |a|
  {
    if |a| == 0 {
      assert a + b == b;
    } else {
      assert (a + b)[0] == a[0];
      assert (a + b)[1..] == a[1..] + b;
      Utf16LengthAppend(a[1..], b);
    }
  }

  /** Only characters outside the Basic Multilingual Plane make the two counts differ. */
  lemma {:induction false} Utf16LengthOfBmp(s: string)
    ensures Utf16Length(s) == |s| <==> forall i :: 0 <= i < |s| ==> (s[i] as int) < 0x1_0000
    decreases |s|
  {
    if |s| > 0 {
      Utf16LengthOfBmp(s[1..]);
      assert forall i :: 1 <= i < |s| ==> s[i] == s[1..][i - 1];
    }
  }
}
