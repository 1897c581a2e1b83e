/**
 The two string utilities the program relies on: Go's `strings.ReplaceAll`
 with a one-character pattern and replacement, and the splitting of a string
 into a known prefix, a middle and a known suffix that reads a formatted
 string back.
 */
module Strings {
  import opened Wrappers

  /**
   `strings.ReplaceAll(s, from, to)` for one-character `from` and `to`: every
   `from` becomes `to`, every other character stays where it was.
   */
  function ReplaceChar(s: string, from: char, to: char): string
  {
    seq(|s|, i requires 0 <= i < |s| => if s[i] == from then to else s[i])
  }

  /** After the replacement no `from` is left. */
  lemma ReplaceCharRemoves(s: string, from: char, to: char)
    requires from != to
    ensures from !in ReplaceChar(s, from, to)
  {
  }

  /** Replacing `from` by `to` is undone by replacing `to` by `from` when `to` did not occur. */
  lemma ReplaceCharInverse(s: string, from: char, to: char)
    requires to !in s
    ensures ReplaceChar(ReplaceChar(s, from, to), to, from) == s
  {
    var r := ReplaceChar(ReplaceChar(s, from, to), to, from);
    assert forall i :: 0 <= i < |s| ==> r[i] == s[i];
  }

  /** The three parts of a concatenation are found again by slicing. */
  lemma SliceParts(a: string, b: string, c: string)
    ensures (a + b + c)[..|a|] == a
    ensures (a + b + c)[|a|..|a| + |b|] == b
  {
  }

  /** The middle of `s` between `prefix` and `suffix`, if `s` has that shape. */
  function Between(s: string, prefix: string, suffix: string): (m: Option<string>)
    ensures m.Some? ==> s == prefix + m.value + suffix
  {
    if |prefix| + |suffix| <= |s| && s[..|prefix|] == prefix && s[|s| - |suffix|..] == suffix
    then Some(s[|prefix|..|s| - |suffix|])
    else None
  }

  lemma BetweenRoundTrip(prefix: string, middle: string, suffix: string)
    ensures Between(prefix + middle + suffix, prefix, suffix) == Some(middle)
  {
    var s := prefix + middle + suffix;
    assert s[..|prefix|] == prefix;
    assert s[|s| - |suffix|..] == suffix;
    assert s[|prefix|..|s| - |suffix|] == middle;
  }
}
