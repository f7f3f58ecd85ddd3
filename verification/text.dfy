/**
 * Ordinal string comparisons of .NET (`StringComparison.Ordinal` and
 * `StringComparison.OrdinalIgnoreCase`), with case folding restricted to ASCII letters.
 */
module Text {

  /** Folds an ASCII upper-case letter to lower case; every other character is kept. */
  function Lower(c: char): char {
    if 'A' <= c <= 'Z' then (c as int + 32) as char else c
  }

  function Fold(s: string): string {
    seq(|s|, i requires 0 <= i < |s| => Lower(s[i]))
  }

  /** `string.Equals(a, b, StringComparison.OrdinalIgnoreCase)` for non-null a and b. */
  predicate EqualsIgnoreCase(a: string, b: string) {
    Fold(a) == Fold(b)
  }

  /** `s.EndsWith(suffix, StringComparison.OrdinalIgnoreCase)`. */
  predicate EndsWithIgnoreCase(s: string, suffix: string) {
    |suffix| <= |s| && EqualsIgnoreCase(s[|s| - |suffix|..], suffix)
  }
}
