/** The few `java.lang.String` operations the launcher-profile logic relies on,
    over strings as sequences of characters (`seq<char>`, Unicode scalar values). */
module JavaStrings {

  /** `s.startsWith(prefix)`: compares the characters of `prefix` one by one
      against the start of `s`; a `prefix` longer than `s` never matches. */
  function StartsWith(s: string, prefix: string): (b: bool)
    ensures b <==> prefix <= s
    decreases |prefix|
  {
    if |prefix| == 0 then true
    else if |s| == 0 then false
    else s[0] == prefix[0] && StartsWith(s[1..], prefix[1..])
  }

  /** `s.endsWith(suffix)`, which Java defines as
      `s.startsWith(suffix, s.length() - suffix.length())`. */
  function EndsWith(s: string, suffix: string): (b: bool)
    ensures b <==> |suffix| <= |s| && s[|s| - |suffix|..] == suffix
  {
    |suffix| <= |s| && StartsWith(s[|s| - |suffix|..], suffix)
  }

  /** `t` occurs somewhere inside `s` as a contiguous block. */
  ghost predicate Contains(s: string, t: string) {
    exists i | 0 <= i <= |s| :: t <= s[i..]
  }

  /** A string ends with whatever was appended to it last. */
  lemma EndsWithConcat(a: string, b: string)
    ensures EndsWith(a + b, b)
  {
  }

  /** A string contains every block it was concatenated from. */
  lemma ContainsInfix(a: string, t: string, b: string)
    ensures Contains(a + t + b, t)
  {
    var s := a + t + b;
    assert s[|a|..] == t + b;
  }
}
