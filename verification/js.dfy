/** The few JavaScript notions the element's logic depends on, as plain data. */
module Js {

  /** A property that is either `undefined`/`null` (None) or holds a value. */
  datatype Option<+T> = None | Some(value: T)

  /** An exception the element raises. */
  datatype JsError =
    | TypeError(reason: string)  // a property read on `undefined`, or `new undefined()`
    | Error(message: string)     // an explicit `throw new Error(message)`

  /** `s.endsWith(suffix)` for strings. */
  predicate EndsWith(s: string, suffix: string) {
    |suffix| <= |s| && s[|s| - |suffix|..] == suffix
  }

  /** A string that ends with a non-empty suffix ends with its last character. */
  lemma EndsWithLast(s: string, suffix: string)
    requires EndsWith(s, suffix) && |suffix| > 0
    ensures s[|s| - 1] == suffix[|suffix| - 1]
  {
    assert s[|s| - |suffix|..][|suffix| - 1] == s[|s| - 1];
  }

  /** Appending a suffix makes the string end with it. */
  lemma EndsWithAppend(p: string, suffix: string)
    ensures EndsWith(p + suffix, suffix)
  {
    assert (p + suffix)[|p|..] == suffix;
  }

  /** Whether `s` ends with `suffix` is decided by the last `n >= |suffix|` characters. */
  lemma EndsWithTail(s: string, n: nat, suffix: string)
    requires |suffix| <= n <= |s|
    ensures EndsWith(s, suffix) <==> EndsWith(s[|s| - n..], suffix)
  {
    var t := s[|s| - n..];
    assert t[|t| - |suffix|..] == s[|s| - |suffix|..];
  }
}
