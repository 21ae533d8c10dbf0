/** JavaScript string idioms the application relies on: the `||` fallback on
    strings (the empty string is falsy) and `x || ''` on nullable strings. */
module JsText {
  import opened Wrappers

  /** `a || b` for two strings: `a` unless it is empty. */
  function Or(a: string, b: string): (r: string)
    ensures r == a || r == b
    ensures r == [] ==> a == [] && b == []
  {
    if a != [] then a else b
  }

  /** `a || b` where `a` may be `null`/`undefined`. */
  function OrNull(a: Option<string>, b: string): (r: string)
    ensures r == b || (a.Some? && r == a.value && r != [])
  {
    match a
    case Some(s) => Or(s, b)
    case None => b
  }

  /** `x || ''`: a nullable string as a plain string, never absent. */
  function OrEmpty(a: Option<string>): (r: string)
    ensures a.Some? ==> r == a.value
    ensures a.None? ==> r == []
  {
    OrNull(a, "")
  }

  /** The characters `/[0-9]/` matches. */
  predicate IsDigit(c: char) {
    '0' <= c <= '9'
  }

  predicate AllDigits(s: string) {
    forall i :: 0 <= i < |s| ==> IsDigit(s[i])
  }

  /** `s.indexOf(c)`, with `None` for -1: the position of the first `c`. */
  function IndexOf(s: string, c: char): (k: Option<nat>)
    ensures k.Some? ==> k.value < |s| && s[k.value] == c && c !in s[..k.value]
    ensures k.None? ==> c !in s
  {
    if s == [] then None
    else if s[0] == c then Some(0)
    else match IndexOf(s[1..], c)
      case None => None
      case Some(k) =>
        assert s[..k + 1] == [s[0]] + s[1..][..k];
        Some(k + 1)
  }

  /** The first `c` in `a + [c] + b` is the one after `a` when `a` has none. */
  lemma IndexOfAfter(a: string, c: char, b: string)
    requires c !in a
    ensures IndexOf(a + [c] + b, c) == Some(|a|)
  {
    var s := a + [c] + b;
    assert s[|a|] == c;
    assert s[..|a|] == a;
  }
}
