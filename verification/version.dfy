/** The patch bump both release scripts perform on a dotted version string:
    split on '.', turn the first three parts into numbers, add one to the
    third, and print the three back with dots. JavaScript's conversions are
    written out: a part that is missing is `undefined`, a part that is not a
    number is `NaN`, and adding one to either gives `NaN`. */
module Version {
  import opened Wrappers
  import opened JsText
  import opened Decimal

  /** `s.split('.')`: the pieces between dots, in order; never empty. */
  function Split(s: string): (parts: seq<string>)
    ensures |parts| >= 1
    ensures forall i :: 0 <= i < |parts| ==> '.' !in parts[i]
    decreases |s|
  {
    match IndexOf(s, '.')
    case None => [s]
    case Some(k) => [s[..k]] + Split(s[k + 1..])
  }

  /** Joining two dot-free pieces and splitting again gives the pieces. */
  lemma SplitAfter(a: string, b: string)
    requires '.' !in a
    ensures Split(a + "." + b) == [a] + Split(b)
  {
    IndexOfAfter(a, '.', b);
    var s := a + "." + b;
    assert s[..|a|] == a && s[|a| + 1..] == b;
  }

  lemma SplitWhole(a: string)
    requires '.' !in a
    ensures Split(a) == [a]
  {
  }

  /** A JavaScript value produced by `Number(part)` and by `+ 1`. */
  datatype Part = Num(n: int) | NaN | Undefined

  /** A sign followed by at least one digit and nothing else. */
  predicate SignedDigits(part: string) {
    |part| >= 2 && (part[0] == '-' || part[0] == '+') && AllDigits(part[1..])
  }

  /** `Number(part)` on the text between dots: plain decimal digits (the
      empty text as 0), optionally after one sign, are read as an integer;
      anything else is `NaN`. */
  function NumberOf(part: string): (p: Part)
    ensures p.Num? <==> AllDigits(part) || SignedDigits(part)
    ensures AllDigits(part) ==> p == Num(Value(part))
    ensures !p.Undefined?
  {
    if AllDigits(part) then Num(Value(part))
    else if SignedDigits(part) then
      if part[0] == '-' then Num(-(Value(part[1..]) as int)) else Num(Value(part[1..]))
    else NaN
  }

  /** The i-th destructured element of `parts.map(Number)`. */
  function PartAt(parts: seq<string>, i: nat): (p: Part)
    ensures i >= |parts| <==> p.Undefined?
  {
    if i < |parts| then NumberOf(parts[i]) else Undefined
  }

  /** `patch + 1`. */
  function Succ(p: Part): (q: Part)
    ensures p.Num? <==> q.Num?
    ensures q.Num? ==> q.n == p.n + 1
  {
    match p
    case Num(n) => Num(n + 1)
    case _ => NaN
  }

  /** `${p}` in a template literal. */
  function ShowPart(p: Part): (s: string)
    ensures '.' !in s
    ensures p.Num? && p.n >= 0 ==> s == Show(p.n)
  {
    match p
    case Num(n) =>
      NoDotInShow(if n >= 0 then n else -n);
      if n >= 0 then Show(n) else "-" + Show(-n)
    case NaN => "NaN"
    case Undefined => "undefined"
  }

  /** Printing a number and reading it back gives the number, whatever its
      sign, so a part survives any number of bumps as a number. */
  lemma NumberOfShowPart(n: int)
    ensures NumberOf(ShowPart(Num(n))) == Num(n)
  {
    if n >= 0 {
      ValueOfShow(n);
    } else {
      var s := ShowPart(Num(n));
      assert s[0] == '-' && !IsDigit('-');
      assert s[1..] == Show(-n);
      ValueOfShow(-n);
    }
  }

  /** A well-formed version, "M.m.p" with each number in plain decimal. */
  function Format(major: nat, minor: nat, patch: nat): (s: string)
    ensures s != []
  {
    Show(major) + "." + Show(minor) + "." + Show(patch)
  }

  /** The three numbers the scripts read out of a version string. */
  function Parts(version: string): (Part, Part, Part) {
    var parts := Split(version);
    (PartAt(parts, 0), PartAt(parts, 1), PartAt(parts, 2))
  }

  function Bump(version: string): (next: string)
    ensures next != []
  {
    var parts := Parts(version);
    ShowPart(parts.0) + "." + ShowPart(parts.1) + "." + ShowPart(Succ(parts.2))
  }

  lemma NoDotInShow(n: nat)
    ensures '.' !in Show(n)
  {
    assert !IsDigit('.');
  }

  /** A formatted version splits into its three numbers. */
  lemma SplitFormat(major: nat, minor: nat, patch: nat)
    ensures Split(Format(major, minor, patch)) == [Show(major), Show(minor), Show(patch)]
  {
    var a, b, c := Show(major), Show(minor), Show(patch);
    assert Format(major, minor, patch) == a + "." + (b + "." + c);
    assert Split(b + "." + c) == [b, c] by {
      NoDotInShow(minor);
      NoDotInShow(patch);
      SplitAfter(b, c);
      SplitWhole(c);
    }
    assert Split(a + "." + (b + "." + c)) == [a] + Split(b + "." + c) by {
      NoDotInShow(major);
      SplitAfter(a, b + "." + c);
    }
  }

  /** Reading a formatted version gives back its three numbers. */
  lemma PartsOfFormat(major: nat, minor: nat, patch: nat)
    ensures Parts(Format(major, minor, patch)) == (Num(major), Num(minor), Num(patch))
  {
    SplitFormat(major, minor, patch);
    ValueOfShow(major);
    ValueOfShow(minor);
    ValueOfShow(patch);
  }

  /** "M.m.p" becomes "M.m.(p+1)": major and minor untouched, patch plus one. */
  lemma BumpFormat(major: nat, minor: nat, patch: nat)
    ensures Bump(Format(major, minor, patch)) == Format(major, minor, patch + 1)
    ensures Parts(Bump(Format(major, minor, patch))) == (Num(major), Num(minor), Num(patch + 1))
  {
    PartsOfFormat(major, minor, patch);
    PartsOfFormat(major, minor, patch + 1);
  }

  /** A bumped version never equals the one it came from. */
  lemma BumpChanges(major: nat, minor: nat, patch: nat)
    ensures Bump(Format(major, minor, patch)) != Format(major, minor, patch)
  {
    BumpFormat(major, minor, patch);
    PartsOfFormat(major, minor, patch);
  }

  function BumpTimes(version: string, k: nat): string
    decreases k
  {
    if k == 0 then version else BumpTimes(Bump(version), k - 1)
  }

  lemma BumpTimesShift(v: string, w: string, k: nat, u: string)
    requires k > 0 && Bump(v) == w && BumpTimes(w, k - 1) == u
    ensures BumpTimes(v, k) == u
  {
  }

  /** Bumping k times adds k to the patch number and nothing else. */
  lemma BumpTimesFormat(major: nat, minor: nat, patch: nat, k: nat)
    ensures BumpTimes(Format(major, minor, patch), k) == Format(major, minor, patch + k)
  {
    BumpTimesReaches(major, minor, patch, k, patch + k);
  }

  lemma {:induction false} BumpTimesReaches(major: nat, minor: nat, patch: nat, k: nat, last: nat)
    requires last == patch + k
    ensures BumpTimes(Format(major, minor, patch), k) == Format(major, minor, last)
    decreases k
  {
    if k > 0 {
      BumpFormat(major, minor, patch);
      BumpTimesReaches(major, minor, patch + 1, k - 1, last);
      BumpTimesShift(Format(major, minor, patch), Format(major, minor, patch + 1), k, Format(major, minor, last));
    }
  }

  /** A version with fewer than three parts prints `NaN` for the patch. */
  lemma ShortVersionGivesNaN(major: nat, minor: nat)
    ensures Bump(Show(major) + "." + Show(minor)) == Show(major) + "." + Show(minor) + "." + "NaN"
  {
    var v := Show(major) + "." + Show(minor);
    assert Split(v) == [Show(major), Show(minor)] by {
      NoDotInShow(major);
      NoDotInShow(minor);
      SplitAfter(Show(major), Show(minor));
      SplitWhole(Show(minor));
    }
    assert Parts(v) == (Num(major), Num(minor), Undefined) by {
      ValueOfShow(major);
      ValueOfShow(minor);
    }
  }
}
