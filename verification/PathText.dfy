/** Splitting and rendering of `/`-separated byte strings, as Rust's `split('/')` and `rfind('/')` do it. */
module PathText {
  import opened Base

  const SLASH: Byte := 47
  const DOT: Byte := 46

  type Name = Bytes
  type Path = seq<Name>

  /** Rust's `split('/')`: always at least one part, empty parts kept. */
  function Split(s: Bytes): (parts: seq<Bytes>)
    ensures |parts| >= 1
    ensures forall i | 0 <= i < |parts| :: SLASH !in parts[i]
  {
    if s == [] then [[]]
    else if s[0] == SLASH then [[]] + Split(s[1..])
    else
      var rest := Split(s[1..]);
      [[s[0]] + rest[0]] + rest[1..]
  }

  /** Every component preceded by a slash; the root renders as the empty string. */
  function Slashed(cs: Path): (s: Bytes)
    ensures cs == [] <==> s == []
    ensures cs != [] ==> s[0] == SLASH
  {
    if cs == [] then [] else Slashed(cs[..|cs| - 1]) + [SLASH] + cs[|cs| - 1]
  }

  /** A component a canonical path may hold: non-empty and free of slashes. */
  predicate PlainName(c: Name) { c != [] && SLASH !in c }

  predicate PlainPath(cs: Path) { forall i | 0 <= i < |cs| :: PlainName(cs[i]) }

  /** Index of the last slash (Rust's `rfind('/')`). */
  function LastSlash(s: Bytes): (k: Option<nat>)
    ensures k.None? <==> SLASH !in s
    ensures k.Some? ==> k.value < |s| && s[k.value] == SLASH && SLASH !in s[k.value + 1..]
  {
    if s == [] then None
    else if s[|s| - 1] == SLASH then Some(|s| - 1)
    else LastSlash(s[..|s| - 1])
  }

  lemma {:induction false} SplitConcat(a: Bytes, b: Bytes)
    ensures Split(a + [SLASH] + b) == Split(a) + Split(b)
  {
    var whole := a + [SLASH] + b;
    if a == [] {
      assert whole[1..] == b;
    } else {
      assert whole[1..] == a[1..] + [SLASH] + b;
      SplitConcat(a[1..], b);
    }
  }

  lemma {:induction false} SplitPlain(c: Name)
    requires SLASH !in c
    ensures Split(c) == [c]
  {
    if c != [] {
      SplitPlain(c[1..]);
      assert [c[0]] + c[1..] == c;
    }
  }

  /** Rendering a path and splitting it again gives back its components (after the empty leading part). */
  lemma {:induction false} SplitSlashed(cs: Path)
    requires PlainPath(cs)
    ensures Split(Slashed(cs)) == [[]] + cs
    ensures cs != [] ==> Split(Slashed(cs)[1..]) == cs
  {
    if cs != [] {
      var front, last := cs[..|cs| - 1], cs[|cs| - 1];
      SplitSlashed(front);
      SplitConcat(Slashed(front), last);
      SplitPlain(last);
      assert front + [last] == cs;
      assert Slashed(cs) == [] + [SLASH] + Slashed(cs)[1..];
      SplitConcat([], Slashed(cs)[1..]);
      assert ([[]] + Split(Slashed(cs)[1..]))[1..] == ([[]] + cs)[1..];
    }
  }

  /** Cutting at the last slash splits off exactly the last part. */
  lemma {:induction false} SplitAtLastSlash(s: Bytes)
    requires SLASH in s
    ensures var k := LastSlash(s).value;
            Split(s) == Split(s[..k]) + [s[k + 1..]]
  {
    var k := LastSlash(s).value;
    assert s == s[..k] + [SLASH] + s[k + 1..];
    SplitConcat(s[..k], s[k + 1..]);
    SplitPlain(s[k + 1..]);
  }

  lemma {:induction false} SlashedInjective(a: Path, b: Path)
    requires PlainPath(a) && PlainPath(b)
    requires Slashed(a) == Slashed(b)
    ensures a == b
  {
    SplitSlashed(a);
    SplitSlashed(b);
    assert ([[]] + a)[1..] == ([[]] + b)[1..];
  }

  lemma LastSlashIs(s: Bytes, k: nat)
    requires k < |s| && s[k] == SLASH && SLASH !in s[k + 1..]
    ensures LastSlash(s) == Some(k)
  {
  }

  /** The last slash of a rendered path stands before its last component. */
  lemma LastSlashOfSlashed(prefix: Bytes, cs: Path)
    requires PlainPath(cs) && cs != []
    ensures var k := |prefix + Slashed(cs[..|cs| - 1])|;
            var s := prefix + Slashed(cs);
            LastSlash(s) == Some(k) && s[..k] == prefix + Slashed(cs[..|cs| - 1]) && s[k + 1..] == cs[|cs| - 1]
  {
    var front, last := cs[..|cs| - 1], cs[|cs| - 1];
    var head := prefix + Slashed(front);
    assert prefix + Slashed(cs) == head + [SLASH] + last;
    assert PlainName(last);
    LastSlashIs(head + [SLASH] + last, |head|);
  }
}
