/** Splitting a program's argument bytes into words at spaces and tabs. */
module Arguments {
  import opened Base

  predicate IsSeparator(b: Byte) { b == 0x20 || b == 0x09 }

  /** The first place from `i` on that is not a separator. */
  function SkipSeparators(s: Bytes, i: nat): (j: nat)
    requires i <= |s|
    ensures i <= j <= |s| && (j < |s| ==> !IsSeparator(s[j]))
    ensures forall k | i <= k < j :: IsSeparator(s[k])
    decreases |s| - i
  {
    if i < |s| && IsSeparator(s[i]) then SkipSeparators(s, i + 1) else i
  }

  /** The first separator from `i` on. */
  function SkipWord(s: Bytes, i: nat): (j: nat)
    requires i <= |s|
    ensures i <= j <= |s| && (j < |s| ==> IsSeparator(s[j]))
    ensures forall k | i <= k < j :: !IsSeparator(s[k])
    decreases |s| - i
  {
    if i < |s| && !IsSeparator(s[i]) then SkipWord(s, i + 1) else i
  }

  /** The words from place `i` on. */
  function Words(s: Bytes, i: nat): seq<Bytes>
    requires i <= |s|
    decreases |s| - i
  {
    var start := SkipSeparators(s, i);
    if start == |s| then []
    else
      var end := SkipWord(s, start);
      [s[start..end]] + Words(s, end)
  }

  // ----- What the words are, without cursors -----

  function Joined(words: seq<Bytes>): Bytes
  {
    if words == [] then [] else words[0] + Joined(words[1..])
  }

  function NonSeparators(s: Bytes): Bytes
  {
    if s == [] then [] else (if IsSeparator(s[0]) then [] else [s[0]]) + NonSeparators(s[1..])
  }

  lemma {:induction false} NonSeparatorsConcat(s: Bytes, t: Bytes)
    ensures NonSeparators(s + t) == NonSeparators(s) + NonSeparators(t)
  {
    if s == [] {
      assert s + t == t;
    } else {
      assert (s + t)[1..] == s[1..] + t;
      NonSeparatorsConcat(s[1..], t);
    }
  }

  lemma {:induction false} NoneKept(s: Bytes)
    requires forall k | 0 <= k < |s| :: IsSeparator(s[k])
    ensures NonSeparators(s) == []
  {
    if s != [] { NoneKept(s[1..]); }
  }

  lemma {:induction false} AllKept(s: Bytes)
    requires forall k | 0 <= k < |s| :: !IsSeparator(s[k])
    ensures NonSeparators(s) == s
  {
    if s != [] { AllKept(s[1..]); }
  }

  predicate IsWord(w: Bytes) { w != [] && forall k | 0 <= k < |w| :: !IsSeparator(w[k]) }

  lemma JoinedCons(w: Bytes, rest: seq<Bytes>)
    ensures Joined([w] + rest) == w + Joined(rest)
  {
    assert ([w] + rest)[1..] == rest;
  }

  /** The words are non-empty, hold no separator, and together are the bytes without the separators. */
  lemma {:induction false} WordsAre(s: Bytes, i: nat)
    requires i <= |s|
    ensures Joined(Words(s, i)) == NonSeparators(s[i..])
    ensures forall k | 0 <= k < |Words(s, i)| :: IsWord(Words(s, i)[k])
    decreases |s| - i
  {
    var start := SkipSeparators(s, i);
    SeparatorsGone(s, i, start);
    if start < |s| {
      var end := SkipWord(s, start);
      var word, rest := s[start..end], Words(s, end);
      assert Words(s, i) == [word] + rest && IsWord(word);
      WordsAre(s, end);
      hide Words, Joined, NonSeparators;
      JoinedCons(word, rest);
      WordKept(s, start, end);
    }
  }

  lemma SeparatorsGone(s: Bytes, i: nat, start: nat)
    requires i <= start <= |s| && forall k | i <= k < start :: IsSeparator(s[k])
    ensures NonSeparators(s[i..]) == NonSeparators(s[start..])
  {
    assert s[i..] == s[i..start] + s[start..];
    NoneKept(s[i..start]);
    NonSeparatorsConcat(s[i..start], s[start..]);
  }

  lemma WordKept(s: Bytes, start: nat, end: nat)
    requires start <= end <= |s| && forall k | start <= k < end :: !IsSeparator(s[k])
    ensures NonSeparators(s[start..]) == s[start..end] + NonSeparators(s[end..])
  {
    assert s[start..] == s[start..end] + s[end..];
    AllKept(s[start..end]);
    NonSeparatorsConcat(s[start..end], s[end..]);
  }

  /** The first word and where it ends. */
  lemma WordEnds(s: Bytes, i: nat)
    requires i <= |s| && Words(s, i) != []
    ensures var start := SkipSeparators(s, i);
            && start < |s| && SkipWord(s, start) > start
            && (SkipWord(s, start) < |s| ==> IsSeparator(s[SkipWord(s, start)]))
            && Words(s, i)[0] == s[start..SkipWord(s, start)]
  {
  }

  /** Each word is a whole run between separators: it starts and ends at one, or at an end of the bytes. */
  lemma {:induction false} WordPlace(s: Bytes, i: nat, k: nat) returns (start: nat, end: nat)
    requires i <= |s| && k < |Words(s, i)| && (i == 0 || i == |s| || IsSeparator(s[i]) || IsSeparator(s[i - 1]))
    ensures i <= start < end <= |s| && Words(s, i)[k] == s[start..end]
    ensures start == 0 || IsSeparator(s[start - 1])
    ensures end == |s| || IsSeparator(s[end])
    decreases |s| - i
  {
    WordEnds(s, i);
    start := SkipSeparators(s, i);
    end := SkipWord(s, start);
    if k > 0 { start, end := WordPlace(s, end, k - 1); }
  }

  /** The iterator of the userland library. */
  class Argv {
    const bytes: Bytes
    var cursor: nat

    ghost predicate Valid()
      reads this
    {
      cursor <= |bytes|
    }

    /** The words not yet handed out. */
    ghost function Rest(): seq<Bytes>
      reads this
      requires Valid()
    {
      Words(bytes, cursor)
    }

    constructor (bytes: Bytes)
      ensures Valid() && this.bytes == bytes && Rest() == Words(bytes, 0)
    {
      this.bytes := bytes;
      cursor := 0;
    }

    method NextArg() returns (r: Option<Bytes>)
      requires Valid()
      modifies this
      ensures Valid()
      ensures r == if old(Rest()) == [] then None else Some(old(Rest())[0])
      ensures Rest() == if old(Rest()) == [] then [] else old(Rest())[1..]
    {
      while cursor < |bytes| && IsSeparator(bytes[cursor])
        invariant cursor <= |bytes| && SkipSeparators(bytes, cursor) == SkipSeparators(bytes, old(cursor))
      {
        cursor := cursor + 1;
      }
      if cursor >= |bytes| { return None; }
      var start := cursor;
      while cursor < |bytes| && !IsSeparator(bytes[cursor])
        invariant start <= cursor <= |bytes| && SkipWord(bytes, cursor) == SkipWord(bytes, start)
      {
        cursor := cursor + 1;
      }
      return Some(bytes[start..cursor]);
    }
  }
}
