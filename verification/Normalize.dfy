/** Path normalization and mount resolution: what turns user paths into the paths the backends see. */
module Normalize {
  import opened Base
  import opened PathText
  import opened FsSpec

  const MAX_NORMALIZED_PATH_LEN := 128

  const DOT_NAME: Name := [DOT]
  const DOT_DOT_NAME: Name := [DOT, DOT]

  /** The text of an absolute path. */
  function Text(stack: Path): Bytes { if stack == [] then [SLASH] else Slashed(stack) }

  /** A component that stays in a normalized path. */
  predicate Kept(c: Name) { PlainName(c) && c != DOT_NAME && c != DOT_DOT_NAME && 0 !in c }

  /** A normalized path: only kept components, and short enough for the buffer. */
  predicate Canonical(stack: Path)
  {
    (forall i | 0 <= i < |stack| :: Kept(stack[i])) && |Text(stack)| <= MAX_NORMALIZED_PATH_LEN
  }

  /** One component fed to the component stack. */
  function Feed(stack: Path, c: Bytes): Result<Path, FsError>
  {
    if c == [] || c == DOT_NAME then Ok(stack)
    else if c == DOT_DOT_NAME then Ok(Parent(stack))
    else if 0 in c then Err(InvalidPath)
    else if |Text(stack + [c])| > MAX_NORMALIZED_PATH_LEN then Err(PathTooLong)
    else Ok(stack + [c])
  }

  /** Components fed in order; the first error ends it. */
  function FeedAll(stack: Path, cs: seq<Bytes>): Result<Path, FsError>
  {
    if cs == [] then Ok(stack)
    else match FeedAll(stack, cs[..|cs| - 1])
      case Err(e) => Err(e)
      case Ok(s) => Feed(s, cs[|cs| - 1])
  }

  /** normalize_path_from on component stacks. */
  function NormalizeSpec(cwd: Bytes, path: Bytes): Result<Path, FsError>
  {
    match (if [SLASH] <= path then Ok([]) else FeedAll([], Split(cwd)))
    case Err(e) => Err(e)
    case Ok(s) => FeedAll(s, Split(path))
  }

  // ----- Properties of the component stack -----

  lemma CanonicalPlain(stack: Path)
    requires Canonical(stack)
    ensures PlainPath(stack)
  {
  }

  lemma FeedCanonical(stack: Path, c: Bytes)
    requires Canonical(stack) && SLASH !in c
    ensures Feed(stack, c).Ok? ==> Canonical(Feed(stack, c).value)
  {
    hide Slashed;
    if stack != [] { UpIsShorter(stack); }
  }

  lemma UpIsShorter(stack: Path)
    requires stack != []
    ensures |Text(Parent(stack))| <= |Text(stack)|
  {
    assert Slashed(stack) == Slashed(Parent(stack)) + [SLASH] + stack[|stack| - 1];
  }

  /** Whatever is fed, the stack stays normalized. */
  lemma {:induction false} FeedAllCanonical(stack: Path, cs: seq<Bytes>)
    requires Canonical(stack) && forall i | 0 <= i < |cs| :: SLASH !in cs[i]
    ensures FeedAll(stack, cs).Ok? ==> Canonical(FeedAll(stack, cs).value)
  {
    if cs != [] {
      FeedAllCanonical(stack, cs[..|cs| - 1]);
      if FeedAll(stack, cs[..|cs| - 1]).Ok? {
        FeedCanonical(FeedAll(stack, cs[..|cs| - 1]).value, cs[|cs| - 1]);
      }
    }
  }

  lemma {:induction false} FeedAllConcat(stack: Path, a: seq<Bytes>, b: seq<Bytes>)
    ensures FeedAll(stack, a + b) ==
            match FeedAll(stack, a) case Err(e) => Err(e) case Ok(s) => FeedAll(s, b)
  {
    if b == [] {
      assert a + b == a;
    } else {
      FeedAllConcat(stack, a, b[..|b| - 1]);
      assert (a + b)[..|a + b| - 1] == a + b[..|b| - 1];
    }
  }

  /** Normalizing yields a canonical path: no empty, dot or NUL component, at most 128 bytes. */
  lemma NormalizedIsCanonical(cwd: Bytes, path: Bytes)
    ensures NormalizeSpec(cwd, path).Ok? ==> Canonical(NormalizeSpec(cwd, path).value)
  {
    FeedAllCanonical([], Split(cwd));
    if !([SLASH] <= path) && FeedAll([], Split(cwd)).Ok? {
      FeedAllCanonical(FeedAll([], Split(cwd)).value, Split(path));
    } else {
      FeedAllCanonical([], Split(path));
    }
  }

  lemma {:induction false} FeedKept(stack: Path)
    requires Canonical(stack)
    ensures FeedAll([], stack) == Ok(stack)
  {
    if stack != [] {
      CanonicalFront(stack);
      hide Feed, Canonical;
      FeedKept(stack[..|stack| - 1]);
    }
  }

  /** The last component of a canonical path is fed to the rest without more ado. */
  lemma CanonicalFront(stack: Path)
    requires Canonical(stack) && stack != []
    ensures var front, last := stack[..|stack| - 1], stack[|stack| - 1];
            Canonical(front) && Feed(front, last) == Ok(stack)
  {
    var front, last := stack[..|stack| - 1], stack[|stack| - 1];
    assert Slashed(stack) == Slashed(front) + [SLASH] + last;
    hide Slashed;
    assert Kept(last);
    assert front + [last] == stack;
  }

  /** Normalizing a normalized path changes nothing, whatever the working directory. */
  lemma NormalizeIdempotent(cwd: Bytes, stack: Path)
    requires Canonical(stack)
    ensures NormalizeSpec(cwd, Text(stack)) == Ok(stack)
  {
    CanonicalPlain(stack);
    FeedKept(stack);
    var nothing: seq<Bytes> := [[]];
    assert nothing[..0] == [];
    assert FeedAll([], nothing) == Ok([]);
    FeedAllConcat([], nothing, nothing);
    if stack == [] {
      assert [SLASH][1..] == [];
      assert Split([SLASH]) == nothing + nothing;
    } else {
      SplitSlashed(stack);
      FeedAllConcat([], nothing, stack);
    }
  }

  /** For a relative path, normalizing from a directory is normalizing the joined text, errors included. */
  lemma RelativeIsJoined(cwd: Bytes, path: Bytes)
    requires !([SLASH] <= path)
    ensures NormalizeSpec(cwd, path) == NormalizeSpec([SLASH], cwd + [SLASH] + path)
  {
    SplitConcat(cwd, path);
    FeedAllConcat([], Split(cwd), Split(path));
    var root: Bytes := [SLASH];
    assert Text([]) == root;
    NormalizeIdempotent([], []);
    assert FeedAll([], Split(root)) == Ok([]);
  }

  // ----- What each component does, on texts -----

  /** The bytes of a path with one more component. */
  function LengthWith(stack: Path, c: Bytes): nat { |Text(stack)| + |c| + if stack == [] then 0 else 1 }

  lemma TextWith(stack: Path, c: Bytes)
    ensures |Text(stack + [c])| == LengthWith(stack, c)
  {
    assert (stack + [c])[..|stack|] == stack;
  }

  /** A path continued behind a slash is normalized from where the path led. */
  lemma ThenRest(cwd: Bytes, path: Bytes, rest: Bytes)
    requires path != []
    ensures NormalizeSpec(cwd, path + [SLASH] + rest) ==
            match NormalizeSpec(cwd, path) case Err(e) => Err(e) case Ok(s) => FeedAll(s, Split(rest))
  {
    var whole := path + [SLASH] + rest;
    assert [SLASH] <= whole <==> [SLASH] <= path by { assert whole[0] == path[0]; }
    SplitConcat(path, rest);
    var from := if [SLASH] <= path then Ok([]) else FeedAll([], Split(cwd));
    if from.Ok? { FeedAllConcat(from.value, Split(path), Split(rest)); }
  }

  /** What comes behind a slash cannot tell two texts of the same path apart. */
  lemma SameThenRest(cwd: Bytes, a: Bytes, b: Bytes, rest: Bytes)
    requires a != [] && b != [] && NormalizeSpec(cwd, a) == NormalizeSpec(cwd, b)
    ensures NormalizeSpec(cwd, a + [SLASH] + rest) == NormalizeSpec(cwd, b + [SLASH] + rest)
  {
    ThenRest(cwd, a, rest);
    ThenRest(cwd, b, rest);
  }

  lemma ThenOne(cwd: Bytes, path: Bytes, c: Bytes)
    requires path != [] && SLASH !in c
    ensures NormalizeSpec(cwd, path + [SLASH] + c) ==
            match NormalizeSpec(cwd, path) case Err(e) => Err(e) case Ok(s) => Feed(s, c)
  {
    ThenRest(cwd, path, c);
    SplitPlain(c);
    assert [c][..0] == [];
  }

  /** An empty or "." component changes nothing, errors included. */
  lemma DotStays(cwd: Bytes, path: Bytes)
    requires path != []
    ensures NormalizeSpec(cwd, path + [SLASH]) == NormalizeSpec(cwd, path)
    ensures NormalizeSpec(cwd, path + [SLASH] + [DOT]) == NormalizeSpec(cwd, path)
  {
    ThenOne(cwd, path, []);
    assert path + [SLASH] + [] == path + [SLASH];
    ThenOne(cwd, path, [DOT]);
  }

  /** ".." leads to the directory above, and from the root to the root. */
  lemma DotDotUp(cwd: Bytes, path: Bytes)
    requires path != [] && NormalizeSpec(cwd, path).Ok?
    ensures var at := NormalizeSpec(cwd, path).value;
            NormalizeSpec(cwd, path + [SLASH] + [DOT, DOT]) == Ok(if at == [] then [] else at[..|at| - 1])
  {
    ThenOne(cwd, path, [DOT, DOT]);
  }

  /** A kept component is appended if the text stays within 128 bytes; one that holds a zero byte is refused. */
  lemma NameDown(cwd: Bytes, path: Bytes, c: Name)
    requires path != [] && NormalizeSpec(cwd, path).Ok? && PlainName(c) && c != DOT_NAME && c != DOT_DOT_NAME
    ensures var at := NormalizeSpec(cwd, path).value;
            NormalizeSpec(cwd, path + [SLASH] + c) ==
            if 0 in c then Err(InvalidPath)
            else if LengthWith(at, c) <= MAX_NORMALIZED_PATH_LEN then Ok(at + [c]) else Err(PathTooLong)
  {
    hide Slashed;
    ThenOne(cwd, path, c);
    TextWith(NormalizeSpec(cwd, path).value, c);
  }

  /** Down into a name and up again is to stay, whatever text came before. */
  lemma DownAndUp(cwd: Bytes, path: Bytes, c: Name)
    requires path != [] && NormalizeSpec(cwd, path).Ok? && Kept(c)
    requires LengthWith(NormalizeSpec(cwd, path).value, c) <= MAX_NORMALIZED_PATH_LEN
    ensures NormalizeSpec(cwd, path + [SLASH] + c + [SLASH] + [DOT, DOT]) == NormalizeSpec(cwd, path)
  {
    NameDown(cwd, path, c);
    DotDotUp(cwd, path + [SLASH] + c);
  }

  /** The same for a relative component alone, from a working directory in normal form. */
  lemma OneStep(at: Path, c: Name)
    requires Canonical(at)
    ensures NormalizeSpec(Text(at), [DOT, DOT]) == Ok(if at == [] then [] else at[..|at| - 1])
    ensures NormalizeSpec(Text(at), [DOT]) == Ok(at) && NormalizeSpec(Text(at), []) == Ok(at)
    ensures Kept(c) && LengthWith(at, c) <= MAX_NORMALIZED_PATH_LEN ==> NormalizeSpec(Text(at), c) == Ok(at + [c])
  {
    hide Feed, FeedAll, Slashed, Canonical;
    NormalizeIdempotent([SLASH], at);
    DotDotUp([SLASH], Text(at));
    DotStays([SLASH], Text(at));
    RelativeIsJoined(Text(at), [DOT, DOT]);
    RelativeIsJoined(Text(at), [DOT]);
    RelativeIsJoined(Text(at), []);
    assert Text(at) + [SLASH] + [] == Text(at) + [SLASH];
    if Kept(c) {
      NameDown([SLASH], Text(at), c);
      RelativeIsJoined(Text(at), c);
    }
  }

  // ----- The in-place buffer -----

  lemma TextLastSlash(stack: Path)
    requires stack != []
    ensures Text(stack) == Slashed(Parent(stack)) + [SLASH] + stack[|stack| - 1]
    ensures |Text(Parent(stack))| == if |stack| == 1 then 1 else |Slashed(Parent(stack))|
  {
  }

  /** Where the last component of a canonical path starts, and what its parent's text is. */
  lemma TextShape(stack: Path)
    requires Canonical(stack)
    ensures |Text(stack)| > 1 <==> stack != []
    ensures stack != [] ==>
              var up, whole := Slashed(Parent(stack)), Text(stack);
              && |up| < |whole| && whole[|up|] == SLASH && (forall i | |up| < i < |whole| :: whole[i] != SLASH)
              && Text(Parent(stack)) == if |up| == 0 then whole[..1] else whole[..|up|]
  {
    if stack != [] {
      TextLastSlash(stack);
      var up, last := Slashed(Parent(stack)), stack[|stack| - 1];
      assert Kept(last);
      assert Text(stack) == up + [SLASH] + last;
    }
  }

  class NormalizedPath {
    const bytes: array<Byte>
    var len: nat
    ghost var stack: Path

    ghost predicate Valid()
      reads this, bytes
    {
      && bytes.Length == MAX_NORMALIZED_PATH_LEN
      && len <= bytes.Length
      && Canonical(stack)
      && bytes[..len] == Text(stack)
    }

    /** push_root on an empty buffer. */
    constructor ()
      ensures Valid() && stack == [] && fresh(bytes)
    {
      bytes := new Byte[MAX_NORMALIZED_PATH_LEN](i => 0);
      len := 1;
      stack := [];
      new;
      bytes[0] := SLASH;
    }

    method PushComponent(c: Bytes) returns (error: Option<FsError>)
      requires Valid() && PlainName(c) && c != DOT_NAME && c != DOT_DOT_NAME
      modifies this, bytes
      ensures Valid()
      ensures Feed(old(stack), c) == if error.Some? then Err(error.value) else Ok(stack)
      ensures error.Some? ==> stack == old(stack)
    {
      if 0 in c { return Some(InvalidPath); }
      var needsSlash := len > 1;
      var needed := len + (if needsSlash then 1 else 0) + |c|;
      ghost var pushed := stack + [c];
      TextShape(stack);
      FeedCanonical(stack, c);
      assert Feed(stack, c) == if |Text(pushed)| > MAX_NORMALIZED_PATH_LEN then Err(PathTooLong) else Ok(pushed);
      assert pushed[..|stack|] == stack;
      assert Text(pushed) == (if stack == [] then [SLASH] else Slashed(stack) + [SLASH]) + c;
      assert |bytes[..len]| == len;
      hide Canonical, Slashed, Text, Feed, Kept;
      if needed > bytes.Length { return Some(PathTooLong); }
      if needsSlash { AppendBytes([SLASH]); }
      AppendBytes(c);
      stack := pushed;
      return None;
    }

    /** Copy `c` behind the current text. */
    method AppendBytes(c: Bytes)
      requires len + |c| <= bytes.Length
      modifies this`len, bytes
      ensures len == old(len) + |c| && bytes[..len] == old(bytes[..len]) + c
    {
      for i := 0 to |c|
        invariant len == old(len) && bytes[..len + i] == old(bytes[..len]) + c[..i]
      {
        bytes[len + i] := c[i];
      }
      TakeAll(c);
      len := len + |c|;
    }

    method PopComponent()
      requires Valid()
      modifies this
      ensures Valid()
      ensures stack == Parent(old(stack))
    {
      hide Canonical, Slashed, Text;
      TextShape(stack);
      FeedCanonical(stack, DOT_DOT_NAME);
      assert Feed(stack, DOT_DOT_NAME) == Ok(Parent(stack));
      assert |bytes[..len]| == len;
      if len <= 1 { return; }
      ghost var up, whole := Slashed(Parent(stack)), bytes[..len];
      while len > 1 && bytes[len - 1] != SLASH
        invariant stack == old(stack) && |up| + 1 <= len <= |whole|
        invariant bytes[..len] == whole[..len]
        decreases len
      {
        assert bytes[len - 1] == whole[..len][len - 1];
        len := len - 1;
      }
      assert bytes[len - 1] == whole[..len][len - 1];
      assert len == |up| + 1;
      if len > 1 { len := len - 1; }
      assert bytes[..len] == whole[..len];
      stack := Parent(stack);
    }

    method PushPathComponents(path: Bytes) returns (error: Option<FsError>)
      requires Valid()
      modifies this, bytes
      ensures Valid()
      ensures FeedAll(old(stack), Split(path)) == if error.Some? then Err(error.value) else Ok(stack)
    {
      var cs := Split(path);
      for k := 0 to |cs|
        invariant Valid()
        invariant FeedAll(old(stack), cs[..k]) == Ok(stack)
      {
        TakeSnoc(cs, k);
        var c := cs[k];
        assert cs[..k + 1][..k] == cs[..k];
        if c == [] || c == DOT_NAME {
        } else if c == DOT_DOT_NAME {
          PopComponent();
        } else {
          var e := PushComponent(c);
          if e.Some? {
            FeedAllStops(old(stack), cs, k + 1);
            return e;
          }
        }
      }
      TakeAll(cs);
      return None;
    }
  }

  lemma {:induction false} FeedAllStops(stack: Path, cs: seq<Bytes>, k: nat)
    requires k <= |cs| && FeedAll(stack, cs[..k]).Err?
    ensures FeedAll(stack, cs) == FeedAll(stack, cs[..k])
  {
    FeedAllConcat(stack, cs[..k], cs[k..]);
    assert cs[..k] + cs[k..] == cs;
  }

  /** normalize_path_from: the buffer holds exactly the text of the specified component stack. */
  method NormalizeFrom(cwd: Bytes, path: Bytes) returns (r: Result<NormalizedPath, FsError>)
    ensures r.Ok? <==> NormalizeSpec(cwd, path).Ok?
    ensures r.Err? ==> NormalizeSpec(cwd, path) == Err(r.error)
    ensures r.Ok? ==> fresh(r.value) && fresh(r.value.bytes) && r.value.Valid()
    ensures r.Ok? ==> r.value.bytes[..r.value.len] == Text(NormalizeSpec(cwd, path).value)
  {
    var normalized := new NormalizedPath();
    if !([SLASH] <= path) {
      var e := normalized.PushPathComponents(cwd);
      if e.Some? { return Err(e.value); }
    }
    var e := normalized.PushPathComponents(path);
    if e.Some? { return Err(e.value); }
    return Ok(normalized);
  }
}
