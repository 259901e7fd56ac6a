/** The first stack of a program, as in section 3.4.1 of the System V ABI, AMD64 supplement. */
module InitialStack {
  import opened Base
  import opened Numbers
  import opened Arguments
  import opened StackPool

  const STACK_IMAGE: nat := 512
  const ARGV_MAX: nat := 8
  const U64: nat := 0x1_0000_0000_0000_0000

  datatype ImageError = ImageTooLarge | EmptyImage

  /** The stack pointer and the bytes from there up to the stack top. */
  datatype Image = Image(stackPointer: nat, bytes: Bytes)

  /** What the kernel keeps: the image at the front of a fixed buffer, zeros behind it. */
  datatype UserInitialStack = UserInitialStack(stackPointer: nat, bytes: Bytes, len: nat)

  /** The part that is copied to the program's stack. */
  function Used(stack: UserInitialStack): Image
    requires stack.len <= |stack.bytes|
  {
    Image(stack.stackPointer, stack.bytes[..stack.len])
  }

  /** The program path and the first seven words of its arguments. */
  function ArgvOf(path: Bytes, arg: Bytes): (argv: seq<Bytes>)
    ensures 1 <= |argv| <= ARGV_MAX && argv[0] == path
  {
    var all := [path] + Words(arg, 0);
    if |all| <= ARGV_MAX then all else all[..ARGV_MAX]
  }

  /** Where string `i` starts in the buffer; strings lie one behind the other, each with its NUL, up to the top. */
  function Low(argv: seq<Bytes>, i: nat): int
    requires i <= |argv|
    decreases |argv| - i
  {
    if i == |argv| then STACK_IMAGE else Low(argv, i + 1) - (|argv[i]| + 1)
  }

  function WordCount(argv: seq<Bytes>): nat { 1 + |argv| + 1 + 1 + 2 }

  /** Below the strings, at a multiple of eight, before the adjustment to sixteen. */
  function Unadjusted(argv: seq<Bytes>): int { Low(argv, 0) - Low(argv, 0) % 8 - 8 * WordCount(argv) }

  function WordsStart(argv: seq<Bytes>, base: nat): int
  {
    var w := Unadjusted(argv);
    if (base + w) % 16 != 0 then w - 8 else w
  }

  /** Everything fits into the buffer. */
  predicate Fits(argv: seq<Bytes>, base: nat)
  {
    Low(argv, 0) >= 0 && Unadjusted(argv) >= 0 && WordsStart(argv, base) >= 0
  }

  /** argc, the argv pointers, the null after them, the null environment, and the null auxiliary pair. */
  function StackWord(argv: seq<Bytes>, base: nat, k: nat): int
    requires k < WordCount(argv)
  {
    if k == 0 then |argv| else if k <= |argv| then base + Low(argv, k - 1) else 0
  }

  function StackWords(argv: seq<Bytes>, base: nat): (w: seq<int>)
    ensures |w| == WordCount(argv)
  {
    seq(WordCount(argv), (k: nat) requires k < WordCount(argv) => StackWord(argv, base, k))
  }

  lemma {:induction false} LowOrder(argv: seq<Bytes>, i: nat)
    requires i <= |argv|
    ensures Low(argv, 0) <= Low(argv, i) <= STACK_IMAGE
    ensures i < |argv| ==> Low(argv, i) + |argv[i]| + 1 == Low(argv, i + 1)
  {
    if i > 0 { LowOrder(argv, i - 1); }
    LowTop(argv, i);
  }

  lemma {:induction false} LowTop(argv: seq<Bytes>, i: nat)
    requires i <= |argv|
    ensures Low(argv, i) <= STACK_IMAGE
    decreases |argv| - i
  {
    if i < |argv| { LowTop(argv, i + 1); }
  }

  /** The bytes of `item` at `at`, and a NUL behind them. */
  predicate Placed(buf: Bytes, item: Bytes, at: int)
  {
    0 <= at && at + |item| < |buf| && buf[at..at + |item|] == item && buf[at + |item|] == 0
  }

  function WordAt(buf: Bytes, at: nat): nat
    requires at + 8 <= |buf|
  {
    FromLe(buf[at..at + 8])
  }

  /** The words written from `at` on. */
  ghost predicate WordsWritten(buf: Bytes, at: nat, words: seq<int>)
  {
    at + 8 * |words| <= |buf| && forall k | 0 <= k < |words| :: WordAt(buf, at + 8 * k) == words[k]
  }

  lemma WordRoundTrip(value: nat)
    requires value < U64
    ensures FromLe(ToLe(value, 8)) == value
  {
    hide ToLe, FromLe, Pow256;
    LeRoundTrip(value, 8);
    Pow256Values();
  }

  /** Writing outside a string leaves it alone. */
  lemma PlacedStays(buf: Bytes, at: nat, src: Bytes, item: Bytes, p: int)
    requires at + |src| <= |buf| && Placed(buf, item, p) && (at + |src| <= p || p + |item| + 1 <= at)
    ensures Placed(Patch(buf, at, src), item, p)
  {
    var after := Patch(buf, at, src);
    assert after[p..p + |item|] == buf[p..p + |item|];
  }

  lemma PatchPlaces(buf: Bytes, at: nat, item: Bytes)
    requires at + |item| < |buf|
    ensures Placed(Patch(Patch(buf, at, item), at + |item|, [0]), item, at)
  {
    var after := Patch(Patch(buf, at, item), at + |item|, [0]);
    assert after[at..at + |item|] == item;
  }

  lemma WordAdded(buf: Bytes, at: nat, words: seq<int>, value: nat)
    requires WordsWritten(buf, at, words) && at + 8 * |words| + 8 <= |buf| && value < U64
    ensures WordsWritten(Patch(buf, at + 8 * |words|, ToLe(value, 8)), at, words + [value])
  {
    hide FromLe, ToLe, Patch;
    var low := at + 8 * |words|;
    var after := Patch(buf, low, ToLe(value, 8));
    WordRoundTrip(value);
    assert after[low..low + 8] == ToLe(value, 8);
    assert WordAt(after, at + 8 * |words|) == value;
    forall k | 0 <= k < |words| ensures WordAt(after, at + 8 * k) == words[k] {
      WordKept(buf, low, ToLe(value, 8), at + 8 * k);
    }
  }

  lemma WordKept(buf: Bytes, low: nat, src: Bytes, at: nat)
    requires low + |src| <= |buf| && at + 8 <= low
    ensures WordAt(Patch(buf, low, src), at) == WordAt(buf, at)
  {
    assert Patch(buf, low, src)[at..at + 8] == buf[at..at + 8];
  }

  // ----- Building the image -----

  method CollectArgv(path: Bytes, arg: Bytes) returns (argv: seq<Bytes>)
    ensures argv == ArgvOf(path, arg)
  {
    argv := [path];
    var index := 0;
    while index < |arg| && |argv| < ARGV_MAX
      invariant index <= |arg| && 1 <= |argv| <= ARGV_MAX
      invariant argv + Words(arg, index) == [path] + Words(arg, 0)
      decreases |arg| - index
    {
      ghost var from := index;
      while index < |arg| && IsSeparator(arg[index])
        invariant from <= index <= |arg| && SkipSeparators(arg, index) == SkipSeparators(arg, from)
      {
        index := index + 1;
      }
      var start := index;
      while index < |arg| && !IsSeparator(arg[index])
        invariant start <= index <= |arg| && SkipWord(arg, index) == SkipWord(arg, start)
      {
        index := index + 1;
      }
      if start < index {
        assert argv + Words(arg, from) == argv + [arg[start..index]] + Words(arg, index);
        argv := argv + [arg[start..index]];
      }
    }
  }

  ghost predicate StringsPlaced(buf: Bytes, argv: seq<Bytes>, from: nat)
  {
    forall j | from <= j < |argv| :: Placed(buf, argv[j], Low(argv, j))
  }

  lemma StringsStay(buf: Bytes, argv: seq<Bytes>, from: nat, at: nat, src: Bytes)
    requires from <= |argv| && at + |src| <= |buf| && StringsPlaced(buf, argv, from) && at + |src| <= Low(argv, from)
    ensures StringsPlaced(Patch(buf, at, src), argv, from)
  {
    forall j | from <= j < |argv| ensures Placed(Patch(buf, at, src), argv[j], Low(argv, j)) {
      LowRises(argv, from, j);
      PlacedStays(buf, at, src, argv[j], Low(argv, j));
    }
  }

  lemma {:induction false} LowRises(argv: seq<Bytes>, i: nat, j: nat)
    requires i <= j <= |argv|
    ensures Low(argv, i) <= Low(argv, j)
    decreases j - i
  {
    if i < j { LowRises(argv, i + 1, j); }
  }

  lemma OneMore(buf: Bytes, argv: seq<Bytes>, index: nat, low: nat)
    requires index < |argv| && low == Low(argv, index) && |buf| == STACK_IMAGE && StringsPlaced(buf, argv, index + 1)
    ensures low + |argv[index]| + 1 <= STACK_IMAGE
    ensures StringsPlaced(Patch(Patch(buf, low, argv[index]), low + |argv[index]|, [0]), argv, index)
  {
    var item := argv[index];
    LowTop(argv, index + 1);
    StringsStay(buf, argv, index + 1, low, item);
    StringsStay(Patch(buf, low, item), argv, index + 1, low + |item|, [0]);
    PatchPlaces(buf, low, item);
  }

  lemma NonePlaced(buf: Bytes, argv: seq<Bytes>)
    ensures StringsPlaced(buf, argv, |argv|)
  {
  }

  /** The loop that copies the strings into the buffer, last one first. */
  method PlaceStrings(buffer: array<Byte>, argv: seq<Bytes>, base: nat) returns (r: Result<(nat, seq<nat>), ImageError>)
    requires buffer.Length == STACK_IMAGE
    modifies buffer
    ensures r.Ok? <==> Low(argv, 0) >= 0
    ensures r.Err? ==> r.error == ImageTooLarge
    ensures r.Ok? ==> r.value.0 == Low(argv, 0) && StringsPlaced(buffer[..], argv, 0)
    ensures r.Ok? ==> |r.value.1| == |argv| && forall i | 0 <= i < |argv| :: r.value.1[i] == base + Low(argv, i)
  {
    hide StringsPlaced, Patch;
    var low: nat := STACK_IMAGE;
    var ptrs: seq<nat> := [];
    NonePlaced(buffer[..], argv);
    for index := |argv| downto 0
      invariant low == Low(argv, index) && |ptrs| == |argv| - index
      invariant StringsPlaced(buffer[..], argv, index)
      invariant forall i | index <= i < |argv| :: ptrs[i - index] == base + Low(argv, i)
    {
      var item := argv[index];
      var needed := |item| + 1;
      if needed > low {
        LowRises(argv, 0, index);
        return Err(ImageTooLarge);
      }
      low := low - needed;
      LowTop(argv, index + 1);
      OneMore(buffer[..], argv, index, low);
      PlaceString(buffer, low, item);
      ptrs := [base + low] + ptrs;
    }
    return Ok((low, ptrs));
  }

  method PlaceString(buffer: array<Byte>, low: nat, item: Bytes)
    requires low + |item| < buffer.Length
    modifies buffer
    ensures buffer[..] == Patch(Patch(old(buffer[..]), low, item), low + |item|, [0])
  {
    forall k | 0 <= k < |item| { buffer[low + k] := item[k]; }
    buffer[low + |item|] := 0;
  }

  method WriteStackWord(buffer: array<Byte>, low: nat, value: nat) returns (r: Result<nat, ImageError>)
    requires buffer.Length == STACK_IMAGE
    modifies buffer
    ensures r == if low + 8 > STACK_IMAGE then Err(ImageTooLarge) else Ok(low + 8)
    ensures buffer[..] == if r.Ok? then Patch(old(buffer[..]), low, ToLe(value, 8)) else old(buffer[..])
  {
    if low + 8 > STACK_IMAGE { return Err(ImageTooLarge); }
    var bytes := ToLe(value, 8);
    forall k | 0 <= k < 8 { buffer[low + k] := bytes[k]; }
    return Ok(low + 8);
  }

  /** One word more behind those written, with the strings above left alone. */
  method AppendWord(buffer: array<Byte>, start: nat, ghost words: seq<int>, value: nat, argv: seq<Bytes>,
                    low: nat) returns (next: nat)
    requires buffer.Length == STACK_IMAGE && value < U64 && low == start + 8 * |words|
    requires WordsWritten(buffer[..], start, words) && StringsPlaced(buffer[..], argv, 0)
    requires low + 8 <= Low(argv, 0) <= STACK_IMAGE
    modifies buffer
    ensures next == low + 8 && WordsWritten(buffer[..], start, words + [value]) && StringsPlaced(buffer[..], argv, 0)
  {
    WordAdded(buffer[..], start, words, value);
    StringsStay(buffer[..], argv, 0, low, ToLe(value, 8));
    var r := WriteStackWord(buffer, low, value);
    next := low + 8;
  }

  /** The first `k` words are in place, and the strings above them. */
  ghost predicate Progress(buf: Bytes, start: nat, argv: seq<Bytes>, base: nat, k: nat)
  {
    k <= WordCount(argv) && WordsWritten(buf, start, StackWords(argv, base)[..k]) && StringsPlaced(buf, argv, 0)
  }

  method NextWord(buffer: array<Byte>, start: nat, argv: seq<Bytes>, base: nat, low: nat, value: nat,
                  ghost k: nat) returns (next: nat)
    requires buffer.Length == STACK_IMAGE && start + 8 * WordCount(argv) <= Low(argv, 0) <= STACK_IMAGE
    requires low == start + 8 * k && k < WordCount(argv) && value < U64 && value == StackWord(argv, base, k)
    requires Progress(buffer[..], start, argv, base, k)
    modifies buffer
    ensures next == low + 8 && Progress(buffer[..], start, argv, base, k + 1)
  {
    WordPrefix(argv, base, k);
    hide StackWords, StackWord, Low, StringsPlaced, WordsWritten;
    next := AppendWord(buffer, start, StackWords(argv, base)[..k], value, argv, low);
  }

  /** argc, the argv pointers and the four nulls. */
  method WriteWords(buffer: array<Byte>, start: nat, argv: seq<Bytes>, ptrs: seq<nat>, base: nat)
    requires buffer.Length == STACK_IMAGE && |ptrs| == |argv| && base + STACK_IMAGE < U64
    requires forall i | 0 <= i < |argv| :: ptrs[i] == base + Low(argv, i)
    requires StringsPlaced(buffer[..], argv, 0) && start + 8 * WordCount(argv) <= Low(argv, 0)
    modifies buffer
    ensures WordsWritten(buffer[..], start, StackWords(argv, base)) && StringsPlaced(buffer[..], argv, 0)
  {
    hide StackWords, Low, StringsPlaced, WordsWritten, Progress;
    LowTop(argv, 0);
    ghost var n := |argv| + 1;
    Started(buffer[..], start, argv, base);
    var low := NextWord(buffer, start, argv, base, start, |argv|, 0);
    for i := 0 to |argv|
      invariant low == start + 8 * (i + 1) && Progress(buffer[..], start, argv, base, i + 1)
    {
      LowTop(argv, i);
      low := NextWord(buffer, start, argv, base, low, ptrs[i], i + 1);
    }
    low := NextWord(buffer, start, argv, base, low, 0, n);
    low := NextWord(buffer, start, argv, base, low, 0, n + 1);
    low := NextWord(buffer, start, argv, base, low, 0, n + 2);
    low := NextWord(buffer, start, argv, base, low, 0, n + 3);
    Finished(buffer[..], start, argv, base);
  }

  lemma Started(buf: Bytes, start: nat, argv: seq<Bytes>, base: nat)
    requires start <= |buf| && StringsPlaced(buf, argv, 0)
    ensures Progress(buf, start, argv, base, 0)
  {
  }

  lemma Finished(buf: Bytes, start: nat, argv: seq<Bytes>, base: nat)
    requires Progress(buf, start, argv, base, WordCount(argv))
    ensures WordsWritten(buf, start, StackWords(argv, base)) && StringsPlaced(buf, argv, 0)
  {
    TakeAll(StackWords(argv, base));
  }

  /** The words, one prefix after the other. */
  lemma WordPrefix(argv: seq<Bytes>, base: nat, k: nat)
    requires k < WordCount(argv)
    ensures StackWords(argv, base)[..k + 1] == StackWords(argv, base)[..k] + [StackWord(argv, base, k)]
    ensures k == 0 ==> StackWord(argv, base, k) == |argv|
    ensures 0 < k <= |argv| ==> StackWord(argv, base, k) == base + Low(argv, k - 1)
    ensures k > |argv| ==> StackWord(argv, base, k) == 0
  {
    TakeSnoc(StackWords(argv, base), k);
  }

  /** The finished image, from the stack pointer up. */
  ghost predicate ImageOk(image: Image, argv: seq<Bytes>, base: nat)
  {
    && Fits(argv, base) && image.stackPointer == base + WordsStart(argv, base)
    && |image.bytes| == STACK_IMAGE - WordsStart(argv, base)
    && WordsWritten(image.bytes, 0, StackWords(argv, base))
    && forall i | 0 <= i < |argv| :: Placed(image.bytes, argv[i], Low(argv, i) - WordsStart(argv, base))
  }

  lemma CutImage(buf: Bytes, argv: seq<Bytes>, base: nat, start: nat)
    requires |buf| == STACK_IMAGE && Fits(argv, base) && start == WordsStart(argv, base)
    requires WordsWritten(buf, start, StackWords(argv, base)) && StringsPlaced(buf, argv, 0)
    ensures ImageOk(Image(base + start, buf[start..]), argv, base)
  {
    CutWords(buf, start, StackWords(argv, base));
    hide WordsWritten, StackWords, Low;
    forall i | 0 <= i < |argv| ensures Placed(buf[start..], argv[i], Low(argv, i) - start) {
      LowRises(argv, 0, i);
      CutPlaced(buf, start, argv[i], Low(argv, i));
    }
  }

  lemma CutWords(buf: Bytes, start: nat, words: seq<int>)
    requires WordsWritten(buf, start, words)
    ensures WordsWritten(buf[start..], 0, words)
  {
    var bytes := buf[start..];
    hide FromLe;
    forall k | 0 <= k < |words| ensures WordAt(bytes, 0 + 8 * k) == words[k] {
      assert WordAt(buf, start + 8 * k) == words[k];
      assert bytes[8 * k..8 * k + 8] == buf[start + 8 * k..start + 8 * k + 8];
    }
  }

  lemma CutPlaced(buf: Bytes, start: nat, item: Bytes, at: int)
    requires Placed(buf, item, at) && start <= at
    ensures Placed(buf[start..], item, at - start)
  {
    assert buf[start..][at - start..at - start + |item|] == buf[at..at + |item|];
  }

  lemma FitsNeedsRoom(argv: seq<Bytes>, base: nat)
    ensures Fits(argv, base) ==> Low(argv, 0) >= 0
  {
  }

  /** Where the words go: below the strings, eight-aligned, moved down once more to reach a multiple of sixteen. */
  method ChooseStart(argv: seq<Bytes>, base: nat, low: nat) returns (r: Option<nat>)
    requires low == Low(argv, 0)
    ensures r.Some? <==> Fits(argv, base)
    ensures r.Some? ==> r.value == WordsStart(argv, base) && r.value + 8 * WordCount(argv) <= low
  {
    hide Low;
    var below := low - low % 8;
    var wordCount := 1 + |argv| + 1 + 1 + 2;
    if wordCount * 8 > below { return None; }
    var start := below - wordCount * 8;
    if (base + start) % 16 != 0 {
      if start < 8 { return None; }
      start := start - 8;
    }
    return Some(start);
  }

  /** The image for a list of arguments. */
  method BuildImage(argv: seq<Bytes>, base: nat) returns (r: Result<Image, ImageError>)
    requires base + STACK_IMAGE < U64
    ensures r.Ok? <==> Fits(argv, base)
    ensures r.Err? ==> r.error == ImageTooLarge
    ensures r.Ok? ==> ImageOk(r.value, argv, base)
  {
    hide StringsPlaced, WordsWritten, StackWords, ImageOk, Low, WordsStart, Unadjusted, Fits, WordCount;
    var buffer := new Byte[STACK_IMAGE](_ => 0);
    FitsNeedsRoom(argv, base);
    LowTop(argv, 0);
    var placed := PlaceStrings(buffer, argv, base);
    if placed.Err? { return Err(placed.error); }
    var (low, ptrs) := placed.value;
    var start := ChooseStart(argv, base, low);
    if start.None? { return Err(ImageTooLarge); }
    WriteWords(buffer, start.value, argv, ptrs, base);
    CutImage(buffer[..], argv, base, start.value);
    return Ok(Image(base + start.value, buffer[start.value..]));
  }

  /** build_user_initial_stack */
  method BuildUserInitialStack(stackStart: nat, stackTop: nat, path: Bytes, arg: Bytes)
    returns (r: Result<UserInitialStack, ImageError>)
    requires stackTop < U64
    ensures stackTop < stackStart + STACK_IMAGE ==> r == Err(ImageTooLarge)
    ensures stackTop >= stackStart + STACK_IMAGE && path == [] ==> r == Err(EmptyImage)
    ensures stackTop >= stackStart + STACK_IMAGE && path != [] ==>
              var argv, base := ArgvOf(path, arg), stackTop - STACK_IMAGE;
              && (r.Ok? <==> Fits(argv, base))
              && (r.Err? ==> r.error == ImageTooLarge)
              && (r.Ok? ==>
                    && |r.value.bytes| == STACK_IMAGE && r.value.len <= STACK_IMAGE &&
                         ImageOk(Used(r.value), argv, base)
                    && forall k | r.value.len <= k < STACK_IMAGE :: r.value.bytes[k] == 0)
  {
    hide ArgvOf, Fits;
    if stackTop <= stackStart || stackTop - stackStart < STACK_IMAGE { return Err(ImageTooLarge); }
    if path == [] { return Err(EmptyImage); }
    var argv := CollectArgv(path, arg);
    var image := BuildImage(argv, stackTop - STACK_IMAGE);
    if image.Err? { return Err(image.error); }
    ImageSize(image.value, argv, stackTop - STACK_IMAGE);
    hide ImageOk;
    var len := |image.value.bytes|;
    var bytes := image.value.bytes + Zeros(STACK_IMAGE - len);
    assert bytes[..len] == image.value.bytes;
    return Ok(UserInitialStack(image.value.stackPointer, bytes, len));
  }

  lemma ImageSize(image: Image, argv: seq<Bytes>, base: nat)
    requires ImageOk(image, argv, base)
    ensures |image.bytes| <= STACK_IMAGE
  {
  }

  // ----- What the program reads -----

  /** The stack pointer is a multiple of sixteen exactly when the stack top is a multiple of eight. */
  lemma PointerAligned(image: Image, argv: seq<Bytes>, base: nat)
    requires ImageOk(image, argv, base)
    ensures image.stackPointer % 16 == 0 <==> base % 8 == 0
  {
    AlignedIff(Low(argv, 0), WordCount(argv), base);
    hide Low, WordsWritten, StackWords, Placed;
  }

  lemma AlignedIff(low: int, count: nat, base: nat)
    ensures var w := low - low % 8 - 8 * count;
            var start := if (base + w) % 16 != 0 then w - 8 else w;
            (base + start) % 16 == 0 <==> base % 8 == 0
  {
  }

  /**
    Read back from the stack pointer: argc; then for each argument a pointer to its bytes followed by a NUL; then
    the nulls that end argv, the environment and the auxiliary vector. Words and strings lie one behind the other.
   */
  lemma ReadBack(image: Image, argv: seq<Bytes>, base: nat)
    requires ImageOk(image, argv, base)
    ensures 8 * WordCount(argv) <= |image.bytes| && image.stackPointer + |image.bytes| == base + STACK_IMAGE
    ensures WordAt(image.bytes, 0) == |argv|
    ensures forall i | 0 <= i < |argv| ::
              Placed(image.bytes, argv[i], WordAt(image.bytes, 8 * (i + 1)) - image.stackPointer)
    ensures forall k | |argv| < k < WordCount(argv) :: WordAt(image.bytes, 8 * k) == 0
    ensures argv != [] ==> WordAt(image.bytes, 8) - image.stackPointer >= 8 * WordCount(argv)
    ensures forall i | 0 <= i < |argv| - 1 ::
              WordAt(image.bytes, 8 * (i + 1)) + |argv[i]| + 1 == WordAt(image.bytes, 8 * (i + 2))
  {
    hide ImageOk, WordAt, Placed, Low, StackWord;
    ImageShape(image, argv, base);
    forall k: nat | k < WordCount(argv)
      ensures WordAt(image.bytes, 8 * k) == StackWord(argv, base, k)
      ensures k == 0 ==> WordAt(image.bytes, 8 * k) == |argv|
      ensures k > |argv| ==> WordAt(image.bytes, 8 * k) == 0
    {
      WordIs(image, argv, base, k);
    }
    forall i: nat | i < |argv|
      ensures WordAt(image.bytes, 8 * (i + 1)) == base + Low(argv, i)
      ensures Placed(image.bytes, argv[i], WordAt(image.bytes, 8 * (i + 1)) - image.stackPointer)
    {
      ArgumentIs(image, argv, base, i);
    }
    forall i | 0 <= i < |argv| - 1
      ensures WordAt(image.bytes, 8 * (i + 1)) + |argv[i]| + 1 == WordAt(image.bytes, 8 * (i + 2))
    {
      LowOrder(argv, i);
      assert WordAt(image.bytes, 8 * (i + 1 + 1)) == base + Low(argv, i + 1);
    }
    assert WordAt(image.bytes, 8 * 0) == |argv|;
    assert argv != [] ==> WordAt(image.bytes, 8 * (0 + 1)) == base + Low(argv, 0);
  }

  lemma ImageShape(image: Image, argv: seq<Bytes>, base: nat)
    requires ImageOk(image, argv, base)
    ensures 8 * WordCount(argv) <= |image.bytes| && image.stackPointer + |image.bytes| == base + STACK_IMAGE
    ensures base + Low(argv, 0) - image.stackPointer >= 8 * WordCount(argv)
  {
    hide WordAt, Placed, Low, StackWord;
  }

  /** Word `k` from the stack pointer up. */
  lemma WordIs(image: Image, argv: seq<Bytes>, base: nat, k: nat)
    requires ImageOk(image, argv, base) && k < WordCount(argv)
    ensures 8 * k + 8 <= |image.bytes| && WordAt(image.bytes, 8 * k) == StackWord(argv, base, k)
    ensures k == 0 ==> WordAt(image.bytes, 8 * k) == |argv|
    ensures 0 < k <= |argv| ==> WordAt(image.bytes, 8 * k) == base + Low(argv, k - 1)
    ensures k > |argv| ==> WordAt(image.bytes, 8 * k) == 0
  {
    hide WordAt, Placed, Low;
    assert WordAt(image.bytes, 0 + 8 * k) == StackWords(argv, base)[k];
  }

  /** Argument `i` behind its pointer. */
  lemma ArgumentIs(image: Image, argv: seq<Bytes>, base: nat, i: nat)
    requires ImageOk(image, argv, base) && i < |argv|
    ensures 8 * (i + 1) + 8 <= |image.bytes| && WordAt(image.bytes, 8 * (i + 1)) == base + Low(argv, i)
    ensures Placed(image.bytes, argv[i], WordAt(image.bytes, 8 * (i + 1)) - image.stackPointer)
  {
    hide WordAt, Placed, Low, StackWord;
    WordIs(image, argv, base, i + 1);
    assert Placed(image.bytes, argv[i], Low(argv, i) - WordsStart(argv, base));
  }

  /** The bytes up to the first NUL. */
  function CString(bytes: Bytes, at: nat): Bytes
    requires at <= |bytes|
    decreases |bytes| - at
  {
    if at == |bytes| || bytes[at] == 0 then [] else [bytes[at]] + CString(bytes, at + 1)
  }

  /** A program that reads up to the NUL gets the whole argument exactly when the argument holds no NUL itself. */
  lemma {:induction false} CStringIff(bytes: Bytes, item: Bytes, at: nat)
    requires Placed(bytes, item, at)
    ensures CString(bytes, at) == item <==> 0 !in item
    decreases |item|
  {
    if item != [] {
      assert bytes[at] == bytes[at..at + |item|][0] == item[0];
      if item[0] == 0 {
        assert CString(bytes, at) == [];
      } else {
        assert bytes[at + 1..at + |item|] == bytes[at..at + |item|][1..] == item[1..];
        CStringIff(bytes, item[1..], at + 1);
        assert item == [item[0]] + item[1..];
        assert CString(bytes, at)[1..] == CString(bytes, at + 1);
      }
    }
  }

  /** Argument `i`: the program's path, then its words. */
  function Nth(path: Bytes, arg: Bytes, i: nat): Bytes
    requires i <= |Words(arg, 0)|
  {
    if i == 0 then path else Words(arg, 0)[i - 1]
  }

  lemma SameArguments(path: Bytes, arg: Bytes, i: nat)
    requires i < |ArgvOf(path, arg)|
    ensures |ArgvOf(path, arg)| == Min(ARGV_MAX, 1 + |Words(arg, 0)|)
    ensures i <= |Words(arg, 0)| && ArgvOf(path, arg)[i] == Nth(path, arg, i)
  {
  }

  /**
    What the program finds at its stack pointer: argc, and behind it pointers that lead to its path and its words;
    read up to the NUL each is the argument exactly when that holds no NUL. The pointer to it all is a multiple
    of sixteen exactly when the stack top is a multiple of eight.
   */
  lemma ProgramSees(image: Image, path: Bytes, arg: Bytes, base: nat, i: nat)
    requires ImageOk(image, ArgvOf(path, arg), base) && i < Min(ARGV_MAX, 1 + |Words(arg, 0)|)
    ensures 8 * (i + 2) <= |image.bytes| && WordAt(image.bytes, 0) == Min(ARGV_MAX, 1 + |Words(arg, 0)|)
    ensures var p := WordAt(image.bytes, 8 * (i + 1)) - image.stackPointer;
            0 <= p < |image.bytes| && (CString(image.bytes, p) == Nth(path, arg, i) <==> 0 !in Nth(path, arg, i))
    ensures image.stackPointer % 16 == 0 <==> base % 8 == 0
  {
    hide ImageOk, ArgvOf, Words, CString, Placed, WordAt;
    SameArguments(path, arg, 0);
    SameArguments(path, arg, i);
    var argv := ArgvOf(path, arg);
    ReadBack(image, argv, base);
    PointerAligned(image, argv, base);
    var p := WordAt(image.bytes, 8 * (i + 1)) - image.stackPointer;
    assert Placed(image.bytes, argv[i], p);
    PlacedInside(image.bytes, argv[i], p);
    CStringIff(image.bytes, argv[i], p);
  }

  lemma PlacedInside(bytes: Bytes, item: Bytes, p: int)
    requires Placed(bytes, item, p)
    ensures 0 <= p < |bytes|
  {
  }

  /** The words of the arguments hold no NUL when the arguments hold none. */
  lemma {:induction false} NoNulInWords(arg: Bytes, i: nat)
    requires 0 !in arg && i <= |arg|
    ensures forall k | 0 <= k < |Words(arg, i)| :: 0 !in Words(arg, i)[k]
    decreases |arg| - i
  {
    var start := SkipSeparators(arg, i);
    if start < |arg| { NoNulInWords(arg, SkipWord(arg, start)); }
  }

  /** The first `n` words, taken from the iterator of the userland library. */
  method TakeWords(arg: Bytes, n: nat) returns (words: seq<Bytes>)
    ensures words == Words(arg, 0)[..Min(n, |Words(arg, 0)|)]
  {
    hide Words;
    var args := new Argv(arg);
    words := [];
    ghost var all := Words(arg, 0);
    for k := 0 to n
      invariant args.Valid() && args.bytes == arg && |words| == k && words + args.Rest() == all
    {
      ghost var rest := args.Rest();
      var word := args.NextArg();
      if word.None? {
        assert words + [] == words;
        return;
      }
      MoveOver(words, rest);
      words := words + [word.value];
    }
    assert words == (words + args.Rest())[..n];
  }

  lemma MoveOver(done: seq<Bytes>, rest: seq<Bytes>)
    requires rest != []
    ensures done + [rest[0]] + rest[1..] == done + rest
  {
  }

  /**
    From the call that builds the stack to what the program reads: without a NUL in path or arguments, the C
    strings behind the pointers are the path and the words the program's own iterator yields, up to eight in all.
   */
  method SeenByProgram(stackStart: nat, stackTop: nat, path: Bytes, arg: Bytes)
    returns (r: Result<UserInitialStack, ImageError>, seen: seq<Bytes>, words: seq<Bytes>)
    requires stackTop < U64
    ensures r.Ok? ==> (r.value.stackPointer % 16 == 0 <==> stackTop % 8 == 0)
    ensures r.Ok? ==> |seen| == Min(ARGV_MAX, 1 + |Words(arg, 0)|) && words == Words(arg, 0)[..|seen| - 1]
    ensures r.Ok? && 0 !in path && 0 !in arg ==> seen == [path] + words
  {
    hide ImageOk, ArgvOf, Words, CString, WordAt, Fits;
    seen, words := [], [];
    r := BuildUserInitialStack(stackStart, stackTop, path, arg);
    if r.Err? { return; }
    var image, base := Used(r.value), stackTop - STACK_IMAGE;
    ProgramSees(image, path, arg, base, 0);
    words := TakeWords(arg, ARGV_MAX - 1);
    var argc := WordAt(image.bytes, 0);
    if 0 !in arg { NoNulInWords(arg, 0); }
    for i := 0 to argc
      invariant |seen| == i
      invariant 0 !in path && 0 !in arg ==> forall k | 0 <= k < i :: seen[k] == Nth(path, arg, k)
    {
      ProgramSees(image, path, arg, base, i);
      seen := seen + [CString(image.bytes, WordAt(image.bytes, 8 * (i + 1)) - image.stackPointer)];
    }
  }

  /** The case with a NUL: the argument "a", NUL, "b" fits on every stack and is read as "a". */
  lemma NulCutsArgument(image: Image, base: nat)
    ensures Fits([[47], [97, 0, 98]], base)
    ensures ImageOk(image, [[47], [97, 0, 98]], base) ==>
              && 24 <= |image.bytes| && 0 <= WordAt(image.bytes, 16) - image.stackPointer <= |image.bytes|
              && CString(image.bytes, WordAt(image.bytes, 16) - image.stackPointer) == [97]
  {
    var argv: seq<Bytes> := [[47], [97, 0, 98]];
    assert Low(argv, 1) == 508 && Low(argv, 0) == 506;
    if ImageOk(image, argv, base) { SecondIsCut(image, argv, base); }
  }

  lemma SecondIsCut(image: Image, argv: seq<Bytes>, base: nat)
    requires argv == [[47], [97, 0, 98]] && ImageOk(image, argv, base)
    ensures 24 <= |image.bytes| && 0 <= WordAt(image.bytes, 16) - image.stackPointer <= |image.bytes|
    ensures CString(image.bytes, WordAt(image.bytes, 16) - image.stackPointer) == [97]
  {
    hide ImageOk, WordAt, Placed, CString;
    ReadBack(image, argv, base);
    var p := WordAt(image.bytes, 8 * (1 + 1)) - image.stackPointer;
    assert Placed(image.bytes, argv[1], p);
    CutAtNul(image.bytes, argv[1], p);
  }

  lemma CutAtNul(bytes: Bytes, item: Bytes, p: int)
    requires Placed(bytes, item, p) && item == [97, 0, 98]
    ensures 0 <= p <= |bytes| && CString(bytes, p) == [97]
  {
    assert bytes[p..p + 3][0] == 97 && bytes[p..p + 3][1] == 0;
    assert CString(bytes, p + 1) == [];
  }

  /** No case for the alignment: every stack top the kernel hands out is a multiple of eight. */
  lemma StackTopsAligned(j: nat)
    requires j < STACK_SLOTS
    ensures StackTop(j) >= STACK_IMAGE && (StackTop(j) - STACK_IMAGE) % 8 == 0
  {
  }
}
