/**
  The code-fence splitter of parseWAFormattingToHTML (pkg/msgconv/wa-text.go). Positions count
  characters; the source counts bytes of UTF-8, where an ASCII fence is found at the same places.
 */
module TextFences {
  import opened Transducers
  import opened TextBlocks
  import opened Wrappers

  const FENCE := "```"

  predicate FenceAt(s: string, i: int) {
    0 <= i && i + 3 <= |s| && s[i] == '`' && s[i + 1] == '`' && s[i + 2] == '`'
  }

  /** `i` is where the first fence from `from` on stands. */
  predicate FirstFence(s: string, from: int, i: int) {
    from <= i && FenceAt(s, i) && forall j :: from <= j < i ==> !FenceAt(s, j)
  }

  predicate NoFence(s: string, from: int) {
    forall j :: from <= j < |s| ==> !FenceAt(s, j)
  }

  /** strings.Index(s[from:], "```") */
  function Index(s: string, from: nat): (r: int)
    requires from <= |s|
    ensures -1 <= r
    ensures r >= 0 ==> FirstFence(s, from, from + r)
    ensures r < 0 ==> NoFence(s, from)
    decreases |s| - from
  {
    if FenceAt(s, from) then 0
    else if from == |s| then -1
    else
      var r := Index(s, from + 1);
      if r < 0 then -1 else r + 1
  }

  /** unicode.IsSpace */
  predicate IsSpace(c: char) {
    || c == '\t' || c == '\n' || c == '\r' || c == ' '
    || c == 0x0B as char || c == 0x0C as char || c == 0x85 as char || c == 0xA0 as char
    || c == 0x1680 as char || 0x2000 as char <= c <= 0x200A as char
    || c == 0x2028 as char || c == 0x2029 as char || c == 0x202F as char || c == 0x205F as char || c == 0x3000 as char
  }

  /** The white space of Unicode. */
  lemma SpacesAre(c: char)
    ensures IsSpace(c) <==>
              || c as int in {0x09, 0x0A, 0x0B, 0x0C, 0x0D, 0x20, 0x85, 0xA0, 0x1680}
              || c as int in {0x2028, 0x2029, 0x202F, 0x205F, 0x3000}
              || c as int - 0x2000 in {0, 1, 2, 3, 4, 5, 6, 7, 8, 9, 10}
  {
  }

  /** strings.TrimSpace(s[lo:hi]) == "" */
  predicate Blank(s: string, lo: nat, hi: nat)
    requires lo <= hi <= |s|
  {
    forall i :: lo <= i < hi ==> IsSpace(s[i])
  }

  /** A message taken apart: in each round a prefix, which can be empty, and a code block; then what is left. */
  datatype Pieces = Tail(text: string) | Round(prefix: string, code: string, rest: Pieces)

  // The block found from `ptr` on: from the opening fence to after the closing one.
  datatype Block = Block(start: nat, end: nat)

  predicate InText(text: string, ptr: nat, b: Block) {
    && ptr <= b.start && b.start + 6 <= b.end <= |text|
    && FenceAt(text, b.start) && FenceAt(text, b.end - 3)
  }

  /** The first fence after `open` comes at `j` with nothing before it, and the next one at `close`. */
  predicate Reopened(text: string, open: nat, j: int, close: int) {
    FirstFence(text, open, j) && Blank(text, open, j) && FirstFence(text, j + 3, close)
  }

  /** `close` is where a block ends whose content begins at `open`: at the first fence, or if there is nothing
      before that, at the one after it. */
  ghost predicate Closes(text: string, open: nat, close: int) {
    || (FirstFence(text, open, close) && !Blank(text, open, close))
    || exists j :: Reopened(text, open, j, close)
  }

  ghost predicate IsCode(text: string, ptr: nat, b: Block)
    requires InText(text, ptr, b)
  {
    FirstFence(text, ptr, b.start) && Closes(text, b.start + 3, b.end - 3)
  }

  /** No need to check more than once: a block is never blank. */
  lemma CodeIsNotBlank(text: string, ptr: nat, b: Block)
    requires InText(text, ptr, b) && IsCode(text, ptr, b)
    ensures !Blank(text, b.start + 3, b.end - 3)
  {
    var open, close := b.start + 3, b.end - 3;
    if !(FirstFence(text, open, close) && !Blank(text, open, close)) {
      var j :| Reopened(text, open, j, close);
      assert !IsSpace(text[j]);
    }
  }

  /** One round of the loop: the first fence, the next one after it, and if there is nothing between
      them the one after that. The position advances by at least the two fences. */
  function FindBlock(text: string, ptr: nat): (r: Option<Block>)
    requires ptr <= |text|
    ensures r.Some? ==> InText(text, ptr, r.value) && IsCode(text, ptr, r.value)
  {
    var start := Index(text, ptr);
    if start < 0 then None
    else
      var i := ptr + start;
      var len := Index(text, i + 3);
      if len < 0 then None
      else
        var e := i + 3 + len + 3;
        if !Blank(text, i + 3, e - 3) then Some(Block(i, e))
        else
          var more := Index(text, e);
          if more < 0 then None
          else
            assert Reopened(text, i + 3, e - 3, e + more);
            Some(Block(i, e + more + 3))
  }

  /** The code blocks of the text, in order. */
  function Blocks(text: string, ptr: nat): seq<Block>
    requires ptr <= |text|
    decreases |text| - ptr
  {
    var b := FindBlock(text, ptr);
    if b.None? then [] else [b.value] + Blocks(text, b.value.end)
  }

  /** Blocks that lie one after another. */
  predicate InOrder(text: string, ptr: nat, bs: seq<Block>)
    decreases |bs|
  {
    ptr <= |text| && (bs == [] || (InText(text, ptr, bs[0]) && InOrder(text, bs[0].end, bs[1..])))
  }

  function Cut(text: string, ptr: nat, bs: seq<Block>): Pieces
    requires InOrder(text, ptr, bs)
    decreases |bs|
  {
    if bs == [] then Tail(text[ptr..])
    else Round(text[ptr..bs[0].start], text[bs[0].start + 3..bs[0].end - 3], Cut(text, bs[0].end, bs[1..]))
  }

  lemma {:induction false} BlocksInOrder(text: string, ptr: nat)
    requires ptr <= |text|
    ensures InOrder(text, ptr, Blocks(text, ptr))
    decreases |text| - ptr
  {
    var b := FindBlock(text, ptr);
    if b.Some? {
      BlocksInOrder(text, b.value.end);
      assert Blocks(text, ptr)[1..] == Blocks(text, b.value.end);
    }
  }

  function Split(text: string): Pieces {
    BlocksInOrder(text, 0);
    Cut(text, 0, Blocks(text, 0))
  }

  /** The message put back together, with its fences. */
  function Join(ps: Pieces): string {
    match ps
    case Tail(t) => t
    case Round(prefix, code, rest) => prefix + (FENCE + code + FENCE) + Join(rest)
  }

  lemma FenceText(text: string, i: nat)
    requires FenceAt(text, i)
    ensures text[i..i + 3] == FENCE
  {
    assert text[i..i + 3] == [text[i], text[i + 1], text[i + 2]];
  }

  lemma ThreeSlices(text: string, i: nat, j: nat, k: nat, l: nat)
    requires i <= j <= k <= l <= |text|
    ensures text[i..j] + text[j..k] + text[k..l] == text[i..l]
  {
  }

  lemma CodeText(text: string, b: Block)
    requires InText(text, b.start, b)
    ensures FENCE + text[b.start + 3..b.end - 3] + FENCE == text[b.start..b.end]
  {
    FenceText(text, b.start);
    FenceText(text, b.end - 3);
    ThreeSlices(text, b.start, b.start + 3, b.end - 3, b.end);
  }

  lemma JoinSlices(text: string, i: nat, j: nat, k: nat)
    requires i <= j <= k <= |text|
    ensures text[i..j] + text[j..k] + text[k..] == text[i..]
  {
  }

  lemma RoundRejoins(text: string, ptr: nat, b: Block)
    requires InText(text, ptr, b)
    ensures text[ptr..b.start] + (FENCE + text[b.start + 3..b.end - 3] + FENCE) + text[b.end..] == text[ptr..]
  {
    CodeText(text, b);
    JoinSlices(text, ptr, b.start, b.end);
  }

  /** Splitting is exact: with their fences put back, the pieces rebuild the text. */
  lemma {:induction false} CutRejoins(text: string, ptr: nat, bs: seq<Block>)
    requires InOrder(text, ptr, bs)
    ensures Join(Cut(text, ptr, bs)) == text[ptr..]
    decreases |bs|
  {
    hide InText;
    if bs != [] {
      CutRejoins(text, bs[0].end, bs[1..]);
      RoundRejoins(text, ptr, bs[0]);
    }
  }

  /** The first two fences from `from` on that do not overlap. */
  predicate FencePair(s: string, from: int, i: int, j: int) {
    FirstFence(s, from, i) && FirstFence(s, i + 3, j)
  }

  /** A tail is only left whole if the first two fences in it enclose nothing and there is no third. */
  ghost predicate TailStops(s: string, from: nat) {
    forall i, j :: FencePair(s, from, i, j) ==> Blank(s, i + 3, j) && NoFence(s, j + 3)
  }

  /** A prefix goes up to the first fence and contains none; a code block is not blank and ends where it should;
      and what is left at the end is left because no block could be found in it. */
  ghost predicate WellSplit(ps: Pieces) {
    match ps
    case Tail(t) => TailStops(t, 0)
    case Round(prefix, code, rest) =>
      && NoFence(prefix, 0) && FirstFence(prefix + FENCE, 0, |prefix|)
      && !Blank(code, 0, |code|) && Closes(code + FENCE, 0, |code|)
      && WellSplit(rest)
  }

  lemma NoneMeansStops(text: string, ptr: nat)
    requires ptr <= |text| && FindBlock(text, ptr).None?
    ensures TailStops(text, ptr)
  {
    forall i, j | FencePair(text, ptr, i, j) ensures Blank(text, i + 3, j) && NoFence(text, j + 3) {
      assert ptr + Index(text, ptr) == i;
      assert i + 3 + Index(text, i + 3) == j;
    }
  }

  /** Fences and blanks of a slice are those of the text. */
  lemma SliceFence(text: string, lo: nat, hi: nat, from: nat, i: int)
    requires lo <= hi <= |text| && i + 3 <= hi - lo
    ensures FirstFence(text[lo..hi], from, i) <==> FirstFence(text, lo + from, lo + i)
  {
    var s := text[lo..hi];
    assert forall j :: 0 <= j && j + 3 <= hi - lo ==> (FenceAt(s, j) <==> FenceAt(text, lo + j));
    if FirstFence(s, from, i) {
      forall j | lo + from <= j < lo + i ensures !FenceAt(text, j) {
        assert !FenceAt(s, j - lo);
      }
    }
  }

  lemma SliceBlank(text: string, lo: nat, hi: nat, i: nat, j: nat)
    requires lo <= hi <= |text| && i <= j <= hi - lo
    ensures Blank(text[lo..hi], i, j) <==> Blank(text, lo + i, lo + j)
  {
    if Blank(text[lo..hi], i, j) {
      forall k | lo + i <= k < lo + j ensures IsSpace(text[k]) {
        assert IsSpace(text[lo..hi][k - lo]);
      }
    }
  }

  lemma SliceReopened(text: string, lo: nat, hi: nat, j: nat)
    requires lo + j + 3 <= hi <= |text|
    ensures Reopened(text[lo..hi], 0, j, hi - lo - 3) <==> Reopened(text, lo, lo + j, hi - 3)
  {
    hide FirstFence, Blank;
    SliceFence(text, lo, hi, 0, j);
    SliceBlank(text, lo, hi, 0, j);
    SliceFence(text, lo, hi, j + 3, hi - lo - 3);
  }

  lemma ReopenedFits(text: string, open: nat, j: int, close: int)
    requires Reopened(text, open, j, close)
    ensures open <= j && j + 3 <= close
  {
  }

  lemma SliceCloses(text: string, lo: nat, hi: nat)
    requires lo + 3 <= hi <= |text|
    ensures Closes(text[lo..hi], 0, hi - lo - 3) <==> Closes(text, lo, hi - 3)
  {
    hide Reopened, FirstFence;
    var s, close := text[lo..hi], hi - lo - 3;
    SliceFence(text, lo, hi, 0, close);
    SliceBlank(text, lo, hi, 0, close);
    if exists j :: Reopened(s, 0, j, close) {
      var j :| Reopened(s, 0, j, close);
      ReopenedFits(s, 0, j, close);
      SliceReopened(text, lo, hi, j);
    }
    var end := hi - 3;
    if exists j :: Reopened(text, lo, j, end) {
      var j :| Reopened(text, lo, j, end);
      ReopenedFits(text, lo, j, end);
      SliceReopened(text, lo, hi, j - lo);
    }
  }

  lemma TailStopsShift(text: string, ptr: nat)
    requires ptr <= |text| && TailStops(text, ptr)
    ensures TailStops(text[ptr..], 0)
  {
    var s := text[ptr..];
    assert s == text[ptr..|text|];
    forall i, j | FencePair(s, 0, i, j) ensures Blank(s, i + 3, j) && NoFence(s, j + 3) {
      SliceFence(text, ptr, |text|, 0, i);
      SliceFence(text, ptr, |text|, i + 3, j);
      assert FencePair(text, ptr, ptr + i, ptr + j);
      SliceBlank(text, ptr, |text|, i + 3, j);
      forall k | j + 3 <= k < |s| ensures !FenceAt(s, k) {
        assert !FenceAt(text, ptr + k);
      }
    }
  }

  lemma PrefixHasNoFence(text: string, ptr: nat, i: nat)
    requires ptr <= i <= |text| && FirstFence(text, ptr, i)
    ensures NoFence(text[ptr..i], 0)
  {
    forall j | 0 <= j < i - ptr ensures !FenceAt(text[ptr..i], j) {
      assert !FenceAt(text, ptr + j);
    }
  }

  lemma ContentNotBlank(text: string, lo: nat, hi: nat)
    requires lo <= hi <= |text| && !Blank(text, lo, hi)
    ensures !Blank(text[lo..hi], 0, hi - lo)
  {
    var i :| lo <= i < hi && !IsSpace(text[i]);
    assert text[lo..hi][i - lo] == text[i];
  }

  /** Each block is where the fences put it; after the last one none can be found. */
  ghost predicate Exact(text: string, ptr: nat, bs: seq<Block>)
    requires InOrder(text, ptr, bs)
    decreases |bs|
  {
    if bs == [] then TailStops(text, ptr)
    else IsCode(text, ptr, bs[0]) && Exact(text, bs[0].end, bs[1..])
  }

  lemma {:induction false} BlocksExact(text: string, ptr: nat)
    requires ptr <= |text| && InOrder(text, ptr, Blocks(text, ptr))
    ensures Exact(text, ptr, Blocks(text, ptr))
    decreases |text| - ptr
  {
    var b := FindBlock(text, ptr);
    if b.None? {
      NoneMeansStops(text, ptr);
    } else {
      assert Blocks(text, ptr)[1..] == Blocks(text, b.value.end);
      BlocksExact(text, b.value.end);
    }
  }

  lemma BeforeFence(text: string, lo: nat, i: nat)
    requires lo <= i && FenceAt(text, i)
    ensures text[lo..i] + FENCE == text[lo..i + 3]
  {
    FenceText(text, i);
    assert text[lo..i] + text[i..i + 3] == text[lo..i + 3];
  }

  lemma RoundIsWellSplit(text: string, ptr: nat, b: Block)
    requires InText(text, ptr, b) && IsCode(text, ptr, b)
    ensures var prefix, code := text[ptr..b.start], text[b.start + 3..b.end - 3];
            && NoFence(prefix, 0) && FirstFence(prefix + FENCE, 0, |prefix|)
            && !Blank(code, 0, |code|) && Closes(code + FENCE, 0, |code|)
  {
    hide Closes;
    CodeIsNotBlank(text, ptr, b);
    PrefixHasNoFence(text, ptr, b.start);
    ContentNotBlank(text, b.start + 3, b.end - 3);
    BeforeFence(text, ptr, b.start);
    BeforeFence(text, b.start + 3, b.end - 3);
    SliceFence(text, ptr, b.start + 3, 0, b.start - ptr);
    SliceCloses(text, b.start + 3, b.end);
  }

  lemma {:induction false} CutWellSplit(text: string, ptr: nat, bs: seq<Block>)
    requires InOrder(text, ptr, bs) && Exact(text, ptr, bs)
    ensures WellSplit(Cut(text, ptr, bs))
    decreases |bs|
  {
    hide FirstFence, Closes, NoFence, Blank, TailStops, InText, FindBlock;
    if bs == [] {
      TailStopsShift(text, ptr);
    } else {
      CutWellSplit(text, bs[0].end, bs[1..]);
      RoundIsWellSplit(text, ptr, bs[0]);
    }
  }

  // --- There is only one such split ---

  lemma IndexIs(text: string, from: nat, i: int)
    requires FirstFence(text, from, i)
    ensures from <= |text| && from + Index(text, from) == i
  {
  }

  lemma FoundAtSecond(text: string, ptr: nat, b: Block, j: int)
    requires InText(text, ptr, b) && b.start + 3 <= j && j + 3 <= b.end - 3 && Blank(text, b.start + 3, j)
    requires ptr + Index(text, ptr) == b.start
    requires b.start + 3 + Index(text, b.start + 3) == j && j + 3 + Index(text, j + 3) == b.end - 3
    ensures FindBlock(text, ptr) == Some(b)
  {
    hide Index, Blank;
  }

  lemma FoundAtOnce(text: string, ptr: nat, b: Block)
    requires InText(text, ptr, b) && !Blank(text, b.start + 3, b.end - 3)
    requires ptr + Index(text, ptr) == b.start && b.start + 3 + Index(text, b.start + 3) == b.end - 3
    ensures FindBlock(text, ptr) == Some(b)
  {
    hide Index, Blank;
  }

  /** The block found is the only one that is where the fences put it. */
  lemma FindBlockIs(text: string, ptr: nat, b: Block)
    requires InText(text, ptr, b) && IsCode(text, ptr, b)
    ensures FindBlock(text, ptr) == Some(b)
  {
    var open, close := b.start + 3, b.end - 3;
    IndexIs(text, ptr, b.start);
    if FirstFence(text, open, close) && !Blank(text, open, close) {
      IndexIs(text, open, close);
      FoundAtOnce(text, ptr, b);
    } else {
      var j :| Reopened(text, open, j, close);
      IndexIs(text, open, j);
      IndexIs(text, j + 3, close);
      FoundAtSecond(text, ptr, b, j);
    }
  }

  lemma PairInTail(text: string, ptr: nat, i: int, j: int)
    requires ptr <= |text| && TailStops(text[ptr..], 0) && FencePair(text, ptr, i, j)
    ensures Blank(text, i + 3, j) && NoFence(text[ptr..], j - ptr + 3)
  {
    var s := text[ptr..];
    assert s == text[ptr..|text|];
    SliceFence(text, ptr, |text|, 0, i - ptr);
    SliceFence(text, ptr, |text|, i + 3 - ptr, j - ptr);
    assert FencePair(s, 0, i - ptr, j - ptr);
    SliceBlank(text, ptr, |text|, i + 3 - ptr, j - ptr);
  }

  lemma StopsMeansNone(text: string, ptr: nat)
    requires ptr <= |text| && TailStops(text[ptr..], 0)
    ensures FindBlock(text, ptr).None?
  {
    var found := FindBlock(text, ptr);
    if found.Some? {
      var b := found.value;
      var open, close := b.start + 3, b.end - 3;
      if FirstFence(text, open, close) && !Blank(text, open, close) {
        PairInTail(text, ptr, b.start, close);
      } else {
        var j :| Reopened(text, open, j, close);
        PairInTail(text, ptr, b.start, j);
        assert FenceAt(text[ptr..], close - ptr);
      }
      assert false;
    }
  }

  /** A text put together from a prefix, a block and the rest has them in these places. */
  lemma Placed(text: string, ptr: nat, prefix: string, code: string, rest: string)
    requires ptr <= |text| && text[ptr..] == prefix + (FENCE + code + FENCE) + rest
    ensures var b := Block(ptr + |prefix|, ptr + |prefix| + |code| + 6);
            && InText(text, ptr, b) && text[ptr..b.start] == prefix
            && text[b.start + 3..b.end - 3] == code && text[b.end..] == rest
  {
    var s, n := text[ptr..], |prefix|;
    assert s[..n] == prefix && s[n..n + 3] == FENCE && s[n + 3..n + 3 + |code|] == code;
    assert s[n + 3 + |code|..n + 6 + |code|] == FENCE && s[n + 6 + |code|..] == rest;
    assert FenceAt(s, n) && FenceAt(s, n + 3 + |code|);
  }

  lemma PlacedIsCode(text: string, ptr: nat, b: Block)
    requires InText(text, ptr, b)
    requires FirstFence(text[ptr..b.start] + FENCE, 0, b.start - ptr)
    requires Closes(text[b.start + 3..b.end - 3] + FENCE, 0, b.end - b.start - 6)
    ensures IsCode(text, ptr, b)
  {
    hide Closes;
    BeforeFence(text, ptr, b.start);
    BeforeFence(text, b.start + 3, b.end - 3);
    SliceFence(text, ptr, b.start + 3, 0, b.start - ptr);
    SliceCloses(text, b.start + 3, b.end);
  }

  lemma RoundIsFound(text: string, ptr: nat, prefix: string, code: string, rest: string)
    requires ptr <= |text| && text[ptr..] == prefix + (FENCE + code + FENCE) + rest
    requires FirstFence(prefix + FENCE, 0, |prefix|) && Closes(code + FENCE, 0, |code|)
    ensures var b := Block(ptr + |prefix|, ptr + |prefix| + |code| + 6);
            && FindBlock(text, ptr) == Some(b) && b.end <= |text| && text[b.end..] == rest
            && text[ptr..b.start] == prefix && text[b.start + 3..b.end - 3] == code
  {
    hide FirstFence, Closes, FindBlock, IsCode;
    var b := Block(ptr + |prefix|, ptr + |prefix| + |code| + 6);
    Placed(text, ptr, prefix, code, rest);
    PlacedIsCode(text, ptr, b);
    FindBlockIs(text, ptr, b);
  }

  /** However a text is split well into pieces that rebuild it, it is the split of the loop. */
  lemma {:induction false} WellSplitIsCut(text: string, ptr: nat, ps: Pieces)
    requires ptr <= |text| && Join(ps) == text[ptr..] && WellSplit(ps)
    ensures InOrder(text, ptr, Blocks(text, ptr)) && ps == Cut(text, ptr, Blocks(text, ptr))
    decreases ps
  {
    hide FirstFence, Closes, FindBlock, NoFence, Blank, TailStops;
    BlocksInOrder(text, ptr);
    match ps
    case Tail(t) => StopsMeansNone(text, ptr);
    case Round(prefix, code, rest) =>
      RoundIsFound(text, ptr, prefix, code, Join(rest));
      var b := FindBlock(text, ptr).value;
      WellSplitIsCut(text, b.end, rest);
      assert Blocks(text, ptr)[0] == b && Blocks(text, ptr)[1..] == Blocks(text, b.end);
  }

  /** So the split is determined by what it should be: it is the only one that is well split and rebuilds the text. */
  lemma SplitIsUnique(text: string, ps: Pieces)
    ensures Join(ps) == text && WellSplit(ps) <==> ps == Split(text)
  {
    var bs := Blocks(text, 0);
    BlocksInOrder(text, 0);
    BlocksExact(text, 0);
    CutWellSplit(text, 0, bs);
    CutRejoins(text, 0, bs);
    if Join(ps) == text && WellSplit(ps) {
      WellSplitIsCut(text, 0, ps);
    }
  }

  // --- The whole message ---

  function TextTokens(text: string): seq<Token> {
    if text == "" then [] else Segment(text)
  }

  function CodeToken(code: string): Token {
    if '\n' in code then Pre(code) else Code(code)
  }

  function PiecesTokens(ps: Pieces): seq<Token> {
    match ps
    case Tail(t) => TextTokens(t)
    case Round(prefix, code, rest) => TextTokens(prefix) + ([CodeToken(code)] + PiecesTokens(rest))
  }

  lemma Regroup(a: seq<Token>, b: seq<Token>, c: seq<Token>, d: seq<Token>)
    ensures a + (b + (c + d)) == (a + b) + c + d
  {
  }

  lemma RoundTokens(output: seq<Token>, text: string, ptr: nat, bs: seq<Block>)
    requires InOrder(text, ptr, bs) && bs != []
    ensures output + PiecesTokens(Cut(text, ptr, bs))
         == output + TextTokens(text[ptr..bs[0].start]) + [CodeToken(text[bs[0].start + 3..bs[0].end - 3])]
            + PiecesTokens(Cut(text, bs[0].end, bs[1..]))
  {
    Regroup(output, TextTokens(text[ptr..bs[0].start]), [CodeToken(text[bs[0].start + 3..bs[0].end - 3])],
            PiecesTokens(Cut(text, bs[0].end, bs[1..])));
  }

  /** The index arithmetic of one round; None is one of the three breaks. */
  method NextBlock(text: string, codeBlockPtr: nat) returns (b: Option<Block>)
    requires codeBlockPtr <= |text|
    ensures b == FindBlock(text, codeBlockPtr)
  {
    var relativeStartIdx := Index(text, codeBlockPtr);
    if relativeStartIdx < 0 { return None; }
    var absStartIdx := codeBlockPtr + relativeStartIdx;
    var relativeEndIdx := Index(text, absStartIdx + 3);
    if relativeEndIdx < 0 { return None; }
    var absEndIdx := absStartIdx + 3 + relativeEndIdx + 3;
    if Blank(text, absStartIdx + 3, absEndIdx - 3) {
      relativeEndIdx := Index(text, absEndIdx);
      if relativeEndIdx < 0 { return None; }
      absEndIdx := absEndIdx + relativeEndIdx + 3;
    }
    b := Some(Block(absStartIdx, absEndIdx));
  }

  /** Text outside code blocks is only parsed when there is some. */
  method WriteText(text: string, before: seq<Token>) returns (output: seq<Token>)
    ensures output == before + TextTokens(text)
  {
    output := before;
    if text != "" {
      output := ParseSegment(text, output);
    }
  }

  /** Writes the text before a code block, and the block. */
  method WriteBlock(text: string, codeBlockPtr: nat, b: Block, before: seq<Token>) returns (output: seq<Token>)
    requires InText(text, codeBlockPtr, b)
    ensures output == before + TextTokens(text[codeBlockPtr..b.start]) + [CodeToken(text[b.start + 3..b.end - 3])]
  {
    output := WriteText(text[codeBlockPtr..b.start], before);
    var content := text[b.start + 3..b.end - 3];
    if '\n' in content {
      output := output + [Pre(content)];
    } else {
      output := output + [Code(content)];
    }
  }

  /** What is still to be written from `ptr` on. */
  ghost function Todo(text: string, ptr: nat): seq<Token>
    requires ptr <= |text|
  {
    BlocksInOrder(text, ptr);
    PiecesTokens(Cut(text, ptr, Blocks(text, ptr)))
  }

  lemma TodoRound(output: seq<Token>, text: string, ptr: nat, b: Block)
    requires ptr <= |text| && FindBlock(text, ptr) == Some(b)
    ensures output + Todo(text, ptr)
         == output + TextTokens(text[ptr..b.start]) + [CodeToken(text[b.start + 3..b.end - 3])] + Todo(text, b.end)
  {
    hide FindBlock, PiecesTokens, TextTokens, Cut, InText, CodeToken;
    BlocksInOrder(text, ptr);
    assert Blocks(text, ptr)[1..] == Blocks(text, b.end);
    RoundTokens(output, text, ptr, Blocks(text, ptr));
  }

  lemma TodoTail(text: string, ptr: nat)
    requires ptr <= |text| && FindBlock(text, ptr).None?
    ensures Todo(text, ptr) == TextTokens(text[ptr..])
  {
  }

  lemma TodoFromStart(text: string)
    ensures Todo(text, 0) == PiecesTokens(Split(text))
  {
  }

  /** parseWAFormattingToHTML. */
  method ParseFormatting(text: string) returns (output: seq<Token>)
    ensures output == PiecesTokens(Split(text))
  {
    hide FindBlock, TextTokens, CodeToken, Todo;
    TodoFromStart(text);
    output := [];
    var codeBlockPtr := 0;
    while true
      invariant 0 <= codeBlockPtr <= |text|
      invariant output + Todo(text, codeBlockPtr) == Todo(text, 0)
      decreases |text| - codeBlockPtr
    {
      var found := NextBlock(text, codeBlockPtr);
      if found.None? { break; }
      TodoRound(output, text, codeBlockPtr, found.value);
      output := WriteBlock(text, codeBlockPtr, found.value, output);
      codeBlockPtr := found.value.end;
    }
    TodoTail(text, codeBlockPtr);
    output := WriteText(text[codeBlockPtr..], output);
  }

  function TextShown(text: string): seq<Shown> {
    if text == "" then [] else Image(Meaning, Image(Classify, Lines(text)))
  }

  /** Code of more than one line is a block, other code is part of its line. */
  function CodeShown(code: string): Shown {
    if exists i :: 0 <= i < |code| && code[i] == '\n' then CodeBlock(code) else InlineCode(code)
  }

  function PiecesShown(ps: Pieces): seq<Shown> {
    match ps
    case Tail(t) => TextShown(t)
    case Round(prefix, code, rest) => TextShown(prefix) + ([CodeShown(code)] + PiecesShown(rest))
  }

  lemma TextReads(text: string)
    ensures ReadState(Flow(false), TextTokens(text)).Flow?
    ensures ReadShown(Flow(false), TextTokens(text)) == TextShown(text)
  {
    if text == "" {
      FoldNone(ReadToken, Flow(false));
    } else {
      SegmentReads(text);
    }
  }

  /** Code closes a line that text before it left open. */
  lemma CodeReads(open: bool, code: string)
    ensures ReadState(Flow(open), [CodeToken(code)]) == Flow(false)
    ensures ReadShown(Flow(open), [CodeToken(code)]) == [CodeShown(code)]
  {
    FoldOne(ReadToken, Flow(open), CodeToken(code));
  }

  lemma {:induction false} PiecesRead(ps: Pieces)
    ensures ReadState(Flow(false), PiecesTokens(ps)).Flow?
    ensures ReadShown(Flow(false), PiecesTokens(ps)) == PiecesShown(ps)
  {
    match ps
    case Tail(t) => TextReads(t);
    case Round(prefix, code, rest) =>
      TextReads(prefix);
      var afterText := ReadState(Flow(false), TextTokens(prefix));
      CodeReads(afterText.open, code);
      PiecesRead(rest);
      FoldConcat(ReadToken, afterText, [CodeToken(code)], PiecesTokens(rest));
      FoldConcat(ReadToken, Flow(false), TextTokens(prefix), [CodeToken(code)] + PiecesTokens(rest));
  }

  /** Every message, code blocks and all: the output is well-formed, no list is left open or nested, and it
      shows exactly the source's lines and code blocks in order, ordered items under their own numbers. */
  lemma MessageReads(text: string)
    ensures ReadState(Flow(false), PiecesTokens(Split(text))).Flow?
    ensures ReadShown(Flow(false), PiecesTokens(Split(text))) == PiecesShown(Split(text))
    ensures forall ps :: Join(ps) == text && WellSplit(ps) <==> ps == Split(text)
  {
    PiecesRead(Split(text));
    forall ps ensures Join(ps) == text && WellSplit(ps) <==> ps == Split(text) {
      SplitIsUnique(text, ps);
    }
  }
}
