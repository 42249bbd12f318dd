/**
  The line-by-line list machine of parseWASubFormattingToHTML (pkg/msgconv/wa-text.go). Output is a
  sequence of tokens, one for each fragment the source writes; inline formatting of a line's text is
  left uninterpreted, so tokens carry the text itself. The result is judged by reading the tokens the
  way an HTML user agent does: sections 4.4.5 to 4.4.8 of the HTML Living Standard for lists.
 */
module TextBlocks {
  import opened Decimals
  import opened Transducers
  import opened Wrappers

  datatype Token =
    | UlOpen | UlClose
    | OlOpen(start: Option<string>) | OlClose
    | Li(value: Option<string>, text: string)
    | Br
    | BlockQuote(text: string)
    | Text(text: string)
    | Code(text: string) | Pre(text: string)

  // --- Lines ---

  /** strings.Split(text, "\n") */
  function Lines(text: string): (r: seq<string>)
    ensures r != []
  {
    if text == [] then [[]]
    else
      var c, n := text[|text| - 1], |text| - 1;
      var init := Lines(text[..n]);
      if c == '\n' then init + [[]] else init[|init| - 1 := init[|init| - 1] + [c]]
  }

  function JoinLines(lines: seq<string>): string {
    if lines == [] then []
    else if |lines| == 1 then lines[0]
    else JoinLines(lines[..|lines| - 1]) + "\n" + lines[|lines| - 1]
  }

  lemma JoinLast(lines: seq<string>, last: string)
    requires lines != []
    ensures JoinLines(lines + [last]) == JoinLines(lines) + "\n" + last
  {
    assert (lines + [last])[..|lines|] == lines;
  }

  /** A longer last line is a longer text. */
  lemma JoinLonger(lines: seq<string>, c: char)
    requires lines != []
    ensures JoinLines(lines[|lines| - 1 := lines[|lines| - 1] + [c]]) == JoinLines(lines) + [c]
  {
    var init, last := lines[..|lines| - 1], lines[|lines| - 1];
    if init != [] {
      assert lines == init + [last] && lines[|lines| - 1 := last + [c]] == init + [last + [c]];
      JoinLast(init, last);
      JoinLast(init, last + [c]);
      assert JoinLines(init) + "\n" + last + [c] == JoinLines(init) + "\n" + (last + [c]);
    }
  }

  lemma JoinOne(line: string)
    ensures JoinLines([line]) == line
  {
  }

  /** Splitting loses nothing. */
  lemma {:induction false} LinesRejoin(text: string)
    ensures JoinLines(Lines(text)) == text
    ensures forall i :: 0 <= i < |Lines(text)| ==> '\n' !in Lines(text)[i]
    decreases |text|
  {
    hide JoinLines;
    if text == [] {
      JoinOne([]);
    } else {
      var c, n := text[|text| - 1], |text| - 1;
      LinesRejoin(text[..n]);
      assert text == text[..n] + [c];
      if c == '\n' {
        JoinLast(Lines(text[..n]), []);
      } else {
        JoinLonger(Lines(text[..n]), c);
      }
    }
  }

  /** How many digits the pattern `^(\d{1,2})\. ` captures, or 0 if it does not match. */
  function OrderedDigits(line: string): (n: nat)
    ensures n <= 2 && (n > 0 ==> n + 2 <= |line| && AllDigits(line[..n]) && line[n..n + 2] == ". ")
  {
    if |line| >= 3 && Digit(line[0]) && line[1..3] == ". " then 1
    else if |line| >= 4 && Digit(line[0]) && Digit(line[1]) && line[2..4] == ". " then 2
    else 0
  }

  // What a source line says.
  datatype Line =
    | Bullet(text: string) | Ordered(digits: Digits, text: string) | Quoted(text: string) | Plain(text: string)

  function Classify(line: string): Line {
    if "* " <= line || "- " <= line then Bullet(line[2..])
    else if OrderedDigits(line) > 0 then Ordered(line[..OrderedDigits(line)], line[OrderedDigits(line) + 2..])
    else if "> " <= line then Quoted(line[2..])
    else Plain(line)
  }

  predicate IsBullet(line: string) {
    |line| >= 2 && (line[0] == '*' || line[0] == '-') && line[1] == ' '
  }

  predicate IsQuote(line: string) {
    |line| >= 2 && line[0] == '>' && line[1] == ' '
  }

  /** One or two digits, a full stop, a space and the text. */
  predicate IsItem(line: string, digits: string, text: string) {
    1 <= |digits| <= 2 && AllDigits(digits) && line == digits + ". " + text
  }

  lemma BulletLine(line: string)
    ensures Classify(line).Bullet? <==> IsBullet(line)
    ensures IsBullet(line) ==> Classify(line) == Bullet(line[2..])
  {
  }

  lemma MatchIsItem(line: string)
    ensures var n := OrderedDigits(line); n > 0 ==> IsItem(line, line[..n], line[n + 2..])
  {
    var n := OrderedDigits(line);
    if n > 0 {
      assert line == line[..n] + line[n..n + 2] + line[n + 2..];
    }
  }

  lemma ItemIsMatch(line: string, digits: string, text: string)
    requires IsItem(line, digits, text)
    ensures OrderedDigits(line) == |digits| && line[..|digits|] == digits && line[|digits| + 2..] == text
  {
    var n := |digits|;
    assert line[..n] == digits && line[n..n + 2] == ". " && line[n + 2..] == text;
    assert Digit(digits[0]) && line[0] == digits[0] && line[n] == '.';
    if n == 2 {
      assert Digit(digits[1]) && line[1] == digits[1];
      assert line[1..3][0] == line[1];
    }
  }

  /** What kind of line each line is: a bullet by its first two characters, an item by its number, a quote by its
      first two characters, and plain if it is none of these. */
  lemma LineKinds(line: string, digits: string, text: string)
    ensures Classify(line).Bullet? <==> IsBullet(line)
    ensures IsBullet(line) ==> Classify(line) == Bullet(line[2..])
    ensures IsItem(line, digits, text) <==>
              Classify(line).Ordered? && Classify(line).digits == digits && Classify(line).text == text
    ensures Classify(line).Quoted? <==> IsQuote(line)
    ensures IsQuote(line) ==> Classify(line) == Quoted(line[2..])
    ensures Classify(line).Plain? ==> Classify(line) == Plain(line)
  {
    BulletLine(line);
    MatchIsItem(line);
    if IsItem(line, digits, text) {
      ItemIsMatch(line, digits, text);
      assert Digit(line[0]) by { assert line[0] == digits[0]; }
    }
    if IsQuote(line) {
      assert line[..2] == "> ";
    }
  }

  // --- The list machine ---

  // The three variables, and whether the next line is the first.
  datatype State = State(orderedListIdx: int, inBulletedList: bool, wasBlockQuote: bool, first: bool)

  const START := State(-1, false, false, true)

  function CloseList(s: State): seq<Token> {
    if s.orderedListIdx >= 0 then [OlClose] else if s.inBulletedList then [UlClose] else []
  }

  function LineBreak(s: State): seq<Token> {
    if !s.first && s.orderedListIdx < 0 && !s.inBulletedList && !s.wasBlockQuote then [Br] else []
  }

  function NextState(l: Line): State {
    match l
    case Bullet(_) => State(-1, true, false, false)
    case Ordered(d, _) => State(Number(d), false, false, false)
    case Quoted(_) => State(-1, false, true, false)
    case Plain(_) => State(-1, false, false, false)
  }

  function LineTokens(s: State, l: Line): seq<Token> {
    match l
    case Bullet(t) =>
      (if s.orderedListIdx >= 0 then [OlClose] else [])
      + (if s.inBulletedList then [] else [UlOpen]) + [Li(None, t)]
    case Ordered(d, t) =>
      var n := Number(d);
      var idx := if s.orderedListIdx < 0 then n - 1 else s.orderedListIdx;
      (if s.inBulletedList then [UlClose] else [])
      + (if s.orderedListIdx >= 0 then [] else [OlOpen(if n == 1 then None else Some(d))])
      + [Li(if idx + 1 == n then None else Some(d), t)]
    case Quoted(t) => CloseList(s) + [BlockQuote(t)]
    case Plain(t) => CloseList(s) + [Text(t)]
  }

  function WriteLine(s: State, l: Line): (State, seq<Token>) {
    (NextState(l), LineBreak(s) + LineTokens(s, l))
  }

  function Segment(text: string): seq<Token> {
    var ls := Image(Classify, Lines(text));
    FoldOut(WriteLine, START, ls) + CloseList(FoldState(WriteLine, START, ls))
  }

  /** The three variables are as the loop leaves them. */
  predicate Sane(s: State) {
    s.orderedListIdx >= -1 && !(s.orderedListIdx >= 0 && s.inBulletedList)
  }

  /** The branch for a line that matches orderedListItemRegex. */
  method ParseOrdered(digits: Digits, text: string, s: State) returns (output: seq<Token>, orderedListIdx: int)
    requires Sane(s)
    ensures output == LineTokens(s, Ordered(digits, text)) && orderedListIdx == Number(digits)
  {
    output, orderedListIdx := [], s.orderedListIdx;
    if s.inBulletedList {
      output := [UlClose];
    }
    var newIndex: int := Number(digits);
    if orderedListIdx < 0 {
      if newIndex != 1 {
        output := output + [OlOpen(Some(digits))];
      } else {
        output := output + [OlOpen(None)];
      }
      orderedListIdx := newIndex - 1;
    }
    if orderedListIdx + 1 != newIndex {
      output := output + [Li(Some(digits), text)];
    } else {
      output := output + [Li(None, text)];
    }
    orderedListIdx := newIndex;
  }

  /** The body of the loop: one line, given and giving back the three variables. */
  method ParseLine(line: string, s: State) returns (output: seq<Token>, next: State)
    requires Sane(s)
    ensures (next, output) == WriteLine(s, Classify(line)) && Sane(next) && !next.first
  {
    var orderedListIdx, inBulletedList, wasBlockQuote;
    output, orderedListIdx, inBulletedList, wasBlockQuote := [], s.orderedListIdx, s.inBulletedList, false;
    if "* " <= line || "- " <= line {
      assert Classify(line) == Bullet(line[2..]);
      if orderedListIdx >= 0 {
        orderedListIdx := -1;
        output := [OlClose];
      }
      if !inBulletedList {
        output := output + [UlOpen];
        inBulletedList := true;
      }
      output := output + [Li(None, line[2..])];
    } else if OrderedDigits(line) > 0 {
      output, orderedListIdx := ParseOrdered(line[..OrderedDigits(line)], line[OrderedDigits(line) + 2..], s);
      inBulletedList := false;
    } else {
      if orderedListIdx >= 0 {
        orderedListIdx := -1;
        output := [OlClose];
      } else if inBulletedList {
        output := [UlClose];
        inBulletedList := false;
      }
      if "> " <= line {
        output := output + [BlockQuote(line[2..])];
        wasBlockQuote := true;
      } else {
        output := output + [Text(line)];
      }
    }
    assert output == LineTokens(s, Classify(line));
    if !s.first && s.orderedListIdx < 0 && !s.inBulletedList && !s.wasBlockQuote {
      output := [Br] + output;
    }
    assert output == LineBreak(s) + LineTokens(s, Classify(line));
    next := State(orderedListIdx, inBulletedList, wasBlockQuote, false);
  }

  lemma Reassociate(a: seq<Token>, b: seq<Token>, c: seq<Token>)
    ensures a + b + c == a + (b + c)
  {
  }

  /** parseWASubFormattingToHTML. */
  method ParseSegment(text: string, before: seq<Token>) returns (output: seq<Token>)
    ensures output == before + Segment(text)
  {
    output := before;
    var lines := Lines(text);
    ghost var ls := Image(Classify, lines);
    var s := START;
    for i := 0 to |lines|
      invariant FoldState(WriteLine, START, ls[..i]) == s
      invariant output == before + FoldOut(WriteLine, START, ls[..i])
      invariant Sane(s)
    {
      FoldExtends(WriteLine, START, ls, i);
      var tokens;
      tokens, s := ParseLine(lines[i], s);
      Reassociate(before, FoldOut(WriteLine, START, ls[..i]), tokens);
      output := output + tokens;
    }
    assert ls[..|lines|] == ls;
    Reassociate(before, FoldOut(WriteLine, START, ls), CloseList(s));
    if s.orderedListIdx >= 0 {
      output := output + [OlClose];
    } else if s.inBulletedList {
      output := output + [UlClose];
    }
  }

  // --- Reading the output as HTML ---

  // What a user agent presents: one entry per item, quote, run of text or code block.
  datatype Shown =
    | BulletItem(text: string) | NumberedItem(ordinal: int, text: string)
    | Quotation(text: string) | TextLine(text: string)
    | InlineCode(text: string) | CodeBlock(text: string)

  // Where the reader is. In flow content `open` says that a run of text has not been ended by a break.
  // In a list `items` counts the items so far; `next` is the ordinal the next item gets without a value.
  datatype Reader = Flow(open: bool) | InUl(items: nat) | InOl(next: int, items: nat) | Malformed

  /** The value of a start or value attribute. */
  function Attribute(s: Option<string>, default: int): Option<int> {
    if s.None? then Some(default) else if AllDigits(s.value) && s.value != [] then Some(Number(s.value)) else None
  }

  /** One token. Lists open only in flow content and are never nested or empty, items occur only in lists,
      everything else only in flow content, and a run of text must be broken before anything but code. */
  function ReadToken(r: Reader, t: Token): (Reader, seq<Shown>) {
    match (r, t)
    case (Flow(false), UlOpen) => (InUl(0), [])
    case (Flow(false), OlOpen(start)) =>
      var a := Attribute(start, 1);
      (if a.Some? then InOl(a.value, 0) else Malformed, [])
    case (InUl(items), Li(None, text)) => (InUl(items + 1), [BulletItem(text)])
    case (InOl(next, items), Li(value, text)) =>
      var a := Attribute(value, next);
      if a.Some? then (InOl(a.value + 1, items + 1), [NumberedItem(a.value, text)]) else (Malformed, [])
    case (InUl(items), UlClose) => (if items > 0 then Flow(false) else Malformed, [])
    case (InOl(_, items), OlClose) => (if items > 0 then Flow(false) else Malformed, [])
    case (Flow(true), Br) => (Flow(false), [])
    case (Flow(false), BlockQuote(text)) => (Flow(false), [Quotation(text)])
    case (Flow(false), Text(text)) => (Flow(true), [TextLine(text)])
    case (Flow(_), Code(text)) => (Flow(false), [InlineCode(text)])
    case (Flow(_), Pre(text)) => (Flow(false), [CodeBlock(text)])
    case _ => (Malformed, [])
  }

  function ReadState(r: Reader, ts: seq<Token>): Reader {
    FoldState(ReadToken, r, ts)
  }

  function ReadShown(r: Reader, ts: seq<Token>): seq<Shown> {
    FoldOut(ReadToken, r, ts)
  }

  /** What a source line should show: the number written on an ordered line is its ordinal. */
  function Meaning(l: Line): Shown {
    match l
    case Bullet(t) => BulletItem(t)
    case Ordered(d, t) => NumberedItem(Number(d), t)
    case Quoted(t) => Quotation(t)
    case Plain(t) => TextLine(t)
  }

  /** The reader is where the machine thinks it is. */
  predicate Agrees(s: State, r: Reader) {
    if s.orderedListIdx >= 0 then !s.inBulletedList && r.InOl? && r.next == s.orderedListIdx + 1 && r.items > 0
    else if s.inBulletedList then r.InUl? && r.items > 0
    else r == Flow(!s.first && !s.wasBlockQuote)
  }

  function AfterBreak(r: Reader): Reader {
    if r.Flow? then Flow(false) else r
  }

  lemma ReadsNone(r: Reader)
    ensures ReadState(r, []) == r && ReadShown(r, []) == []
  {
    FoldNone(ReadToken, r);
  }

  /** Reading one token more, after tokens that show nothing. */
  lemma ReadsThen(r: Reader, quiet: seq<Token>, mid: Reader, t: Token)
    requires ReadState(r, quiet) == mid && ReadShown(r, quiet) == []
    ensures ReadState(r, quiet + [t]) == ReadToken(mid, t).0 && ReadShown(r, quiet + [t]) == ReadToken(mid, t).1
  {
    hide ReadToken;
    FoldThen(ReadToken, r, quiet, mid, t);
  }

  lemma ReadsOne(r: Reader, t: Token)
    ensures ReadState(r, [t]) == ReadToken(r, t).0 && ReadShown(r, [t]) == ReadToken(r, t).1
  {
    hide ReadToken;
    FoldOne(ReadToken, r, t);
  }

  /** Between lines: the break, if one is written, ends the run of text. */
  lemma BreakEndsText(s: State, r: Reader)
    requires Agrees(s, r)
    ensures ReadState(r, LineBreak(s)) == AfterBreak(r) && ReadShown(r, LineBreak(s)) == []
  {
    hide ReadState, ReadShown;
    if LineBreak(s) == [Br] {
      ReadsOne(r, Br);
    } else {
      ReadsNone(r);
    }
  }

  lemma CloseReturnsToFlow(s: State, r: Reader)
    requires Agrees(s, r)
    ensures ReadState(AfterBreak(r), CloseList(s)) == Flow(false) && ReadShown(AfterBreak(r), CloseList(s)) == []
    ensures r.Flow? ==> CloseList(s) == []
  {
    hide ReadState, ReadShown;
    if s.orderedListIdx >= 0 {
      ReadsOne(r, OlClose);
    } else if s.inBulletedList {
      ReadsOne(r, UlClose);
    } else {
      ReadsNone(AfterBreak(r));
    }
  }

  lemma BulletTokens(items: nat, t: string)
    ensures ReadToken(Flow(false), UlOpen) == (InUl(0), [])
    ensures ReadToken(InUl(items), Li(None, t)) == (InUl(items + 1), [BulletItem(t)])
  {
  }

  lemma BulletReads(s: State, r: Reader, t: string)
    requires Agrees(s, r)
    ensures ReadShown(AfterBreak(r), LineTokens(s, Bullet(t))) == [BulletItem(t)]
    ensures Agrees(NextState(Bullet(t)), ReadState(AfterBreak(r), LineTokens(s, Bullet(t))))
  {
    hide ReadState, ReadShown, ReadToken;
    var r1, item := AfterBreak(r), Li(None, t);
    if s.inBulletedList {
      assert LineTokens(s, Bullet(t)) == [item];
      BulletTokens(r.items, t);
      ReadsOne(r1, item);
    } else {
      assert LineTokens(s, Bullet(t)) == CloseList(s) + [UlOpen] + [item];
      CloseReturnsToFlow(s, r);
      BulletTokens(0, t);
      ReadsThen(r1, CloseList(s), Flow(false), UlOpen);
      ReadsThen(r1, CloseList(s) + [UlOpen], InUl(0), item);
    }
  }

  /** An item with a value has that ordinal; without one it has the next. */
  lemma ItemToken(next: int, items: nat, d: Digits, t: string)
    ensures var n := Number(d);
            ReadToken(InOl(next, items), Li(Some(d), t)) == (InOl(n + 1, items + 1), [NumberedItem(n, t)])
    ensures ReadToken(InOl(next, items), Li(None, t)) == (InOl(next + 1, items + 1), [NumberedItem(next, t)])
  {
  }

  lemma NextItemReads(s: State, r: Reader, d: Digits, t: string)
    requires Agrees(s, r) && s.orderedListIdx >= 0
    ensures ReadShown(r, LineTokens(s, Ordered(d, t))) == [NumberedItem(Number(d), t)]
    ensures ReadState(r, LineTokens(s, Ordered(d, t))) == InOl(Number(d) + 1, r.items + 1)
  {
    hide ReadState, ReadShown, ReadToken, Number;
    var item := Li(if s.orderedListIdx + 1 == Number(d) then None else Some(d), t);
    assert LineTokens(s, Ordered(d, t)) == [item];
    ItemToken(r.next, r.items, d, t);
    ReadsOne(r, item);
  }

  /** An ordered list opens with the number of its first item, so that item needs no value. */
  lemma ListOpens(d: Digits)
    ensures ReadToken(Flow(false), OlOpen(if Number(d) == 1 then None else Some(d))) == (InOl(Number(d), 0), [])
  {
  }

  lemma FirstItemReads(s: State, r: Reader, d: Digits, t: string)
    requires Agrees(s, r) && s.orderedListIdx < 0
    ensures ReadShown(AfterBreak(r), LineTokens(s, Ordered(d, t))) == [NumberedItem(Number(d), t)]
    ensures ReadState(AfterBreak(r), LineTokens(s, Ordered(d, t))) == InOl(Number(d) + 1, 1)
  {
    hide ReadState, ReadShown, ReadToken, Number;
    var r1, n := AfterBreak(r), Number(d);
    var open, item := OlOpen(if n == 1 then None else Some(d)), Li(None, t);
    assert LineTokens(s, Ordered(d, t)) == CloseList(s) + [open] + [item];
    ListOpens(d);
    ItemToken(n, 0, d, t);
    CloseReturnsToFlow(s, r);
    ReadsThen(r1, CloseList(s), Flow(false), open);
    ReadsThen(r1, CloseList(s) + [open], InOl(n, 0), item);
  }

  lemma FlowReads(s: State, r: Reader, t: Token)
    requires Agrees(s, r)
    ensures ReadState(AfterBreak(r), CloseList(s) + [t]) == ReadToken(Flow(false), t).0
    ensures ReadShown(AfterBreak(r), CloseList(s) + [t]) == ReadToken(Flow(false), t).1
  {
    hide ReadState, ReadShown, ReadToken;
    CloseReturnsToFlow(s, r);
    ReadsThen(AfterBreak(r), CloseList(s), Flow(false), t);
  }

  lemma LineReads(s: State, r: Reader, l: Line)
    requires Agrees(s, r)
    ensures ReadShown(AfterBreak(r), LineTokens(s, l)) == [Meaning(l)]
    ensures Agrees(NextState(l), ReadState(AfterBreak(r), LineTokens(s, l)))
  {
    hide ReadState, ReadShown, Number;
    match l
    case Bullet(t) => BulletReads(s, r, t);
    case Ordered(d, t) =>
      if s.orderedListIdx >= 0 { NextItemReads(s, r, d, t); } else { FirstItemReads(s, r, d, t); }
    case Quoted(t) => FlowReads(s, r, BlockQuote(t));
    case Plain(t) => FlowReads(s, r, Text(t));
  }

  /** What one line writes reads as exactly what the line says. */
  lemma WrittenLineReads(s: State, r: Reader, l: Line)
    requires Agrees(s, r)
    ensures FoldOut(ReadToken, r, WriteLine(s, l).1) == [Meaning(l)]
    ensures Agrees(WriteLine(s, l).0, FoldState(ReadToken, r, WriteLine(s, l).1))
  {
    BreakEndsText(s, r);
    LineReads(s, r, l);
    FoldConcat(ReadToken, r, LineBreak(s), LineTokens(s, l));
  }

  /** The output of a segment is well formed, ends outside any list, and shows exactly the source lines in
      order, every ordered item under the number written on its line. */
  lemma SegmentReads(text: string)
    ensures ReadState(Flow(false), Segment(text)).Flow?
    ensures ReadShown(Flow(false), Segment(text)) == Image(Meaning, Image(Classify, Lines(text)))
  {
    var ls := Image(Classify, Lines(text));
    forall s, r, l ensures Follows(WriteLine, ReadToken, Meaning, Agrees, s, r, l) {
      if Agrees(s, r) { WrittenLineReads(s, r, l); }
    }
    ReaderFollowsWriter(WriteLine, ReadToken, Meaning, Agrees, START, Flow(false), ls);
    var s, out := FoldState(WriteLine, START, ls), FoldOut(WriteLine, START, ls);
    CloseReturnsToFlow(s, FoldState(ReadToken, Flow(false), out));
    FoldConcat(ReadToken, Flow(false), out, CloseList(s));
    FoldOne(ReadToken, FoldState(ReadToken, Flow(false), out), Br);
  }
}
