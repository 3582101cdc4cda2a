/**
 What the scanner makes of source text, said about the text itself: every text is a list of plain
 characters and literals in double quotes, single quotes or backticks, and only plain characters count.
 */
module SourceTokens {
  import opened Options
  import opened Scanner

  // ----- Texts as tokens -----

  /** Inside a literal: a character as it is, or any character behind a backslash. */
  datatype Quoted = Bare(c: char) | Escaped(c: char)

  /** The last literal of a text may be left open, and a lone backslash may end it. */
  datatype Token =
    | Plain(c: char)
    | Literal(quote: char, body: seq<Quoted>)
    | Open(quote: char, body: seq<Quoted>, slash: bool)

  predicate OpensLiteral(c: char) {
    c == '"' || c == '\'' || c == '`'
  }

  ghost predicate IsBody(quote: char, body: seq<Quoted>) {
    forall x :: x in body && x.Bare? ==> x.c != quote && x.c != '\\'
  }

  ghost predicate IsToken(t: Token) {
    match t
    case Plain(c) => !OpensLiteral(c)
    case Literal(quote, body) => OpensLiteral(quote) && IsBody(quote, body)
    case Open(quote, body, _) => OpensLiteral(quote) && IsBody(quote, body)
  }

  ghost predicate AreTokens(ts: seq<Token>) {
    && (forall t :: t in ts ==> IsToken(t))
    && forall k :: 0 <= k < |ts| - 1 ==> !ts[k].Open?
  }

  function QuotedText(x: Quoted): string {
    match x
    case Bare(c) => [c]
    case Escaped(c) => ['\\', c]
  }

  function BodyText(body: seq<Quoted>): string {
    if body == [] then "" else QuotedText(body[0]) + BodyText(body[1..])
  }

  function TokenText(t: Token): string {
    match t
    case Plain(c) => [c]
    case Literal(quote, body) => [quote] + BodyText(body) + [quote]
    case Open(quote, body, slash) => [quote] + BodyText(body) + if slash then "\\" else ""
  }

  function TextOf(ts: seq<Token>): string {
    if ts == [] then "" else TokenText(ts[0]) + TextOf(ts[1..])
  }

  lemma Associate(s: string, t: string, u: string)
    ensures s + t + u == s + (t + u)
  {
  }

  lemma FirstTokenText(t: Token, ts: seq<Token>)
    ensures TextOf([t] + ts) == TokenText(t) + TextOf(ts)
  {
    assert ([t] + ts)[1..] == ts;
  }

  lemma OneTokenText(t: Token)
    ensures TextOf([t]) == TokenText(t)
  {
    FirstTokenText(t, []);
    assert [t] + [] == [t];
  }

  // ----- Every text is a list of tokens -----

  /** How a literal goes on behind its quote: closed, with a rest of the text behind it, or open to the end. */
  datatype Ending = Closed(rest: string) | Unclosed(slash: bool)

  function EndingText(quote: char, ending: Ending): string {
    match ending
    case Closed(rest) => [quote] + rest
    case Unclosed(slash) => if slash then "\\" else ""
  }

  ghost predicate IsInside(quote: char, s: string, body: seq<Quoted>, ending: Ending) {
    && IsBody(quote, body)
    && s == BodyText(body) + EndingText(quote, ending)
    && (ending.Closed? ==> |ending.rest| < |s|)
  }

  lemma OneMoreInside(quote: char, s: string, x: Quoted, rest: string, body: seq<Quoted>, ending: Ending)
    requires IsInside(quote, rest, body, ending) && (x.Bare? ==> x.c != quote && x.c != '\\')
    requires s == QuotedText(x) + rest
    ensures IsInside(quote, s, [x] + body, ending)
  {
    assert ([x] + body)[1..] == body;
    Associate(QuotedText(x), BodyText(body), EndingText(quote, ending));
  }

  lemma FirstQuoted(s: string)
    requires s != "" && s != "\\"
    ensures s == if s[0] == '\\' then QuotedText(Escaped(s[1])) + s[2..] else QuotedText(Bare(s[0])) + s[1..]
  {
  }

  lemma {:induction false} InsideExists(quote: char, s: string)
    requires quote != '\\'
    ensures exists body, ending :: IsInside(quote, s, body, ending)
    decreases |s|
  {
    if s == "" {
      assert IsInside(quote, s, [], Unclosed(false));
    } else if s[0] == quote {
      assert s == [quote] + s[1..];
      assert IsInside(quote, s, [], Closed(s[1..]));
    } else if s == "\\" {
      assert IsInside(quote, s, [], Unclosed(true));
    } else {
      var x := if s[0] == '\\' then Escaped(s[1]) else Bare(s[0]);
      var rest := if s[0] == '\\' then s[2..] else s[1..];
      InsideExists(quote, rest);
      var body, ending :| IsInside(quote, rest, body, ending);
      FirstQuoted(s);
      OneMoreInside(quote, s, x, rest, body, ending);
    }
  }

  ghost predicate ReadsAs(s: string, ts: seq<Token>) {
    AreTokens(ts) && TextOf(ts) == s
  }

  lemma OneMoreToken(t: Token, ts: seq<Token>, s: string)
    requires IsToken(t) && !t.Open? && ReadsAs(s, ts)
    ensures ReadsAs(TokenText(t) + s, [t] + ts)
  {
    assert ([t] + ts)[1..] == ts;
    forall k | 0 <= k < |[t] + ts| - 1 ensures !([t] + ts)[k].Open? {
      assert k > 0 ==> ([t] + ts)[k] == ts[k - 1];
    }
  }

  /** Every text reads as tokens. */
  lemma {:induction false} EveryTextIsTokens(s: string)
    ensures exists ts :: ReadsAs(s, ts)
    decreases |s|
  {
    if s == "" {
      assert ReadsAs(s, []);
    } else if !OpensLiteral(s[0]) {
      EveryTextIsTokens(s[1..]);
      var ts :| ReadsAs(s[1..], ts);
      OneMoreToken(Plain(s[0]), ts, s[1..]);
      assert s == TokenText(Plain(s[0])) + s[1..];
    } else {
      LiteralFirst(s);
    }
  }

  lemma LiteralText(quote: char, body: seq<Quoted>, ending: Ending, s: string)
    requires IsInside(quote, s, body, ending)
    ensures ending.Closed? ==> [quote] + s == TokenText(Literal(quote, body)) + ending.rest
    ensures ending.Unclosed? ==> [quote] + s == TokenText(Open(quote, body, ending.slash))
  {
  }

  lemma {:induction false} LiteralFirst(s: string)
    requires s != "" && OpensLiteral(s[0])
    ensures exists ts :: ReadsAs(s, ts)
    decreases |s|, 0
  {
    var quote := s[0];
    InsideExists(quote, s[1..]);
    var body, ending :| IsInside(quote, s[1..], body, ending);
    assert s == [quote] + s[1..];
    LiteralText(quote, body, ending, s[1..]);
    if ending.Closed? {
      EveryTextIsTokens(ending.rest);
      var ts :| ReadsAs(ending.rest, ts);
      OneMoreToken(Literal(quote, body), ts, ending.rest);
    } else {
      OneToken(Open(quote, body, ending.slash));
    }
  }

  lemma OneToken(t: Token)
    requires IsToken(t)
    ensures ReadsAs(TokenText(t), [t])
  {
    OneTokenText(t);
  }

  // ----- A literal is an argument like any other -----

  function InLiteral(quote: char): Mode {
    Mode(Some(quote), false)
  }

  /** Inside a literal a scan for one kind of bracket stays where it is. */
  lemma {:induction false} BodyIsRead(b: Brackets, quote: char, body: seq<Quoted>, depth: nat)
    requires IsBody(quote, body)
    ensures AdvanceAll(InLiteral(quote), BodyText(body)) == InLiteral(quote)
    ensures FinalDepth(b, BodyText(body), depth, InLiteral(quote)) == depth
    ensures NeverUnder(b, BodyText(body), depth, InLiteral(quote))
    decreases |body|
  {
    if body == [] {
    } else {
      QuotedIsRead(b, quote, body[0], depth);
      BodyIsRead(b, quote, body[1..], depth);
      ScanConcat(b, QuotedText(body[0]), BodyText(body[1..]), depth, InLiteral(quote));
    }
  }

  lemma QuotedIsRead(b: Brackets, quote: char, x: Quoted, depth: nat)
    requires x.Bare? ==> x.c != quote && x.c != '\\'
    ensures AdvanceAll(InLiteral(quote), QuotedText(x)) == InLiteral(quote)
    ensures FinalDepth(b, QuotedText(x), depth, InLiteral(quote)) == depth
    ensures NeverUnder(b, QuotedText(x), depth, InLiteral(quote))
  {
    CharIsRead(b, x.c, depth, Mode(Some(quote), x.Escaped?));
    if x.Escaped? {
      CharIsRead(b, '\\', depth, InLiteral(quote));
      ScanConcat(b, "\\", [x.c], depth, InLiteral(quote));
      assert "\\" + [x.c] == QuotedText(x);
    }
  }

  lemma CharIsRead(b: Brackets, c: char, depth: nat, mode: Mode)
    requires mode.quote.Some?
    ensures AdvanceAll(mode, [c]) == Advance(mode, c)
    ensures FinalDepth(b, [c], depth, mode) == depth && NeverUnder(b, [c], depth, mode)
    ensures AnyFinalDepth([c], 0, mode) == 0 && NoTopComma([c], 0, mode)
  {
    assert [c][1..] == "";
  }

  lemma {:induction false} BodyIsOnePiece(quote: char, body: seq<Quoted>)
    requires IsBody(quote, body)
    ensures AnyFinalDepth(BodyText(body), 0, InLiteral(quote)) == 0
    ensures NoTopComma(BodyText(body), 0, InLiteral(quote))
    decreases |body|
  {
    if body == [] {
    } else {
      var s := QuotedText(body[0]);
      QuotedIsRead(CALL, quote, body[0], 0);
      QuotedIsOnePiece(quote, body[0]);
      BodyIsOnePiece(quote, body[1..]);
      SplitConcat(s, BodyText(body[1..]), 0, InLiteral(quote));
    }
  }

  lemma QuotedIsOnePiece(quote: char, x: Quoted)
    requires x.Bare? ==> x.c != quote && x.c != '\\'
    ensures AnyFinalDepth(QuotedText(x), 0, InLiteral(quote)) == 0
    ensures NoTopComma(QuotedText(x), 0, InLiteral(quote))
  {
    CharIsRead(CALL, x.c, 0, Mode(Some(quote), x.Escaped?));
    if x.Escaped? {
      CharIsRead(CALL, '\\', 0, InLiteral(quote));
      SplitConcat("\\", [x.c], 0, InLiteral(quote));
      assert "\\" + [x.c] == QuotedText(x);
    }
  }

  lemma LiteralIsBalanced(b: Brackets, quote: char, body: seq<Quoted>)
    requires OpensLiteral(quote) && IsBody(quote, body)
    ensures IsBalanced(b, TokenText(Literal(quote, body)))
  {
    var open, rest := [quote], BodyText(body) + [quote];
    assert open[1..] == "";
    BodyIsRead(b, quote, body, 0);
    ScanConcat(b, BodyText(body), open, 0, InLiteral(quote));
    ScanConcat(b, open, rest, 0, CODE);
    Associate(open, BodyText(body), open);
  }

  /**
   Whatever stands in it, a literal is one argument and closes no block: brackets, commas and the other
   two quotes inside it never count.
   */
  lemma LiteralIsArgument(quote: char, body: seq<Quoted>)
    requires OpensLiteral(quote) && IsBody(quote, body)
    ensures IsArgumentText(TokenText(Literal(quote, body)))
    ensures IsBalanced(Brackets('{', '}'), TokenText(Literal(quote, body)))
  {
    var open, rest := [quote], BodyText(body) + [quote];
    LiteralIsBalanced(CALL, quote, body);
    LiteralIsBalanced(Brackets('{', '}'), quote, body);
    assert open[1..] == "";
    BodyIsRead(CALL, quote, body, 0);
    BodyIsOnePiece(quote, body);
    SplitConcat(BodyText(body), open, 0, InLiteral(quote));
    SplitConcat(open, rest, 0, CODE);
    Associate(open, BodyText(body), open);
  }

  // ----- Cutting a text, token by token -----

  /** What a token adds to the depth: the two brackets count where they are plain. */
  function Turn(b: Brackets, t: Token): int {
    if t == Plain(b.open) then 1 else if t == Plain(b.close) then -1 else 0
  }

  /** The tokens up to the first plain close bracket that brings the depth to zero. */
  function CutTokens(b: Brackets, ts: seq<Token>, depth: int): Option<seq<Token>> {
    if ts == [] then None
    else
      var depth' := depth + Turn(b, ts[0]);
      if ts[0] == Plain(b.close) && depth' == 0 then Some([ts[0]])
      else
        match CutTokens(b, ts[1..], depth')
        case None => None
        case Some(cut) => Some([ts[0]] + cut)
  }

  function TextOfCut(cut: Option<seq<Token>>): Option<string> {
    match cut
    case None => None
    case Some(ts) => Some(TextOf(ts))
  }

  /** Inside a literal nothing closes. */
  lemma {:induction false} BodyClosesNothing(b: Brackets, quote: char, body: seq<Quoted>, rest: string, depth: int)
    requires IsBody(quote, body)
    ensures CloseLength(b, BodyText(body) + rest, depth, InLiteral(quote))
         == Shifted(CloseLength(b, rest, depth, InLiteral(quote)), |BodyText(body)|)
    decreases |body|
  {
    if body == [] {
      assert "" + rest == rest;
    } else {
      var more := BodyText(body[1..]) + rest;
      assert BodyText(body) + rest == QuotedText(body[0]) + more;
      QuotedClosesNothing(b, quote, body[0], more, depth);
      BodyClosesNothing(b, quote, body[1..], rest, depth);
    }
  }

  lemma QuotedClosesNothing(b: Brackets, quote: char, x: Quoted, rest: string, depth: int)
    requires x.Bare? ==> x.c != quote && x.c != '\\'
    ensures CloseLength(b, QuotedText(x) + rest, depth, InLiteral(quote))
         == Shifted(CloseLength(b, rest, depth, InLiteral(quote)), |QuotedText(x)|)
  {
    var s := QuotedText(x) + rest;
    if x.Bare? {
      assert s[1..] == rest;
    } else {
      assert s[1..] == [x.c] + rest && s[1..][1..] == rest;
    }
  }

  lemma LiteralClosesNothing(b: Brackets, quote: char, body: seq<Quoted>, rest: string, depth: int)
    requires OpensLiteral(quote) && IsBody(quote, body)
    ensures CloseLength(b, TokenText(Literal(quote, body)) + rest, depth, CODE)
         == Shifted(CloseLength(b, rest, depth, CODE), |TokenText(Literal(quote, body))|)
  {
    var s := TokenText(Literal(quote, body)) + rest;
    assert s[1..] == BodyText(body) + ([quote] + rest);
    BodyClosesNothing(b, quote, body, [quote] + rest, depth);
    assert ([quote] + rest)[1..] == rest;
  }

  lemma OpenClosesNothing(b: Brackets, quote: char, body: seq<Quoted>, slash: bool, depth: int)
    requires OpensLiteral(quote) && IsBody(quote, body)
    ensures CloseLength(b, TokenText(Open(quote, body, slash)), depth, CODE) == None
  {
    var s, rest := TokenText(Open(quote, body, slash)), if slash then "\\" else "";
    assert s[1..] == BodyText(body) + rest;
    BodyClosesNothing(b, quote, body, rest, depth);
    assert slash ==> rest[1..] == "";
  }

  lemma TokensTail(ts: seq<Token>)
    requires AreTokens(ts) && ts != []
    ensures IsToken(ts[0]) && AreTokens(ts[1..]) && TextOf(ts) == TokenText(ts[0]) + TextOf(ts[1..])
    ensures ts[0].Open? ==> ts[1..] == []
  {
    assert forall k :: 0 <= k < |ts[1..]| - 1 ==> ts[1..][k] == ts[k + 1];
  }

  function LengthOfCut(cut: Option<seq<Token>>): Option<nat> {
    match cut
    case None => None
    case Some(ts) => Some(|TextOf(ts)|)
  }

  lemma CutStep(b: Brackets, t: Token, rest: string, depth: int)
    requires IsToken(t) && (t.Open? ==> rest == "")
    ensures var depth' := depth + Turn(b, t);
            CloseLength(b, TokenText(t) + rest, depth, CODE)
            == if t == Plain(b.close) && depth' == 0 then Some(1)
               else Shifted(CloseLength(b, rest, depth', CODE), |TokenText(t)|)
  {
    match t
    case Plain(c) =>
      assert ([c] + rest)[1..] == rest;
    case Literal(quote, body) =>
      LiteralClosesNothing(b, quote, body, rest, depth);
    case Open(quote, body, slash) =>
      OpenClosesNothing(b, quote, body, slash, depth);
      assert TokenText(t) + rest == TokenText(t);
  }

  lemma CutTokensStep(b: Brackets, t: Token, ts: seq<Token>, depth: int)
    ensures var depth' := depth + Turn(b, t);
            CutTokens(b, [t] + ts, depth)
            == if t == Plain(b.close) && depth' == 0 then Some([t])
               else
                 match CutTokens(b, ts, depth')
                 case None => None
                 case Some(cut) => Some([t] + cut)
  {
    assert ([t] + ts)[1..] == ts;
  }

  lemma LengthOfMore(t: Token, cut: Option<seq<Token>>)
    ensures LengthOfCut(match cut case None => None case Some(ts) => Some([t] + ts))
         == Shifted(LengthOfCut(cut), |TokenText(t)|)
  {
    if cut.Some? {
      FirstTokenText(t, cut.value);
    }
  }

  lemma {:induction false} CloseLengthIsCut(b: Brackets, ts: seq<Token>, depth: int)
    requires AreTokens(ts)
    ensures CloseLength(b, TextOf(ts), depth, CODE) == LengthOfCut(CutTokens(b, ts, depth))
    decreases |ts|
  {
    if ts == [] {
    } else {
      var t, rest := ts[0], ts[1..];
      TokensTail(ts);
      CutStep(b, t, TextOf(rest), depth);
      assert ts == [t] + rest;
      CutTokensStep(b, t, rest, depth);
      LengthOfMore(t, CutTokens(b, rest, depth + Turn(b, t)));
      OneTokenText(t);
      CloseLengthIsCut(b, rest, depth + Turn(b, t));
    }
  }

  lemma {:induction false} CutIsPrefix(b: Brackets, ts: seq<Token>, depth: int)
    ensures CutTokens(b, ts, depth).Some? ==> CutTokens(b, ts, depth).value <= ts
    decreases |ts|
  {
    if ts == [] {
    } else {
      CutIsPrefix(b, ts[1..], depth + Turn(b, ts[0]));
    }
  }

  lemma TextOfFirst(ts: seq<Token>, more: seq<Token>)
    requires ts != []
    ensures TextOf(ts + more) == TokenText(ts[0]) + TextOf(ts[1..] + more)
  {
    assert (ts + more)[1..] == ts[1..] + more;
  }

  lemma {:induction false} TextOfConcat(ts: seq<Token>, more: seq<Token>, text: string, moreText: string)
    requires text == TextOf(ts) && moreText == TextOf(more)
    ensures TextOf(ts + more) == text + moreText
    decreases |ts|
  {
    if ts == [] {
      assert ts + more == more;
    } else {
      var rest := TextOf(ts[1..]);
      TextOfConcat(ts[1..], more, rest, moreText);
      TextOfFirst(ts, more);
      Associate(TokenText(ts[0]), rest, moreText);
    }
  }

  /**
   The extraction cuts tokens: up to the first plain close bracket that brings the count of plain
   brackets to zero.  Brackets inside the three kinds of literal never count, plain ones always do.
   */
  lemma ExtractsTokens(b: Brackets, before: string, ts: seq<Token>)
    requires AreTokens(ts)
    ensures Extracted(b, before + TextOf(ts), |before|) == TextOfCut(CutTokens(b, ts, 0))
  {
    var text := TextOf(ts);
    assert (before + text)[|before|..] == text;
    CloseLengthIsCut(b, ts, 0);
    CutIsPrefix(b, ts, 0);
    if CutTokens(b, ts, 0).Some? {
      var cut := CutTokens(b, ts, 0).value;
      TextOfConcat(cut, ts[|cut|..], TextOf(cut), TextOf(ts[|cut|..]));
      assert ts == cut + ts[|cut|..];
      assert text[..|TextOf(cut)|] == TextOf(cut);
    }
  }

  // ----- Splitting a text, token by token -----

  /** All three kinds of bracket count where they are plain. */
  function AnyTurn(t: Token): int {
    if t == Plain('(') || t == Plain('[') || t == Plain('{') then 1
    else if t == Plain(')') || t == Plain(']') || t == Plain('}') then -1
    else 0
  }

  /** The tokens between the plain commas that no bracket is open at. */
  function SplitTokens(ts: seq<Token>, depth: int, piece: seq<Token>): seq<seq<Token>>
    decreases |ts|
  {
    if ts == [] then [piece]
    else if ts[0] == Plain(',') && depth == 0 then [piece] + SplitTokens(ts[1..], depth, [])
    else SplitTokens(ts[1..], depth + AnyTurn(ts[0]), piece + [ts[0]])
  }

  function Texts(pieces: seq<seq<Token>>): seq<string> {
    seq(|pieces|, k requires 0 <= k < |pieces| => TextOf(pieces[k]))
  }

  lemma TextOfLast(ts: seq<Token>, t: Token)
    ensures TextOf(ts + [t]) == TextOf(ts) + TokenText(t)
  {
    OneTokenText(t);
    TextOfConcat(ts, [t], TextOf(ts), TokenText(t));
  }

  lemma {:induction false} BodySplitsNothing(quote: char, body: seq<Quoted>, rest: string, depth: int, piece: string)
    requires IsBody(quote, body)
    ensures Pieces(BodyText(body) + rest, depth, InLiteral(quote), piece)
         == Pieces(rest, depth, InLiteral(quote), piece + BodyText(body))
    decreases |body|
  {
    if body == [] {
      assert "" + rest == rest && piece + "" == piece;
    } else {
      var more := BodyText(body[1..]) + rest;
      assert BodyText(body) + rest == QuotedText(body[0]) + more;
      QuotedSplitsNothing(quote, body[0], more, depth, piece);
      BodySplitsNothing(quote, body[1..], rest, depth, piece + QuotedText(body[0]));
      assert piece + QuotedText(body[0]) + BodyText(body[1..]) == piece + BodyText(body);
    }
  }

  lemma QuotedSplitsNothing(quote: char, x: Quoted, rest: string, depth: int, piece: string)
    requires x.Bare? ==> x.c != quote && x.c != '\\'
    ensures Pieces(QuotedText(x) + rest, depth, InLiteral(quote), piece)
         == Pieces(rest, depth, InLiteral(quote), piece + QuotedText(x))
  {
    var s := QuotedText(x) + rest;
    if x.Bare? {
      assert s[1..] == rest;
    } else {
      assert s[1..] == [x.c] + rest && s[1..][1..] == rest;
      assert piece + [s[0]] + [x.c] == piece + QuotedText(x);
    }
  }

  lemma LiteralSplitsNothing(quote: char, body: seq<Quoted>, rest: string, depth: int, piece: string)
    requires OpensLiteral(quote) && IsBody(quote, body)
    ensures Pieces(TokenText(Literal(quote, body)) + rest, depth, CODE, piece)
         == Pieces(rest, depth, CODE, piece + TokenText(Literal(quote, body)))
  {
    var s := TokenText(Literal(quote, body)) + rest;
    assert s[1..] == BodyText(body) + ([quote] + rest);
    BodySplitsNothing(quote, body, [quote] + rest, depth, piece + [quote]);
    assert ([quote] + rest)[1..] == rest;
    assert piece + [quote] + BodyText(body) + [quote] == piece + TokenText(Literal(quote, body));
  }

  /** A scan that is inside a literal at the end of the text, or behind the lone backslash that ends it. */
  lemma EndSplitsNothing(quote: char, slash: bool, depth: int, piece: string)
    ensures var rest := if slash then "\\" else "";
            Pieces(rest, depth, InLiteral(quote), piece) == [piece + rest]
  {
    assert "\\"[1..] == "" && piece + "" == piece;
  }

  lemma OpenSplitsNothing(quote: char, body: seq<Quoted>, slash: bool, depth: int, piece: string)
    requires OpensLiteral(quote) && IsBody(quote, body)
    ensures Pieces(TokenText(Open(quote, body, slash)), depth, CODE, piece) == [piece + TokenText(Open(quote, body, slash))]
  {
    var s, rest := TokenText(Open(quote, body, slash)), if slash then "\\" else "";
    assert s[1..] == BodyText(body) + rest;
    BodySplitsNothing(quote, body, rest, depth, piece + [quote]);
    EndSplitsNothing(quote, slash, depth, piece + [quote] + BodyText(body));
    Associate(piece, [quote], BodyText(body));
    Associate(piece, [quote] + BodyText(body), rest);
  }

  lemma SplitStep(t: Token, rest: string, depth: int, piece: string)
    requires IsToken(t) && (t.Open? ==> rest == "")
    ensures Pieces(TokenText(t) + rest, depth, CODE, piece)
         == if t == Plain(',') && depth == 0 then [piece] + Pieces(rest, depth, CODE, "")
            else Pieces(rest, depth + AnyTurn(t), CODE, piece + TokenText(t))
  {
    match t
    case Plain(c) =>
      assert ([c] + rest)[1..] == rest;
    case Literal(quote, body) =>
      LiteralSplitsNothing(quote, body, rest, depth, piece);
    case Open(quote, body, slash) =>
      OpenSplitsNothing(quote, body, slash, depth, piece);
      assert TokenText(t) + rest == TokenText(t);
  }

  lemma TextsFirst(piece: seq<Token>, pieces: seq<seq<Token>>)
    ensures Texts([piece] + pieces) == [TextOf(piece)] + Texts(pieces)
  {
  }

  lemma SplitTokensStep(t: Token, ts: seq<Token>, depth: int, piece: seq<Token>)
    ensures SplitTokens([t] + ts, depth, piece)
         == if t == Plain(',') && depth == 0 then [piece] + SplitTokens(ts, depth, [])
            else SplitTokens(ts, depth + AnyTurn(t), piece + [t])
  {
    assert ([t] + ts)[1..] == ts;
  }

  lemma {:induction false} PiecesAreSplit(ts: seq<Token>, depth: int, piece: seq<Token>)
    requires AreTokens(ts)
    ensures Pieces(TextOf(ts), depth, CODE, TextOf(piece)) == Texts(SplitTokens(ts, depth, piece))
    decreases |ts|
  {
    if ts == [] {
    } else {
      var t, rest := ts[0], ts[1..];
      TokensTail(ts);
      SplitStep(t, TextOf(rest), depth, TextOf(piece));
      assert ts == [t] + rest;
      SplitTokensStep(t, rest, depth, piece);
      if t == Plain(',') && depth == 0 {
        PiecesAreSplit(rest, depth, []);
        TextsFirst(piece, SplitTokens(rest, depth, []));
      } else {
        PiecesAreSplit(rest, depth + AnyTurn(t), piece + [t]);
        TextOfLast(piece, t);
      }
    }
  }

  /** The splitter splits tokens: at the plain commas outside all plain brackets, and nowhere else. */
  lemma SplitsTokens(ts: seq<Token>)
    requires AreTokens(ts)
    ensures TopLevelArgs(TextOf(ts)) == NonEmpty(TrimAll(Texts(SplitTokens(ts, 0, []))))
  {
    PiecesAreSplit(ts, 0, []);
  }

  // ----- What is trimmed and dropped -----

  /** The white space and the line terminators of ECMAScript, one by one. */
  const SPACES: string :=
    "\t\n\U{000B}\U{000C}\r \U{00A0}\U{1680}\U{2000}\U{2001}\U{2002}\U{2003}\U{2004}\U{2005}\U{2006}\U{2007}" +
    "\U{2008}\U{2009}\U{200A}\U{2028}\U{2029}\U{202F}\U{205F}\U{3000}\U{FEFF}"

  lemma SpaceIsListed(c: char)
    ensures IsSpace(c) <==> c in SPACES
  {
  }

  /** `trimmed` is `s` without the spaces around it. */
  ghost predicate IsTrimmed(s: string, before: string, trimmed: string, after: string) {
    && s == before + trimmed + after && AllSpaces(before + after)
    && (trimmed != "" ==> !IsSpace(trimmed[0]) && !IsSpace(trimmed[|trimmed| - 1]))
  }

  lemma {:induction false} TrimStartMeaning(s: string)
    ensures exists before :: AllSpaces(before) && s == before + TrimStart(s)
    ensures TrimStart(s) != "" ==> !IsSpace(TrimStart(s)[0])
    decreases |s|
  {
    if s != "" && IsSpace(s[0]) {
      TrimStartMeaning(s[1..]);
      var before :| AllSpaces(before) && s[1..] == before + TrimStart(s[1..]);
      assert AllSpaces([s[0]] + before);
      assert s == [s[0]] + before + TrimStart(s);
    } else {
      assert AllSpaces("") && s == "" + TrimStart(s);
    }
  }

  lemma {:induction false} TrimEndMeaning(s: string)
    ensures exists after :: AllSpaces(after) && s == TrimEnd(s) + after
    ensures TrimEnd(s) != "" ==> !IsSpace(TrimEnd(s)[|TrimEnd(s)| - 1])
    decreases |s|
  {
    if s != "" && IsSpace(s[|s| - 1]) {
      TrimEndMeaning(s[..|s| - 1]);
      var after :| AllSpaces(after) && s[..|s| - 1] == TrimEnd(s[..|s| - 1]) + after;
      assert AllSpaces(after + [s[|s| - 1]]);
      assert s == TrimEnd(s) + (after + [s[|s| - 1]]);
    } else {
      assert AllSpaces("") && s == TrimEnd(s) + "";
    }
  }

  /** Trimming takes off all the spaces at both ends, and nothing else. */
  lemma TrimMeaning(s: string)
    ensures exists before, after :: IsTrimmed(s, before, Trim(s), after)
  {
    TrimStartMeaning(s);
    TrimEndMeaning(TrimStart(s));
    var before :| AllSpaces(before) && s == before + TrimStart(s);
    var after :| AllSpaces(after) && TrimStart(s) == Trim(s) + after;
    Associate(before, Trim(s), after);
    assert Trim(s) != "" ==> Trim(s)[0] == TrimStart(s)[0];
    assert IsTrimmed(s, before, Trim(s), after);
  }

  /** Empty arguments are dropped, and the others stay in their order. */
  lemma {:induction false} NonEmptyMeaning(ss: seq<string>, s: string)
    ensures NonEmpty(ss + [s]) == NonEmpty(ss) + if s == "" then [] else [s]
    decreases |ss|
  {
    if ss == [] {
      assert ss + [s] == [s] && [s][1..] == [];
    } else {
      assert (ss + [s])[1..] == ss[1..] + [s];
      NonEmptyMeaning(ss[1..], s);
    }
  }
}
