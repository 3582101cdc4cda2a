/**
 The quote- and escape-aware text scanner of the assistant-coverage audit: cutting a balanced
 call (or block) out of a source text, and splitting its arguments at top-level commas.
 */
module Scanner {
  import opened Options

  // ----- Quotes and escapes -----

  predicate IsQuote(c: char) {
    c == '"' || c == '\'' || c == '`'
  }

  /** Whether the scan is inside a quoted literal, and whether the next character is escaped. */
  datatype Mode = Mode(quote: Option<char>, escaped: bool)

  const CODE: Mode := Mode(None, false)

  function Advance(mode: Mode, c: char): Mode {
    match mode.quote
    case Some(q) =>
      if mode.escaped then Mode(Some(q), false)
      else if c == '\\' then Mode(Some(q), true)
      else if c == q then Mode(None, false)
      else mode
    case None =>
      if IsQuote(c) then Mode(Some(c), mode.escaped) else mode
  }

  /** A character outside every literal that does not open one: brackets and commas count here. */
  predicate IsCode(mode: Mode, c: char) {
    mode.quote.None? && !IsQuote(c)
  }

  function AdvanceAll(mode: Mode, s: string): Mode
    decreases |s|
  {
    if s == "" then mode else AdvanceAll(Advance(mode, s[0]), s[1..])
  }

  // ----- Cutting a balanced call -----

  /** The two characters a scan balances: parentheses for calls, braces for blocks. */
  datatype Brackets = Brackets(open: char, close: char) {
    predicate Valid() {
      open != close && !IsQuote(open) && !IsQuote(close)
    }

    function Depth(depth: int, mode: Mode, c: char): int {
      if !IsCode(mode, c) then depth
      else if c == open then depth + 1
      else if c == close then depth - 1
      else depth
    }
  }

  const CALL: Brackets := Brackets('(', ')')

  /** How many characters the scan of `s` reads up to the close bracket that brings the depth to zero. */
  function CloseLength(b: Brackets, s: string, depth: int, mode: Mode): Option<nat> {
    if s == "" then None
    else
      var depth' := b.Depth(depth, mode, s[0]);
      if IsCode(mode, s[0]) && s[0] == b.close && depth' == 0 then Some(1)
      else
        match CloseLength(b, s[1..], depth', Advance(mode, s[0]))
        case None => None
        case Some(n) => Some(n + 1)
  }

  /** Net bracket depth of `s`, starting from `depth`. */
  function FinalDepth(b: Brackets, s: string, depth: int, mode: Mode): int {
    if s == "" then depth
    else FinalDepth(b, s[1..], b.Depth(depth, mode, s[0]), Advance(mode, s[0]))
  }

  /** No close bracket of `s` is without a partner in `s`, when `depth` brackets are open before it. */
  predicate NeverUnder(b: Brackets, s: string, depth: int, mode: Mode) {
    || s == ""
    || (b.Depth(depth, mode, s[0]) >= 0 && NeverUnder(b, s[1..], b.Depth(depth, mode, s[0]), Advance(mode, s[0])))
  }

  /** How a scan from outside every literal and bracket ends, and whether it met nothing on the way that it must not. */
  datatype Reading = Reading(mode: Mode, depth: int, clean: bool)

  function Read(b: Brackets, s: string): Reading {
    Reading(AdvanceAll(CODE, s), FinalDepth(b, s, 0, CODE), NeverUnder(b, s, 0, CODE))
  }

  /** Literals closed, brackets of this kind matched. */
  predicate IsBalanced(b: Brackets, s: string) {
    Read(b, s) == Reading(CODE, 0, true)
  }

  /** The first `n` characters of `s` end with a close bracket that brings the depth to zero. */
  predicate ClosesAt(b: Brackets, s: string, depth: int, mode: Mode, n: nat) {
    && 0 < n <= |s|
    && s[n - 1] == b.close
    && IsCode(AdvanceAll(mode, s[..n - 1]), s[n - 1])
    && FinalDepth(b, s[..n], depth, mode) == 0
  }

  ghost predicate ClosesFirstAt(b: Brackets, s: string, depth: int, mode: Mode, n: nat) {
    ClosesAt(b, s, depth, mode, n) && forall m: nat :: m < n ==> !ClosesAt(b, s, depth, mode, m)
  }

  lemma ClosesLater(b: Brackets, s: string, depth: int, mode: Mode, n: nat)
    requires 1 < n <= |s|
    ensures ClosesAt(b, s, depth, mode, n)
        <==> ClosesAt(b, s[1..], b.Depth(depth, mode, s[0]), Advance(mode, s[0]), n - 1)
  {
    assert s[..n][1..] == s[1..][..n - 1];
    assert s[..n - 1][1..] == s[1..][..n - 2];
  }

  /** The scan stops at the first closing position, and only runs out when there is none. */
  lemma {:induction false} CloseLengthIsFirst(b: Brackets, s: string, depth: int, mode: Mode)
    ensures CloseLength(b, s, depth, mode) == None ==> forall n: nat :: !ClosesAt(b, s, depth, mode, n)
    ensures forall n: nat :: CloseLength(b, s, depth, mode) == Some(n) ==> ClosesFirstAt(b, s, depth, mode, n)
    decreases |s|
  {
    if s == "" {
    } else {
      var depth', mode' := b.Depth(depth, mode, s[0]), Advance(mode, s[0]);
      CloseLengthIsFirst(b, s[1..], depth', mode');
      forall n: nat | 1 < n <= |s|
        ensures ClosesAt(b, s, depth, mode, n) <==> ClosesAt(b, s[1..], depth', mode', n - 1)
      {
        ClosesLater(b, s, depth, mode, n);
      }
      assert s[..1] == [s[0]] && s[..0] == "";
      assert FinalDepth(b, [s[0]], depth, mode) == FinalDepth(b, [s[0]][1..], depth', mode') == depth';
      assert ClosesAt(b, s, depth, mode, 1) <==> IsCode(mode, s[0]) && s[0] == b.close && depth' == 0;
    }
  }

  /** One step of the scan. */
  lemma CloseStep(b: Brackets, text: string, i: nat, depth: int, mode: Mode)
    requires i < |text|
    ensures var depth' := b.Depth(depth, mode, text[i]);
            CloseLength(b, text[i..], depth, mode)
            == if IsCode(mode, text[i]) && text[i] == b.close && depth' == 0 then Some(1)
               else Shifted(CloseLength(b, text[i + 1..], depth', Advance(mode, text[i])), 1)
  {
    assert text[i..][1..] == text[i + 1..];
  }

  function Shifted(n: Option<nat>, offset: nat): Option<nat> {
    match n
    case None => None
    case Some(k) => Some(k + offset)
  }

  /** What the extraction of a call (or block) returns. */
  function Extracted(b: Brackets, text: string, openIndex: nat): Option<string>
    requires openIndex <= |text|
  {
    var s := text[openIndex..];
    match CloseLength(b, s, 0, CODE)
    case None => None
    case Some(n) => if n <= |s| then Some(s[..n]) else None
  }

  /** The text up to the first closing position, or nothing when there is none. */
  ghost predicate IsFirstCut(b: Brackets, s: string, call: Option<string>) {
    match call
    case None => forall n: nat :: !ClosesAt(b, s, 0, CODE, n)
    case Some(text) => text <= s && ClosesFirstAt(b, s, 0, CODE, |text|)
  }

  /** Cuts the text from `openIndex` up to the first position where the brackets opened since are closed again. */
  method ExtractBalanced(b: Brackets, text: string, openIndex: nat) returns (call: Option<string>)
    requires b.Valid() && openIndex <= |text|
    ensures call == Extracted(b, text, openIndex)
    ensures IsFirstCut(b, text[openIndex..], call)
  {
    var depth := 0;
    var quote: Option<char> := None;
    var escaped := false;
    for i := openIndex to |text|
      invariant Shifted(CloseLength(b, text[i..], depth, Mode(quote, escaped)), i - openIndex)
             == CloseLength(b, text[openIndex..], 0, CODE)
      invariant escaped ==> quote.Some?
    {
      var c := text[i];
      CloseStep(b, text, i, depth, Mode(quote, escaped));
      if quote.Some? {
        if escaped {
          escaped := false;
        } else if c == '\\' {
          escaped := true;
        } else if c == quote.value {
          quote := None;
        }
        continue;
      }
      if IsQuote(c) {
        quote := Some(c);
        continue;
      }
      if c == b.open {
        depth := depth + 1;
      }
      if c == b.close {
        depth := depth - 1;
        if depth == 0 {
          assert text[openIndex..][..i + 1 - openIndex] == text[openIndex..i + 1];
          CloseLengthIsFirst(b, text[openIndex..], 0, CODE);
          return Some(text[openIndex..i + 1]);
        }
      }
    }
    CloseLengthIsFirst(b, text[openIndex..], 0, CODE);
    call := None;
  }

  // ----- Splitting at top-level commas -----

  predicate IsOpening(c: char) { c == '(' || c == '[' || c == '{' }

  predicate IsClosing(c: char) { c == ')' || c == ']' || c == '}' }

  /** The splitter counts all three kinds of bracket together. */
  function AnyDepth(depth: int, mode: Mode, c: char): int {
    if !IsCode(mode, c) then depth
    else if IsOpening(c) then depth + 1
    else if IsClosing(c) then depth - 1
    else depth
  }

  predicate IsTopComma(depth: int, mode: Mode, c: char) {
    IsCode(mode, c) && c == ',' && depth == 0
  }

  /** The pieces between top-level commas, untrimmed; `piece` is the piece under way. */
  function Pieces(s: string, depth: int, mode: Mode, piece: string): seq<string>
    decreases |s|
  {
    if s == "" then [piece]
    else if IsTopComma(depth, mode, s[0]) then [piece] + Pieces(s[1..], depth, mode, "")
    else Pieces(s[1..], AnyDepth(depth, mode, s[0]), Advance(mode, s[0]), piece + [s[0]])
  }

  /** White space and line terminators of ECMAScript, which `trim` removes. */
  predicate IsSpace(c: char) {
    var n := c as int;
    || 9 <= n <= 13 || n == 32 || n == 0xA0 || n == 0x1680 || 0x2000 <= n <= 0x200A
    || n == 0x2028 || n == 0x2029 || n == 0x202F || n == 0x205F || n == 0x3000 || n == 0xFEFF
  }

  function TrimStart(s: string): string {
    if s != "" && IsSpace(s[0]) then TrimStart(s[1..]) else s
  }

  function TrimEnd(s: string): string {
    if s != "" && IsSpace(s[|s| - 1]) then TrimEnd(s[..|s| - 1]) else s
  }

  function Trim(s: string): string {
    TrimEnd(TrimStart(s))
  }

  function TrimAll(pieces: seq<string>): seq<string> {
    seq(|pieces|, k requires 0 <= k < |pieces| => Trim(pieces[k]))
  }

  /** Drops the empty strings. */
  function NonEmpty(ss: seq<string>): seq<string> {
    if ss == [] then []
    else (if ss[0] == "" then [] else [ss[0]]) + NonEmpty(ss[1..])
  }

  function TopLevelArgs(argsText: string): seq<string> {
    NonEmpty(TrimAll(Pieces(argsText, 0, CODE, "")))
  }

  method SplitTopLevelArgs(argsText: string) returns (args: seq<string>)
    ensures args == TopLevelArgs(argsText)
  {
    var all: seq<string> := [];
    var start := 0;
    var depth := 0;
    var quote: Option<char> := None;
    var escaped := false;
    ghost var pieces: seq<string> := [];
    for i := 0 to |argsText|
      invariant start <= i
      invariant escaped ==> quote.Some?
      invariant all == TrimAll(pieces)
      invariant pieces + Pieces(argsText[i..], depth, Mode(quote, escaped), argsText[start..i]) == Pieces(argsText, 0, CODE, "")
    {
      var c := argsText[i];
      assert argsText[i..][1..] == argsText[i + 1..];
      assert argsText[start..i] + [c] == argsText[start..i + 1];
      if quote.Some? {
        if escaped {
          escaped := false;
        } else if c == '\\' {
          escaped := true;
        } else if c == quote.value {
          quote := None;
        }
        continue;
      }
      if IsQuote(c) {
        quote := Some(c);
        continue;
      }
      if IsOpening(c) {
        depth := depth + 1;
      }
      if IsClosing(c) {
        depth := depth - 1;
      }
      if c == ',' && depth == 0 {
        all := all + [Trim(argsText[start..i])];
        assert argsText[i + 1..i + 1] == "";
        assert forall rest: seq<string> {:trigger pieces + [argsText[start..i]] + rest} ::
            pieces + [argsText[start..i]] + rest == pieces + ([argsText[start..i]] + rest);
        pieces := pieces + [argsText[start..i]];
        start := i + 1;
      }
    }
    all := all + [Trim(argsText[start..])];
    assert argsText[start..] == argsText[start..|argsText|];
    assert pieces + [argsText[start..]] == Pieces(argsText, 0, CODE, "");
    assert TrimAll(pieces + [argsText[start..]]) == all;
    args := NonEmpty(all);
  }

  // ----- Splitting loses nothing -----

  function JoinWith(pieces: seq<string>, separator: string): string {
    if |pieces| == 0 then ""
    else if |pieces| == 1 then pieces[0]
    else pieces[0] + separator + JoinWith(pieces[1..], separator)
  }

  /** For every text: the pieces, joined by commas again, are the text. */
  lemma {:induction false} PiecesRejoin(s: string, depth: int, mode: Mode, piece: string)
    ensures Pieces(s, depth, mode, piece) != []
    ensures JoinWith(Pieces(s, depth, mode, piece), ",") == piece + s
    decreases |s|
  {
    if s == "" {
    } else if IsTopComma(depth, mode, s[0]) {
      var rest := Pieces(s[1..], depth, mode, "");
      PiecesRejoin(s[1..], depth, mode, "");
      assert ([piece] + rest)[1..] == rest;
      assert s == "," + s[1..];
    } else {
      PiecesRejoin(s[1..], AnyDepth(depth, mode, s[0]), Advance(mode, s[0]), piece + [s[0]]);
      assert piece + [s[0]] + s[1..] == piece + s;
    }
  }

  // ----- Scanning a text that is a concatenation -----

  function AnyFinalDepth(s: string, depth: int, mode: Mode): int
    decreases |s|
  {
    if s == "" then depth
    else AnyFinalDepth(s[1..], AnyDepth(depth, mode, s[0]), Advance(mode, s[0]))
  }

  predicate NoTopComma(s: string, depth: int, mode: Mode)
    decreases |s|
  {
    || s == ""
    || (!IsTopComma(depth, mode, s[0]) && NoTopComma(s[1..], AnyDepth(depth, mode, s[0]), Advance(mode, s[0])))
  }

  lemma {:induction false} PiecesSkip(s: string, rest: string, depth: int, mode: Mode, piece: string)
    requires NoTopComma(s, depth, mode)
    ensures Pieces(s + rest, depth, mode, piece)
         == Pieces(rest, AnyFinalDepth(s, depth, mode), AdvanceAll(mode, s), piece + s)
    decreases |s|
  {
    if s == "" {
      assert s + rest == rest && piece + s == piece;
    } else {
      PiecesSkip(s[1..], rest, AnyDepth(depth, mode, s[0]), Advance(mode, s[0]), piece + [s[0]]);
      assert (s + rest)[1..] == s[1..] + rest;
      assert piece + [s[0]] + s[1..] == piece + s;
    }
  }

  /** As long as one bracket stays open, the scan goes on. */
  lemma {:induction false} CloseSkips(b: Brackets, s: string, rest: string, depth: nat, mode: Mode)
    requires NeverUnder(b, s, depth, mode)
    ensures CloseLength(b, s + rest, depth + 1, mode)
         == Shifted(CloseLength(b, rest, FinalDepth(b, s, depth, mode) + 1, AdvanceAll(mode, s)), |s|)
    decreases |s|
  {
    if s == "" {
      assert s + rest == rest;
    } else {
      assert (s + rest)[1..] == s[1..] + rest;
      CloseSkips(b, s[1..], rest, b.Depth(depth, mode, s[0]), Advance(mode, s[0]));
    }
  }

  /** Cutting out undoes wrapping: a balanced body between brackets comes back, whatever surrounds it. */
  lemma ExtractUndoesWrap(b: Brackets, before: string, body: string, after: string)
    requires b.Valid() && IsBalanced(b, body)
    ensures Extracted(b, before + ([b.open] + body + [b.close]) + after, |before|)
         == Some([b.open] + body + [b.close])
  {
    var wrapped := [b.open] + body + [b.close];
    var s := (before + wrapped + after)[|before|..];
    assert s == [b.open] + (body + ([b.close] + after));
    CloseSkips(b, body, [b.close] + after, 0, CODE);
    assert s[1..] == body + ([b.close] + after);
    assert s[..|body| + 2] == wrapped;
  }

  lemma {:induction false} ScanConcat(b: Brackets, s: string, t: string, depth: int, mode: Mode)
    ensures AdvanceAll(mode, s + t) == AdvanceAll(AdvanceAll(mode, s), t)
    ensures FinalDepth(b, s + t, depth, mode)
         == FinalDepth(b, t, FinalDepth(b, s, depth, mode), AdvanceAll(mode, s))
    ensures NeverUnder(b, s + t, depth, mode)
       <==> NeverUnder(b, s, depth, mode) && NeverUnder(b, t, FinalDepth(b, s, depth, mode), AdvanceAll(mode, s))
    decreases |s|
  {
    if s == "" {
      assert s + t == t;
    } else {
      assert (s + t)[1..] == s[1..] + t;
      ScanConcat(b, s[1..], t, b.Depth(depth, mode, s[0]), Advance(mode, s[0]));
    }
  }

  lemma BalancedConcat(b: Brackets, s: string, t: string)
    requires IsBalanced(b, s) && IsBalanced(b, t)
    ensures IsBalanced(b, s + t)
  {
    ScanConcat(b, s, t, 0, CODE);
  }

  lemma {:induction false} SplitConcat(s: string, t: string, depth: int, mode: Mode)
    ensures AnyFinalDepth(s + t, depth, mode)
         == AnyFinalDepth(t, AnyFinalDepth(s, depth, mode), AdvanceAll(mode, s))
    ensures NoTopComma(s + t, depth, mode)
       <==> NoTopComma(s, depth, mode) && NoTopComma(t, AnyFinalDepth(s, depth, mode), AdvanceAll(mode, s))
    decreases |s|
  {
    if s == "" {
      assert s + t == t;
    } else {
      assert (s + t)[1..] == s[1..] + t;
      SplitConcat(s[1..], t, AnyDepth(depth, mode, s[0]), Advance(mode, s[0]));
    }
  }

  // ----- Scanning undoes printing -----

  predicate AllSpaces(w: string) {
    forall k :: 0 <= k < |w| ==> IsSpace(w[k])
  }

  /** The same scan by the splitter, which must not meet a comma of the top level. */
  function ReadPieces(s: string): Reading {
    Reading(AdvanceAll(CODE, s), AnyFinalDepth(s, 0, CODE), NoTopComma(s, 0, CODE))
  }

  /** What one argument may look like between two commas: literals closed, brackets matched, no comma of its own level. */
  predicate IsArgumentText(s: string) {
    IsBalanced(CALL, s) && ReadPieces(s) == Reading(CODE, 0, true)
  }

  /** An argument, with the white space printed around it. */
  datatype Printed = Printed(before: string, arg: string, after: string) {
    predicate Valid() {
      && AllSpaces(before) && AllSpaces(after)
      && arg != "" && Trim(arg) == arg && IsArgumentText(arg)
    }

    function Text(): string { before + arg + after }
  }

  function ArgList(args: seq<Printed>): string {
    if |args| == 0 then ""
    else if |args| == 1 then args[0].Text()
    else args[0].Text() + "," + ArgList(args[1..])
  }

  function ArgsOf(args: seq<Printed>): seq<string> {
    seq(|args|, k requires 0 <= k < |args| => args[k].arg)
  }

  lemma {:induction false} SpacesAreArgumentText(w: string)
    requires AllSpaces(w)
    ensures IsArgumentText(w)
    decreases |w|
  {
    if w == "" {
    } else {
      SpacesAreArgumentText(w[1..]);
    }
  }

  lemma ArgumentTextConcat(s: string, t: string)
    requires IsArgumentText(s) && IsArgumentText(t)
    ensures IsArgumentText(s + t)
  {
    BalancedConcat(CALL, s, t);
    SplitConcat(s, t, 0, CODE);
  }

  lemma PrintedIsArgumentText(p: Printed)
    requires p.Valid()
    ensures IsArgumentText(p.Text())
  {
    SpacesAreArgumentText(p.before);
    SpacesAreArgumentText(p.after);
    ArgumentTextConcat(p.before, p.arg);
    ArgumentTextConcat(p.before + p.arg, p.after);
  }

  lemma {:induction false} TrimStartSkips(w: string, s: string)
    requires AllSpaces(w)
    ensures TrimStart(w + s) == TrimStart(s)
    decreases |w|
  {
    if w == "" {
      assert w + s == s;
    } else {
      assert (w + s)[1..] == w[1..] + s;
      TrimStartSkips(w[1..], s);
    }
  }

  lemma {:induction false} TrimEndSkips(s: string, w: string)
    requires AllSpaces(w)
    ensures TrimEnd(s + w) == TrimEnd(s)
    decreases |w|
  {
    if w == "" {
      assert s + w == s;
    } else {
      assert (s + w)[..|s + w| - 1] == s + w[..|w| - 1];
      TrimEndSkips(s, w[..|w| - 1]);
    }
  }

  lemma {:induction false} TrimShortens(s: string)
    ensures |TrimStart(s)| <= |s| && |TrimEnd(s)| <= |s|
    decreases |s|
  {
    if s == "" {
    } else {
      TrimShortens(s[1..]);
      TrimShortens(s[..|s| - 1]);
    }
  }

  lemma TrimUndoesPadding(p: Printed)
    requires p.Valid()
    ensures Trim(p.Text()) == p.arg
  {
    assert p.Text() == p.before + (p.arg + p.after);
    TrimStartSkips(p.before, p.arg + p.after);
    TrimShortens(p.arg[1..]);
    TrimShortens(TrimStart(p.arg));
    assert !IsSpace(p.arg[0]);
    assert TrimStart(p.arg + p.after) == p.arg + p.after;
    TrimEndSkips(p.arg, p.after);
  }

  lemma {:induction false} ArgListBalanced(args: seq<Printed>)
    requires forall k :: 0 <= k < |args| ==> args[k].Valid()
    ensures IsBalanced(CALL, ArgList(args))
  {
    if |args| == 0 {
    } else {
      PrintedIsArgumentText(args[0]);
      if |args| > 1 {
        ArgListBalanced(args[1..]);
        assert ","[1..] == "";
        assert IsBalanced(CALL, ",");
        BalancedConcat(CALL, args[0].Text(), ",");
        BalancedConcat(CALL, args[0].Text() + ",", ArgList(args[1..]));
      }
    }
  }

  lemma PiecesOfOne(s: string)
    requires IsArgumentText(s)
    ensures Pieces(s, 0, CODE, "") == [s]
  {
    PiecesSkip(s, "", 0, CODE, "");
    assert s + "" == s && "" + s == s;
  }

  lemma PiecesOfMore(s: string, rest: string)
    requires IsArgumentText(s)
    ensures Pieces(s + "," + rest, 0, CODE, "") == [s] + Pieces(rest, 0, CODE, "")
  {
    PiecesSkip(s, "," + rest, 0, CODE, "");
    assert s + "," + rest == s + ("," + rest) && "" + s == s;
    assert ("," + rest)[1..] == rest;
  }

  lemma ArgsOfFirst(args: seq<Printed>)
    requires |args| > 0
    ensures ArgsOf(args) == [args[0].arg] + ArgsOf(args[1..])
  {
  }

  lemma {:induction false} ArgListPieces(args: seq<Printed>)
    requires |args| > 0 && forall k :: 0 <= k < |args| ==> args[k].Valid()
    ensures TrimAll(Pieces(ArgList(args), 0, CODE, "")) == ArgsOf(args)
    decreases |args|
  {
    var first := args[0].Text();
    PrintedIsArgumentText(args[0]);
    TrimUndoesPadding(args[0]);
    if |args| == 1 {
      PiecesOfOne(first);
    } else {
      PiecesOfMore(first, ArgList(args[1..]));
      ArgListPieces(args[1..]);
      TrimAllFirst(first, Pieces(ArgList(args[1..]), 0, CODE, ""));
      ArgsOfFirst(args);
    }
  }

  lemma TrimAllFirst(piece: string, pieces: seq<string>)
    ensures TrimAll([piece] + pieces) == [Trim(piece)] + TrimAll(pieces)
  {
  }

  lemma {:induction false} NonEmptyKeeps(ss: seq<string>)
    requires forall k :: 0 <= k < |ss| ==> ss[k] != ""
    ensures NonEmpty(ss) == ss
  {
    if ss == [] {
    } else {
      NonEmptyKeeps(ss[1..]);
      assert ss == [ss[0]] + ss[1..];
    }
  }

  /** Splitting undoes printing. */
  lemma {:induction false} SplitUndoesPrint(args: seq<Printed>)
    requires forall k :: 0 <= k < |args| ==> args[k].Valid()
    ensures TopLevelArgs(ArgList(args)) == ArgsOf(args)
  {
    if args == [] {
      assert TrimAll([""]) == [""];
      assert NonEmpty([""]) == [] + NonEmpty([""][1..]);
    } else {
      ArgListPieces(args);
      NonEmptyKeeps(ArgsOf(args));
    }
  }

  /** The argument list that the callers cut out of a call: everything between its two brackets. */
  function Inside(call: string): string
    requires |call| >= 2
  {
    call[1..|call| - 1]
  }

  /** Print a call anywhere in a text: the scanner finds it, and its inside splits into its arguments. */
  lemma ScanUndoesPrint(before: string, args: seq<Printed>, after: string)
    requires forall k :: 0 <= k < |args| ==> args[k].Valid()
    ensures var call := Extracted(CALL, before + ("(" + ArgList(args) + ")") + after, |before|);
            && call.Some?
            && |call.value| >= 2
            && TopLevelArgs(Inside(call.value)) == ArgsOf(args)
  {
    ArgListBalanced(args);
    ExtractUndoesWrap(CALL, before, ArgList(args), after);
    assert Inside("(" + ArgList(args) + ")") == ArgList(args);
    SplitUndoesPrint(args);
  }
}
