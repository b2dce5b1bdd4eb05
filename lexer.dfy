// The scanner of the Lox interpreter: a cursor over the source text that
// emits tokens or stops at the first character it does not recognise.
//
// The first half of the module is a functional specification of one scan
// (StepAt for one dispatch, ScanFrom for the whole loop) together with the
// lemmas that state what a scan produces.  The second half is the `Lexer`
// class, whose methods update the cursor fields step by step and are proved
// against that specification.

module Lexing {
  import opened Tokens

  /** The outcome of a scan step or of a whole scan: a value, or the line
      and message of the first lexical error. */
  datatype Result<T> = Ok(value: T) | Err(line: nat, message: string)

  const UnexpectedCharacter: string := "Unexpected character"

  /** The characters `scan_token` dispatches on; any other one is an error. */
  predicate Recognised(c: char) {
    c == '(' || c == ')' || c == '{' || c == '}' || c == ',' || c == '.' ||
    c == '-' || c == '+' || c == ';' || c == '*' ||
    c == '!' || c == '=' || c == '<' || c == '>' || c == '/' ||
    c == ' ' || c == '\r' || c == '\t' || c == '\n'
  }

  /** Number of newline characters in `s`. */
  function Newlines(s: string): nat {
    multiset(s)['\n']
  }

  /** `src` has character `c` at index `i` (the test `is_next` makes). */
  predicate Follows(src: string, i: nat, c: char) {
    i < |src| && src[i] == c
  }

  /** Where a `//` comment whose text starts at `i` stops: the next newline,
      or the end of the source. */
  function LineEnd(src: string, i: nat): (j: nat)
    requires i <= |src|
    ensures i <= j <= |src|
    ensures j == |src| || src[j] == '\n'
    ensures forall k :: i <= k < j ==> src[k] != '\n'
    decreases |src| - i
  {
    if i == |src| || src[i] == '\n' then i else LineEnd(src, i + 1)
  }

  /** What one call of `scan_token` does with the character at `pos`. */
  datatype Step =
    | Emit(kind: TokenType, next: nat)  // a token spanning [pos, next)
    | Skip(next: nat)                   // whitespace or a comment
    | Newline(next: nat)                // a newline: the line counter moves on
    | Unexpected                        // the scan fails here

  datatype Option<T> = None | Some(value: T)

  /** The kind of a single-character punctuation token. */
  function Punctuation(c: char): (k: Option<TokenType>)
    ensures k.Some? <==> c in {'(', ')', '{', '}', ',', '.', '-', '+', ';', '*'}
    ensures k.Some? ==> Spelling(k.value) == [c]
  {
    match c
    case '(' => Some(LeftParen)
    case ')' => Some(RightParen)
    case '{' => Some(LeftBrace)
    case '}' => Some(RightBrace)
    case ',' => Some(Comma)
    case '.' => Some(Dot)
    case '-' => Some(Minus)
    case '+' => Some(Plus)
    case ';' => Some(Semicolon)
    case '*' => Some(Star)
    case _ => None
  }

  /** The one- and two-character kinds of an operator that may be followed by `=`. */
  function Operator(c: char): (k: Option<(TokenType, TokenType)>)
    ensures k.Some? <==> c in {'!', '=', '<', '>'}
    ensures k.Some? ==> Spelling(k.value.0) == [c] && Spelling(k.value.1) == [c, '=']
    ensures k.Some? ==> k.value.0 in {Bang, Equal, Lesser, Greater}
  {
    match c
    case '!' => Some((Bang, BangEqual))
    case '=' => Some((Equal, EqualEqual))
    case '<' => Some((Lesser, LesserEqual))
    case '>' => Some((Greater, GreaterEqual))
    case _ => None
  }

  function StepAt(src: string, pos: nat): (s: Step)
    requires pos < |src|
    ensures !s.Unexpected? ==> pos < s.next <= |src|
  {
    var c := src[pos];
    if Punctuation(c).Some? then Emit(Punctuation(c).value, pos + 1)
    else if Operator(c).Some? then
      if Follows(src, pos + 1, '=') then Emit(Operator(c).value.1, pos + 2)
      else Emit(Operator(c).value.0, pos + 1)
    else if c == '/' then
      if Follows(src, pos + 1, '/') then Skip(LineEnd(src, pos + 2)) else Emit(Slash, pos + 1)
    else if c == ' ' || c == '\r' || c == '\t' then Skip(pos + 1)
    else if c == '\n' then Newline(pos + 1)
    else Unexpected
  }

  /** One step fails exactly on an unrecognised character, moves to the
      next line exactly on a newline, skips no newline, and emits the exact
      spelling of its kind, with the longest operator that matches. */
  lemma StepFacts(src: string, pos: nat)
    requires pos < |src|
    ensures StepAt(src, pos).Unexpected? <==> !Recognised(src[pos])
    ensures StepAt(src, pos).Newline? <==> src[pos] == '\n'
    ensures StepAt(src, pos).Newline? ==> StepAt(src, pos).next == pos + 1
    ensures StepAt(src, pos).Skip? ==> '\n' !in src[pos..StepAt(src, pos).next]
    ensures StepAt(src, pos).Emit? ==>
      StepAt(src, pos).kind != EOF && src[pos..StepAt(src, pos).next] == Spelling(StepAt(src, pos).kind)
    ensures StepAt(src, pos).Emit? && StepAt(src, pos).kind in {Bang, Equal, Lesser, Greater} ==>
      !Follows(src, StepAt(src, pos).next, '=')
    ensures StepAt(src, pos).Emit? && StepAt(src, pos).kind == Slash ==>
      !Follows(src, StepAt(src, pos).next, '/')
  {
    var c := src[pos];
    var s := StepAt(src, pos);
    if Punctuation(c).Some? {
      assert s == Emit(Punctuation(c).value, pos + 1);
      assert src[pos..s.next] == [c];
      assert Recognised(c);
    } else if Operator(c).Some? {
      assert Recognised(c);
      if Follows(src, pos + 1, '=') {
        assert src[pos..s.next] == [c, '='];
      } else {
        assert src[pos..s.next] == [c];
      }
    } else if c == '/' {
      assert Recognised(c);
      if Follows(src, pos + 1, '/') {
        var j := LineEnd(src, pos + 2);
        assert s == Skip(j);
        forall k | pos <= k < j ensures src[k] != '\n' { }
      } else {
        assert src[pos..s.next] == [c];
      }
    } else if c == ' ' || c == '\r' || c == '\t' {
      assert Recognised(c);
      assert src[pos..s.next] == [c];
    } else if c == '\n' {
      assert Recognised(c);
    } else {
      assert !Recognised(c);
    }
  }

  /** What each recognised character makes a step do.  Punctuation is a
      one-character token.  `!`, `=`, `<` and `>` take a following `=` into
      a two-character token and are a one-character token otherwise.  `/`
      is `Slash` unless a second `/` opens a comment, which is skipped up to
      the end of its line.  Blanks are skipped.  (With `StepFacts`, the
      token's text is the spelling of its kind, which fixes the kind.) */
  lemma StepDispatch(src: string, pos: nat)
    requires pos < |src|
    ensures src[pos] in {'(', ')', '{', '}', ',', '.', '-', '+', ';', '*'} ==>
      StepAt(src, pos).Emit? && StepAt(src, pos).next == pos + 1
    ensures src[pos] in {'!', '=', '<', '>'} && Follows(src, pos + 1, '=') ==>
      StepAt(src, pos).Emit? && StepAt(src, pos).next == pos + 2
    ensures src[pos] in {'!', '=', '<', '>'} && !Follows(src, pos + 1, '=') ==>
      StepAt(src, pos).Emit? && StepAt(src, pos).next == pos + 1
    ensures src[pos] == '/' && !Follows(src, pos + 1, '/') ==> StepAt(src, pos) == Emit(Slash, pos + 1)
    ensures src[pos] == '/' && Follows(src, pos + 1, '/') ==> StepAt(src, pos) == Skip(LineEnd(src, pos + 2))
    ensures src[pos] in {' ', '\r', '\t'} ==> StepAt(src, pos) == Skip(pos + 1)
  {
    var c := src[pos];
    if Punctuation(c).Some? {
      assert c in {'(', ')', '{', '}', ',', '.', '-', '+', ';', '*'};
    } else if Operator(c).Some? {
      assert c !in {'(', ')', '{', '}', ',', '.', '-', '+', ';', '*'};
    } else {
      assert c !in {'!', '=', '<', '>'};
    }
  }

  /** Puts `done` in front of the tokens of a successful scan; an error
      stays the same error. */
  function Prepend(done: seq<Token>, r: Result<seq<Token>>): Result<seq<Token>> {
    match r
    case Ok(ts) => Ok(done + ts)
    case Err(line, message) => Err(line, message)
  }

  /** The result of scanning `src` from index `pos` with the line counter at `line`. */
  function ScanFrom(src: string, pos: nat, line: nat): (r: Result<seq<Token>>)
    requires pos <= |src|
    ensures r.Ok? ==> |r.value| > 0 && r.value[|r.value| - 1].kind == EOF && line <= r.value[|r.value| - 1].line
    ensures r.Err? ==> r.message == UnexpectedCharacter && line <= r.line
    decreases |src| - pos
  {
    if pos == |src| then Ok([Token(EOF, "", "", line)])
    else match StepAt(src, pos)
      case Unexpected => Err(line, UnexpectedCharacter)
      case Skip(next) => ScanFrom(src, next, line)
      case Newline(next) => ScanFrom(src, next, line + 1)
      case Emit(kind, next) => Prepend([Token(kind, src[pos..next], "", line)], ScanFrom(src, next, line))
  }

  /** The result of scanning a whole source text from a fresh scanner. */
  function Lex(src: string): (r: Result<seq<Token>>)
    ensures r.Ok? ==> |r.value| > 0 && r.value[|r.value| - 1].kind == EOF && 1 <= r.value[|r.value| - 1].line
    ensures r.Err? ==> r.message == UnexpectedCharacter && 1 <= r.line
  {
    ScanFrom(src, 0, 1)
  }

  lemma NewlinesSplit(s: string, a: nat, b: nat, c: nat)
    requires a <= b <= c <= |s|
    ensures Newlines(s[a..c]) == Newlines(s[a..b]) + Newlines(s[b..c])
  {
    assert s[a..c] == s[a..b] + s[b..c];
  }

  /** A step moves the line counter by exactly the newlines it consumes. */
  lemma StepNewlines(src: string, pos: nat)
    requires pos < |src| && !StepAt(src, pos).Unexpected?
    ensures Newlines(src[pos..StepAt(src, pos).next]) == if StepAt(src, pos).Newline? then 1 else 0
  {
    var s := StepAt(src, pos);
    StepFacts(src, pos);
    if s.Newline? {
      assert src[pos..s.next] == ['\n'];
    } else if s.Emit? {
      assert '\n' !in src[pos..s.next];
    }
  }

  lemma PrependAssoc(a: seq<Token>, b: seq<Token>, r: Result<seq<Token>>)
    ensures Prepend(a, Prepend(b, r)) == Prepend(a + b, r)
  {
    if r.Ok? {
      assert a + (b + r.value) == (a + b) + r.value;
    }
  }

  /** `ts` ends with the only `EOF` token, which has an empty lexeme and
      literal and line `eofLine`; every earlier token has an empty literal. */
  ghost predicate EndsWithEof(ts: seq<Token>, eofLine: nat) {
    |ts| > 0 &&
    ts[|ts| - 1] == Token(EOF, "", "", eofLine) &&
    forall i :: 0 <= i < |ts| - 1 ==> ts[i].kind != EOF && ts[i].literal == ""
  }

  lemma ConsBeforeEof(t: Token, ts: seq<Token>, eofLine: nat)
    requires EndsWithEof(ts, eofLine) && t.kind != EOF && t.literal == ""
    ensures EndsWithEof([t] + ts, eofLine)
  {
    forall i | 0 <= i < |ts|
      ensures ([t] + ts)[i] == if i == 0 then t else ts[i - 1]
    {
    }
  }

  /** A successful scan ends with exactly one `EOF` token, with empty lexeme
      and literal, on the line reached after counting every newline of the
      scanned text; every earlier token has an empty literal. */
  lemma {:induction false} EndsWithSingleEof(src: string, pos: nat, line: nat)
    requires pos <= |src| && ScanFrom(src, pos, line).Ok?
    ensures EndsWithEof(ScanFrom(src, pos, line).value, line + Newlines(src[pos..]))
    decreases |src| - pos
  {
    if pos < |src| {
      var s := StepAt(src, pos);
      StepNewlines(src, pos);
      NewlinesSplit(src, pos, s.next, |src|);
      assert src[pos..] == src[pos..|src|] && src[s.next..] == src[s.next..|src|];
      var nextLine := if s.Newline? then line + 1 else line;
      EndsWithSingleEof(src, s.next, nextLine);
      if s.Emit? {
        StepFacts(src, pos);
        ConsBeforeEof(Token(s.kind, src[pos..s.next], "", line), ScanFrom(src, s.next, nextLine).value,
          line + Newlines(src[pos..]));
      }
    }
  }

  /** Where a token may stand in `src` when scanning started at `base` on
      line `line`: its lexeme is the non-empty slice of `src` at `p`, it is
      the spelling of its kind, its literal is empty, its line is `line`
      plus the newlines between `base` and `p`, and a one-character
      operator is not followed by the character that would have made it a
      two-character one. */
  ghost predicate TokenAt(src: string, base: nat, line: nat, t: Token, p: nat) {
    base <= p && p + |t.lexeme| <= |src| &&
    t.kind != EOF && 0 < |t.lexeme| &&
    t.lexeme == src[p..p + |t.lexeme|] &&
    t.lexeme == Spelling(t.kind) &&
    t.literal == "" &&
    t.line == line + Newlines(src[base..p]) &&
    (t.kind in {Bang, Equal, Lesser, Greater} ==> !Follows(src, p + |t.lexeme|, '=')) &&
    (t.kind == Slash ==> !Follows(src, p + 1, '/'))
  }

  /** The slices at `starts` follow each other without overlapping. */
  ghost predicate Ordered(ts: seq<Token>, starts: seq<nat>)
    requires |starts| <= |ts|
  {
    forall i :: 0 <= i < |starts| - 1 ==> starts[i] + |ts[i].lexeme| <= starts[i + 1]
  }

  /** Tokens placed relative to a later scan position `next` are placed
      relative to `base` as well, once the newlines in between are counted. */
  lemma ShiftSpans(src: string, base: nat, next: nat, line: nat, nextLine: nat, ts: seq<Token>, starts: seq<nat>)
    requires base <= next <= |src| && nextLine == line + Newlines(src[base..next])
    requires |starts| <= |ts|
    requires forall i :: 0 <= i < |starts| ==> TokenAt(src, next, nextLine, ts[i], starts[i])
    ensures forall i :: 0 <= i < |starts| ==> TokenAt(src, base, line, ts[i], starts[i])
  {
    forall i | 0 <= i < |starts|
      ensures TokenAt(src, base, line, ts[i], starts[i])
    {
      NewlinesSplit(src, base, next, starts[i]);
    }
  }

  /** The token an `Emit` step pushes stands at the step's position. */
  lemma EmittedToken(src: string, pos: nat, line: nat)
    requires pos < |src| && StepAt(src, pos).Emit?
    ensures TokenAt(src, pos, line, Token(StepAt(src, pos).kind, src[pos..StepAt(src, pos).next], "", line), pos)
  {
    StepFacts(src, pos);
  }

  /** A placed token in front of placed, ordered tokens that start after it. */
  lemma ConsSpans(src: string, base: nat, line: nat, t: Token, ts: seq<Token>, starts: seq<nat>)
    requires TokenAt(src, base, line, t, base)
    requires |starts| <= |ts| && Ordered(ts, starts)
    requires forall i :: 0 <= i < |starts| ==> TokenAt(src, base, line, ts[i], starts[i])
    requires |starts| > 0 ==> base + |t.lexeme| <= starts[0]
    ensures Ordered([t] + ts, [base] + starts)
    ensures forall i :: 0 <= i < |starts| + 1 ==> TokenAt(src, base, line, ([t] + ts)[i], ([base] + starts)[i])
  {
    forall i | 0 <= i < |starts| + 1
      ensures TokenAt(src, base, line, ([t] + ts)[i], ([base] + starts)[i])
    {
      if i > 0 {
        assert ([t] + ts)[i] == ts[i - 1] && ([base] + starts)[i] == starts[i - 1];
      }
    }
  }

  /** Every token of a successful scan but the final `EOF` is an exact slice
      of the source; the slices come in increasing order and do not overlap.
      The slice starts are returned as `starts`. */
  lemma {:induction false} TokenSpans(src: string, pos: nat, line: nat) returns (starts: seq<nat>)
    requires pos <= |src| && ScanFrom(src, pos, line).Ok?
    ensures var ts := ScanFrom(src, pos, line).value;
      |starts| == |ts| - 1 && Ordered(ts, starts) &&
      forall i :: 0 <= i < |starts| ==> TokenAt(src, pos, line, ts[i], starts[i])
    decreases |src| - pos
  {
    if pos == |src| {
      starts := [];
    } else {
      var s := StepAt(src, pos);
      StepNewlines(src, pos);
      var nextLine := if s.Newline? then line + 1 else line;
      var rest := TokenSpans(src, s.next, nextLine);
      var tail := ScanFrom(src, s.next, nextLine).value;
      ShiftSpans(src, pos, s.next, line, nextLine, tail, rest);
      if s.Emit? {
        var t := Token(s.kind, src[pos..s.next], "", line);
        EmittedToken(src, pos, line);
        ConsSpans(src, pos, line, t, tail, rest);
        starts := [pos] + rest;
      } else {
        starts := rest;
      }
    }
  }

  /** A comment that ends by index `n` ends at the same place in `src[..n]`. */
  lemma {:induction false} LineEndPrefix(src: string, n: nat, i: nat)
    requires i <= n <= |src| && LineEnd(src, i) <= n
    ensures LineEnd(src[..n], i) == LineEnd(src, i)
    decreases |src| - i
  {
    if i < n && src[i] != '\n' {
      LineEndPrefix(src, n, i + 1);
    }
  }

  /** A step that ends by index `n` reads nothing at or after `n`, so it is
      the same step in `src[..n]`. */
  lemma StepPrefix(src: string, n: nat, pos: nat)
    requires pos < n <= |src| && !StepAt(src, pos).Unexpected? && StepAt(src, pos).next <= n
    ensures StepAt(src[..n], pos) == StepAt(src, pos)
  {
    var c := src[pos];
    assert src[..n][pos] == c;
    if pos + 1 < n {
      assert src[..n][pos + 1] == src[pos + 1];
    }
    if c == '/' && Follows(src, pos + 1, '/') {
      LineEndPrefix(src, n, pos + 2);
    }
  }

  /** A failed scan failed at a character the dispatch does not recognise,
      returned as `p`, with the line of that character and the message
      "Unexpected character". */
  lemma {:induction false} FailsAtUnrecognised(src: string, pos: nat, line: nat) returns (p: nat)
    requires pos <= |src| && ScanFrom(src, pos, line).Err?
    ensures pos <= p < |src| && !Recognised(src[p])
    ensures ScanFrom(src, pos, line) == Err(line + Newlines(src[pos..p]), UnexpectedCharacter)
    ensures ScanFrom(src[..p], pos, line).Ok?
    decreases |src| - pos
  {
    var s := StepAt(src, pos);
    StepFacts(src, pos);
    if s.Unexpected? {
      p := pos;
    } else {
      StepNewlines(src, pos);
      var nextLine := if s.Newline? then line + 1 else line;
      p := FailsAtUnrecognised(src, s.next, nextLine);
      NewlinesSplit(src, pos, s.next, p);
      StepPrefix(src, p, pos);
    }
  }

  /** A source text made only of recognised characters always scans. */
  lemma {:induction false} RecognisedScans(src: string, pos: nat, line: nat)
    requires pos <= |src|
    requires forall k :: pos <= k < |src| ==> Recognised(src[k])
    ensures ScanFrom(src, pos, line).Ok?
    decreases |src| - pos
  {
    if pos < |src| {
      var s := StepAt(src, pos);
      StepFacts(src, pos);
      RecognisedScans(src, s.next, if s.Newline? then line + 1 else line);
    }
  }

  /** The text from index `i` on, read one character at a time, with the
      blanks, the newlines and every `//` comment (up to, not including,
      the end of its line) left out. */
  function Significant(src: string, i: nat): (r: string)
    requires i <= |src|
    ensures forall k :: 0 <= k < |r| ==> r[k] !in {' ', '\r', '\t', '\n'}
    decreases |src| - i
  {
    if i == |src| then ""
    else if src[i] in {' ', '\r', '\t', '\n'} then Significant(src, i + 1)
    else if src[i] == '/' && Follows(src, i + 1, '/') then Significant(src, LineEnd(src, i + 2))
    else [src[i]] + Significant(src, i + 1)
  }

  /** One step consumes the text it emits, or text that is not significant;
      an unrecognised character is significant. */
  lemma SignificantStep(src: string, pos: nat)
    requires pos < |src|
    ensures match StepAt(src, pos)
      case Emit(_, next) => Significant(src, pos) == src[pos..next] + Significant(src, next)
      case Skip(next) => Significant(src, pos) == Significant(src, next)
      case Newline(next) => Significant(src, pos) == Significant(src, next)
      case Unexpected => Significant(src, pos) == [src[pos]] + Significant(src, pos + 1)
  {
    var c := src[pos];
    StepDispatch(src, pos);
    if Punctuation(c).Some? {
      assert c !in {' ', '\r', '\t', '\n', '/'};
      assert src[pos..pos + 1] == [c];
    } else if Operator(c).Some? {
      assert c !in {' ', '\r', '\t', '\n', '/'};
      if Follows(src, pos + 1, '=') {
        assert Significant(src, pos + 1) == [src[pos + 1]] + Significant(src, pos + 2);
        assert src[pos..pos + 2] == [c] + [src[pos + 1]];
      } else {
        assert src[pos..pos + 1] == [c];
      }
    } else if c == '/' && !Follows(src, pos + 1, '/') {
      assert src[pos..pos + 1] == [c];
    }
  }

  /** The lexemes of `ts`, one after another. */
  function Lexemes(ts: seq<Token>): string {
    if ts == [] then "" else ts[0].lexeme + Lexemes(ts[1..])
  }

  /** A successful scan leaves out exactly the blanks, newlines and
      comments: its lexemes, one after another, are the significant text. */
  lemma {:induction false} ScanCoverage(src: string, pos: nat, line: nat)
    requires pos <= |src| && ScanFrom(src, pos, line).Ok?
    ensures Lexemes(ScanFrom(src, pos, line).value) == Significant(src, pos)
    decreases |src| - pos
  {
    if pos == |src| {
      assert [Token(EOF, "", "", line)][1..] == [];
    } else {
      var s := StepAt(src, pos);
      SignificantStep(src, pos);
      var nextLine := if s.Newline? then line + 1 else line;
      ScanCoverage(src, s.next, nextLine);
      if s.Emit? {
        var t := Token(s.kind, src[pos..s.next], "", line);
        var rest := ScanFrom(src, s.next, nextLine).value;
        assert ([t] + rest)[1..] == rest;
      }
    }
  }

  /** Every character of `s` is one the dispatch recognises. */
  predicate AllRecognised(s: string) {
    forall k :: 0 <= k < |s| ==> Recognised(s[k])
  }

  lemma AllRecognisedConcat(a: string, b: string)
    ensures AllRecognised(a + b) <==> AllRecognised(a) && AllRecognised(b)
  {
    if AllRecognised(a) && AllRecognised(b) {
      forall k | 0 <= k < |a + b| ensures Recognised((a + b)[k]) {
        if k >= |a| {
          assert (a + b)[k] == b[k - |a|];
        }
      }
    }
    if AllRecognised(a + b) {
      forall k | 0 <= k < |a| ensures Recognised(a[k]) {
        assert (a + b)[k] == a[k];
      }
      forall k | 0 <= k < |b| ensures Recognised(b[k]) {
        assert (a + b)[|a| + k] == b[k];
      }
    }
  }

  /** A scan succeeds exactly when every significant character (outside
      blanks, newlines and comments) is one the dispatch recognises. */
  lemma {:induction false} ScanSucceeds(src: string, pos: nat, line: nat)
    requires pos <= |src|
    ensures ScanFrom(src, pos, line).Ok? <==> AllRecognised(Significant(src, pos))
    decreases |src| - pos
  {
    if pos < |src| {
      var s := StepAt(src, pos);
      StepFacts(src, pos);
      SignificantStep(src, pos);
      if s.Unexpected? {
        AllRecognisedConcat([src[pos]], Significant(src, pos + 1));
        assert !AllRecognised([src[pos]]) by {
          assert [src[pos]][0] == src[pos];
        }
      } else {
        ScanSucceeds(src, s.next, if s.Newline? then line + 1 else line);
        if s.Emit? {
          var text := src[pos..s.next];
          AllRecognisedConcat(text, Significant(src, s.next));
          if s.next == pos + 2 {
            assert text == [src[pos], src[pos + 1]] && src[pos + 1] == '=';
          } else {
            assert text == [src[pos]];
          }
        }
      }
    }
  }

  /** The whole-source form of the properties above, for a fresh scanner
      starting on line 1: the tokens before `EOF` are slices at `starts`,
      each on line 1 plus the newlines before it, and `EOF` carries line 1
      plus all the newlines of the source. */
  lemma LexTokens(src: string) returns (starts: seq<nat>)
    requires Lex(src).Ok?
    ensures var ts := Lex(src).value;
      |ts| == |starts| + 1 &&
      ts[|starts|] == Token(EOF, "", "", 1 + Newlines(src)) &&
      (forall i :: 0 <= i < |starts| ==>
        ts[i].kind != EOF && ts[i].literal == "" && 0 < |ts[i].lexeme| &&
        starts[i] + |ts[i].lexeme| <= |src| &&
        ts[i].lexeme == src[starts[i]..starts[i] + |ts[i].lexeme|] &&
        ts[i].line == 1 + Newlines(src[..starts[i]])) &&
      (forall i :: 0 <= i < |starts| - 1 ==> starts[i] + |ts[i].lexeme| <= starts[i + 1])
  {
    EndsWithSingleEof(src, 0, 1);
    starts := TokenSpans(src, 0, 1);
    assert src[0..] == src;
    forall i | 0 <= i < |starts| ensures src[0..starts[i]] == src[..starts[i]] { }
  }

  /** A failed scan of a whole source reports the line of the offending
      character: 1 plus the newlines before it. */
  lemma LexError(src: string) returns (p: nat)
    requires Lex(src).Err?
    ensures p < |src| && !Recognised(src[p])
    ensures Lex(src) == Err(1 + Newlines(src[..p]), UnexpectedCharacter)
    ensures Lex(src[..p]).Ok?
  {
    p := FailsAtUnrecognised(src, 0, 1);
    assert src[0..p] == src[..p];
  }

  lemma EmptySource()
    ensures Lex("") == Ok([Token(EOF, "", "", 1)])
  {
  }

  /** `!=` is one two-character token; a lone `!` is `Bang`. */
  lemma BangExamples()
    ensures Lex("!=") == Ok([Token(BangEqual, "!=", "", 1), Token(EOF, "", "", 1)])
    ensures Lex("!") == Ok([Token(Bang, "!", "", 1), Token(EOF, "", "", 1)])
  {
    var two, one := "!=", "!";
    var eof := Token(EOF, "", "", 1);
    assert StepAt(two, 0) == Emit(BangEqual, 2);
    assert two[0..2] == two;
    assert ScanFrom(two, 0, 1) == Prepend([Token(BangEqual, two, "", 1)], Ok([eof]));
    assert [Token(BangEqual, two, "", 1)] + [eof] == [Token(BangEqual, two, "", 1), eof];
    assert StepAt(one, 0) == Emit(Bang, 1);
    assert one[0..1] == one;
    assert ScanFrom(one, 0, 1) == Prepend([Token(Bang, one, "", 1)], Ok([eof]));
    assert [Token(Bang, one, "", 1)] + [eof] == [Token(Bang, one, "", 1), eof];
  }

  /** A comment yields no token and stops before its newline; a lone `/`
      is `Slash`. */
  lemma CommentExample()
    ensures Lex("// c\n/") == Ok([Token(Slash, "/", "", 2), Token(EOF, "", "", 2)])
  {
    var src := "// c\n/";
    assert LineEnd(src, 2) == 4;
    assert StepAt(src, 0) == Skip(4);
    assert StepAt(src, 4) == Newline(5);
    assert StepAt(src, 5) == Emit(Slash, 6);
    assert src[5..6] == "/";
    assert ScanFrom(src, 6, 2) == Ok([Token(EOF, "", "", 2)]);
    var slash, eof := Token(Slash, "/", "", 2), Token(EOF, "", "", 2);
    assert ScanFrom(src, 5, 2) == Prepend([slash], Ok([eof]));
    assert [slash] + [eof] == [slash, eof];
    assert ScanFrom(src, 5, 2) == Ok([Token(Slash, "/", "", 2), Token(EOF, "", "", 2)]);
  }

  /** Digits and quotes are not scanned: they fail on their line. */
  lemma UnexpectedExamples()
    ensures Lex("1+2") == Err(1, UnexpectedCharacter)
    ensures Lex("+\n\"") == Err(2, UnexpectedCharacter)
  {
    assert StepAt("1+2", 0) == Unexpected;
    var src := "+\n\"";
    assert StepAt(src, 2) == Unexpected;
    assert ScanFrom(src, 2, 2) == Err(2, UnexpectedCharacter);
    assert StepAt(src, 1) == Newline(2);
    assert StepAt(src, 0) == Emit(Plus, 1);
  }

  /** The scanner state of src/lexer.rs: the source, the tokens pushed so
      far, and the cursor `start`/`current` with the line counter. */
  class Lexer {
    const source: string
    var tokens: seq<Token>
    var start: nat
    var current: nat
    var line: nat

    ghost predicate Valid()
      reads this
    {
      start <= current <= |source|
    }

    constructor (source: string)
      ensures Valid()
      ensures this.source == source && tokens == [] && start == 0 && current == 0 && line == 1
    {
      this.source := source;
      tokens := [];
      start := 0;
      current := 0;
      line := 1;
    }

    /** Scans the rest of the source: the tokens already pushed followed by
        the scan from the cursor, or the first error. */
    method ScanTokens() returns (r: Result<seq<Token>>)
      requires Valid()
      modifies this`start, this`current, this`line, this`tokens
      ensures Valid()
      ensures r == Prepend(old(tokens), ScanFrom(source, old(current), old(line)))
      ensures r.Ok? ==> tokens == r.value && current == |source| && line == r.value[|r.value| - 1].line
    {
      while !IsAtEnd()
        invariant Valid()
        invariant Prepend(tokens, ScanFrom(source, current, line))
               == Prepend(old(tokens), ScanFrom(source, old(current), old(line)))
        decreases |source| - current
      {
        start := current;
        ghost var before, lineBefore, tokensBefore := current, line, tokens;
        var outcome := ScanToken();
        if outcome.Err? {
          return Err(outcome.line, outcome.message);
        }
        var s := StepAt(source, before);
        if s.Emit? {
          PrependAssoc(tokensBefore, [Token(s.kind, source[before..s.next], "", lineBefore)], ScanFrom(source, current, line));
        }
      }
      tokens := tokens + [Token(EOF, "", "", line)];
      r := Ok(tokens);
    }

    /** Dispatches on the character at the cursor and advances past it (and
        past its lookahead or comment). */
    method ScanToken() returns (r: Result<()>)
      requires Valid() && start == current < |source|
      modifies this`current, this`line, this`tokens
      ensures Valid() && old(current) < current
      ensures match StepAt(source, old(current))
        case Unexpected =>
          r == Err(old(line), UnexpectedCharacter) && current == old(current) + 1 &&
          line == old(line) && tokens == old(tokens)
        case Emit(kind, next) =>
          r == Ok(()) && current == next && line == old(line) &&
          tokens == old(tokens) + [Token(kind, source[old(current)..next], "", old(line))]
        case Skip(next) =>
          r == Ok(()) && current == next && line == old(line) && tokens == old(tokens)
        case Newline(next) =>
          r == Ok(()) && current == next && line == old(line) + 1 && tokens == old(tokens)
    {
      var c := Advance();
      match c {
        case '(' => AddToken(LeftParen);
        case ')' => AddToken(RightParen);
        case '{' => AddToken(LeftBrace);
        case '}' => AddToken(RightBrace);
        case ',' => AddToken(Comma);
        case '.' => AddToken(Dot);
        case '-' => AddToken(Minus);
        case '+' => AddToken(Plus);
        case ';' => AddToken(Semicolon);
        case '*' => AddToken(Star);
        case '!' =>
          var isOk := IsNext('=');
          AddToken(if isOk then BangEqual else Bang);
        case '=' =>
          var isOk := IsNext('=');
          AddToken(if isOk then EqualEqual else Equal);
        case '<' =>
          var isOk := IsNext('=');
          AddToken(if isOk then LesserEqual else Lesser);
        case '>' =>
          var isOk := IsNext('=');
          AddToken(if isOk then GreaterEqual else Greater);
        case '/' =>
          var isOk := IsNext('/');
          if isOk {
            assert LineEnd(source, current) == LineEnd(source, old(current) + 2);
            while Peek() != '\n' && !IsAtEnd()
              invariant Valid() && old(current) + 2 <= current
              invariant line == old(line) && tokens == old(tokens)
              invariant LineEnd(source, current) == LineEnd(source, old(current) + 2)
              decreases |source| - current
            {
              var skipped := Advance();
            }
            assert current == LineEnd(source, old(current) + 2);
            assert StepAt(source, old(current)) == Skip(current);
          } else {
            AddToken(Slash);
          }
        case ' ' => assert StepAt(source, old(current)) == Skip(current);
        case '\r' => assert StepAt(source, old(current)) == Skip(current);
        case '\t' => assert StepAt(source, old(current)) == Skip(current);
        case '\n' => line := line + 1;
        case _ => return Err(line, UnexpectedCharacter);
      }
      r := Ok(());
    }

    /** Consumes the character at the cursor and returns it. */
    method Advance() returns (c: char)
      requires current < |source|
      modifies this`current
      ensures current == old(current) + 1 && c == source[old(current)]
    {
      c := source[current];
      current := current + 1;
    }

    /** The character at the cursor, or `'\0'` at the end of the source. */
    function Peek(): (c: char)
      reads this
      ensures current < |source| ==> c == source[current]
      ensures current >= |source| ==> c == '\0'
    {
      if IsAtEnd() then '\0' else source[current]
    }

    /** Pushes a token of the given kind whose lexeme is the text between
        `start` and `current`, with an empty literal. */
    method AddToken(kind: TokenType)
      requires start <= current <= |source|
      modifies this`tokens
      ensures tokens == old(tokens) + [Token(kind, source[start..current], "", line)]
    {
      AddTokenWithLiteral(kind, "");
    }

    method AddTokenWithLiteral(kind: TokenType, literal: string)
      requires start <= current <= |source|
      modifies this`tokens
      ensures tokens == old(tokens) + [Token(kind, source[start..current], literal, line)]
    {
      var text := source[start..current];
      tokens := tokens + [Token(kind, text, literal, line)];
    }

    function IsAtEnd(): (b: bool)
      reads this
      ensures b <==> |source| <= current
    {
      current >= |source|
    }

    /** Consumes the character at the cursor only when it is `expected`,
        and never moves past the end of the source. */
    method IsNext(expected: char) returns (matched: bool)
      modifies this`current
      ensures matched == Follows(source, old(current), expected)
      ensures current == if matched then old(current) + 1 else old(current)
      ensures matched ==> current <= |source|
    {
      if IsAtEnd() {
        return false;
      }
      if source[current] != expected {
        matched := false;
      } else {
        current := current + 1;
        matched := true;
      }
    }
  }

  /** A fresh scanner over `source`, run once. */
  method Scan(source: string) returns (r: Result<seq<Token>>)
    ensures r == Lex(source)
  {
    var lexer := new Lexer(source);
    r := lexer.ScanTokens();
    if r.Ok? {
      assert [] + Lex(source).value == Lex(source).value;
    }
  }
}
