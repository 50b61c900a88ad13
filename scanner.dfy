/** The `Scanner` of src/scanner.rs: a cursor over the source characters
    that appends tokens as it goes. Each method is proved to have the effect
    that module Lexical describes: `ScanToken` that of `ScanStep`,
    `ScanTokens` that of `ScanFrom` followed by the `EOF` token. */
module Scanning {
  import opened Basics
  import opened Tokens
  import opened Lexical
  import RoxTypes

  class Scanner {
    const source: string
    var tokens: seq<Token>
    /** The reports that `error` writes to standard error, in order. */
    var reported: seq<ScanError>
    var start: nat
    var current: nat
    var line: nat

    /** The cursors stay within the source, and `line` is one more than the
        number of newlines consumed so far. */
    ghost predicate Valid()
      reads this
    {
      start <= current <= |source| && line == 1 + Newlines(source, 0, current)
    }

    constructor (src: string)
      ensures source == src && tokens == [] && reported == []
      ensures start == 0 && current == 0 && line == 1
      ensures Valid()
    {
      source := src;
      tokens := [];
      reported := [];
      start := 0;
      current := 0;
      line := 1;
    }

    function AtEnd(): bool
      reads this
    {
      current >= |source|
    }

    function Peek(): char
      reads this
    {
      PeekAt(source, current)
    }

    function PeekNext(): char
      reads this
    {
      PeekNextAt(source, current)
    }

    /** Consumes and returns the character at `current`. */
    method Advance() returns (c: char)
      requires current < |source|
      modifies this
      ensures c == source[old(current)] && current == old(current) + 1
      ensures tokens == old(tokens) && reported == old(reported)
      ensures start == old(start) && line == old(line)
    {
      current := current + 1;
      c := source[current - 1];
    }

    /** Consumes the character at `current` only when it is `expected`. */
    method MatchNext(expected: char) returns (matched: bool)
      requires current <= |source|
      modifies this
      ensures matched <==> old(current) < |source| && source[old(current)] == expected
      ensures current == if matched then old(current) + 1 else old(current)
      ensures tokens == old(tokens) && reported == old(reported)
      ensures start == old(start) && line == old(line)
    {
      if AtEnd() {
        return false;
      }
      if source[current] != expected {
        return false;
      }
      current := current + 1;
      return true;
    }

    /** `add_token`: appends a token whose lexeme is `source[start..current]`. */
    method AddToken(kind: TokenType, literal: RoxTypes.RoxType)
      requires start <= current <= |source|
      modifies this
      ensures reported == old(reported) && start == old(start) && current == old(current) && line == old(line)
      ensures tokens == old(tokens) + [Token(kind, source[start..current], line, literal)]
    {
      var text := source[start..current];
      tokens := tokens + [NewToken(kind, text, literal, line)];
    }

    /** `add`: a token without a literal. */
    method Add(kind: TokenType)
      requires start <= current <= |source|
      modifies this
      ensures reported == old(reported) && start == old(start) && current == old(current) && line == old(line)
      ensures tokens == old(tokens) + [Token(kind, source[start..current], line, RoxTypes.Nil)]
    {
      AddToken(kind, RoxTypes.Nil);
    }

    /** `error`: one report on the current line. */
    method Error(message: string)
      modifies this
      ensures reported == old(reported) + [ScanError(line, message)]
      ensures tokens == old(tokens) && start == old(start) && current == old(current) && line == old(line)
    {
      reported := reported + [ScanError(line, message)];
    }

    /** The rest of an identifier or keyword, after its first character. */
    method ScanIdentifier()
      requires start < |source| && current == start + 1 && IsAlphanumeric(source[start])
      modifies this
      ensures start == old(start)
      ensures current == IdentifierStep(source, old(start), old(line)).next
      ensures line == IdentifierStep(source, old(start), old(line)).line
      ensures reported == old(reported) + IdentifierStep(source, old(start), old(line)).errors
      ensures tokens == old(tokens) + IdentifierStep(source, old(start), old(line)).emitted
    {
      while IsAlphanumeric(Peek())
        invariant start < current <= |source|
        invariant forall k :: start + 1 <= k < current ==> IsAlphanumeric(source[k])
        invariant tokens == old(tokens) && reported == old(reported) && line == old(line)
        invariant start == old(start)
        decreases |source| - current
      {
        var _ := Advance();
      }
      SkipWhileUnique(source, start + 1, current, Alphanumerics);
      var identifier := source[start..current];
      if identifier in Keywords {
        Add(Keywords[identifier]);
      } else {
        Add(Identifier);
      }
    }

    /** The rest of a string literal, after its opening quote. */
    method ScanString()
      requires start < |source| && current == start + 1 && source[start] == '"'
      modifies this
      ensures start == old(start)
      ensures current == StringStep(source, old(start), old(line)).next
      ensures line == StringStep(source, old(start), old(line)).line
      ensures reported == old(reported) + StringStep(source, old(start), old(line)).errors
      ensures tokens == old(tokens) + StringStep(source, old(start), old(line)).emitted
    {
      while Peek() != '"' && !AtEnd()
        invariant start < current <= |source|
        invariant forall k :: start + 1 <= k < current ==> source[k] != '"'
        invariant line == old(line) + Newlines(source, start + 1, current)
        invariant tokens == old(tokens) && reported == old(reported) && start == old(start)
        decreases |source| - current
      {
        if Peek() == '\n' {
          line := line + 1;
        }
        var _ := Advance();
      }
      CloseString(old(line));
    }

    /** The end of `string`, at the closing quote or at the end of the input:
        `line0` is the line the literal started on. */
    method CloseString(ghost line0: nat)
      requires start < current <= |source| && source[start] == '"'
      requires forall k :: start + 1 <= k < current ==> source[k] != '"'
      requires current == |source| || source[current] == '"'
      requires line == line0 + Newlines(source, start + 1, current)
      modifies this
      ensures start == old(start)
      ensures current == StringStep(source, start, line0).next
      ensures line == StringStep(source, start, line0).line
      ensures reported == old(reported) + StringStep(source, start, line0).errors
      ensures tokens == old(tokens) + StringStep(source, start, line0).emitted
    {
      StringLineAt(source, start, line0, current);
      if AtEnd() {
        UnterminatedAt(source, start, line0, current);
        Error(UnterminatedString);
      } else {
        TerminatedAt(source, start, line0, current);
        var _ := Advance();
        var value := source[start + 1..current - 1];
        AddToken(TokenType.String, RoxTypes.String(value));
      }
    }

    /** The rest of a number, after its first digit. */
    method ScanNumber()
      requires start < |source| && current == start + 1 && IsDigit(source[start])
      modifies this
      ensures start == old(start)
      ensures current == NumberStep(source, old(start), old(line)).next
      ensures line == NumberStep(source, old(start), old(line)).line
      ensures reported == old(reported) + NumberStep(source, old(start), old(line)).errors
      ensures tokens == old(tokens) + NumberStep(source, old(start), old(line)).emitted
    {
      while IsDigit(Peek())
        invariant start < current <= |source|
        invariant forall k :: start + 1 <= k < current ==> IsDigit(source[k])
        invariant tokens == old(tokens) && reported == old(reported) && line == old(line)
        invariant start == old(start)
        decreases |source| - current
      {
        var _ := Advance();
      }
      ghost var digitsEnd := current;
      if Peek() == '.' && IsDigit(PeekNext()) {
        var _ := Advance();
        while IsDigit(Peek())
          invariant digitsEnd + 1 <= current <= |source|
          invariant forall k :: digitsEnd + 1 <= k < current ==> IsDigit(source[k])
          invariant tokens == old(tokens) && reported == old(reported) && line == old(line)
          invariant start == old(start)
          decreases |source| - current
        {
          var _ := Advance();
        }
      }
      NumberEndAt(source, start, digitsEnd, current);
      NumberStepAt(source, start, line, current);
      var text := source[start..current];
      // the `unwrap` of the parse cannot fail: the lexeme has the number shape
      var number := ParseNumber(text).value;
      AddToken(TokenType.Number, RoxTypes.Number(number));
    }

    /** `scan_token`: one lexeme, starting at `current`. */
    method ScanToken()
      requires start == current < |source|
      modifies this
      ensures start == old(start)
      ensures current == ScanStep(source, old(current), old(line)).next
      ensures line == ScanStep(source, old(current), old(line)).line
      ensures reported == old(reported) + ScanStep(source, old(current), old(line)).errors
      ensures tokens == old(tokens) + ScanStep(source, old(current), old(line)).emitted
    {
      var c := Advance();
      if IsPunctuation(c) {
        Add(PunctuationKind(c));
      } else if IsPairing(c) {
        var paired := MatchNext('=');
        if paired {
          Add(OperatorKinds(c).1);
        } else {
          Add(OperatorKinds(c).0);
        }
      } else if c == '/' {
        var comment := MatchNext('/');
        if comment {
          // a comment runs up to the end of the line
          while Peek() != '\n' && !AtEnd()
            invariant start + 2 <= current <= |source|
            invariant forall k :: start + 2 <= k < current ==> source[k] != '\n'
            invariant tokens == old(tokens) && reported == old(reported)
            invariant line == old(line) && start == old(start)
            decreases |source| - current
          {
            var _ := Advance();
          }
          SkipWhileUnique(source, start + 2, current, NonNewlines);
        } else {
          Add(Slash);
        }
      } else if IsBlank(c) {
      } else if c == '\n' {
        line := line + 1;
      } else if c == '"' {
        ScanString();
      } else if IsDigit(c) {
        ScanNumber();
      } else if IsAlphanumeric(c) {
        ScanIdentifier();
      } else {
        Error(UnexpectedCharacter);
      }
    }

    /** `scan_tokens`: scans the rest of the source, then appends the `EOF`
        token, and returns all tokens scanned. */
    method ScanTokens() returns (result: seq<Token>)
      requires Valid()
      modifies this
      ensures var out := ScanFrom(source, old(current), old(line));
        && tokens == old(tokens) + out.tokens + [EofToken]
        && reported == old(reported) + out.errors
        && line == out.line && current == |source|
      ensures result == tokens
      ensures Valid()
    {
      while !AtEnd()
        invariant Valid()
        invariant Progress(source, old(current), old(line), old(tokens), old(reported), current, line, tokens, reported)
        decreases |source| - current
      {
        start := current;
        ProgressStep(source, old(current), old(line), old(tokens), old(reported), current, line, tokens, reported);
        ScanToken();
        NewlineSplit(source, 0, start, current);
      }
      ProgressDone(source, old(current), old(line), old(tokens), old(reported), line, tokens, reported);
      tokens := tokens + [EofToken];
      result := tokens;
    }
  }
}
