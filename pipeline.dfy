/** The path from source text to a tree that `run` in src/main.rs takes:
    scan, then parse one expression; and what evaluation can come to on the
    trees that path yields. */
module Pipeline {
  import opened Basics
  import opened Tokens
  import opened Lexical
  import opened Grammar
  import Scanning
  import Parsing
  import Exprs
  import Interpreter

  /** `run` without its printing: a `Scanner` over the text, its tokens
      handed to a `Parser`, one call of `parse`. The result is the parse of
      the scanned tokens, and the scanner's reports are those of the scan. */
  method Run(code: string) returns (result: Result<Exprs.Expr, ParseErr>, reported: seq<ScanError>)
    ensures ValidTokens(Scan(code))
    ensures result == Parse(Scan(code)).result
    ensures reported == ScanFrom(code, 0, 1).errors
  {
    var tokens;
    tokens, reported := ScanText(code);
    var parser := new Parsing.Parser(tokens);
    result := parser.Parse();
  }

  /** The scanning half of `run`: a fresh `Scanner` and `scan_tokens`. */
  method ScanText(code: string) returns (tokens: seq<Token>, reported: seq<ScanError>)
    ensures tokens == Scan(code)
    ensures reported == ScanFrom(code, 0, 1).errors
  {
    var scanner := new Scanning.Scanner(code);
    tokens := scanner.ScanTokens();
    reported := scanner.reported;
  }

  /** Whatever tokens the parser reads, a tree it yields never meets
      "Invalid unary expression" when evaluated, and panics only if it holds
      an `==`. */
  lemma ParsedTreesEvaluate(toks: seq<Token>)
    requires ValidTokens(toks) && Parse(toks).result.Ok?
    ensures Interpreter.Eval(Parse(toks).result.value)
            != Interpreter.Failure(Interpreter.InterpreterError(Interpreter.InvalidUnary))
    ensures Interpreter.Eval(Parse(toks).result.value).Panic?
            ==> Interpreter.Mentions(Parse(toks).result.value, EqualEqual)
  {
    LevelDerives(toks, Equality, 0);
    Interpreter.DerivedFailures(Equality, Parse(toks).result.value);
  }
}
