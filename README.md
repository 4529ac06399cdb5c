# Is it Prime? — a verified model

The program is an interactive command-line tool. It reads lines from
standard input. For each line it answers whether the whole number on it is
prime, and it stops when the user types `q` or `Q`. It has three parts:

- `isPrime(n)` returns a verdict, a pair of "is prime" and a message.
  Negatives, 0 and 1 are "not prime, by definition", each with its own text.
  A prime gets "`<n>` is a prime number!". A composite gets "`<n>` is not a
  prime number because it is divisible by `<d>`!", where `d` is the first
  divisor found by trial division from 2 up to `n / 2`.
- `checkNumbers(scanner)` reads one line and answers it. The quit token
  gives `("", true)`. A line that is not a whole number gives
  `("Please enter a whole number!", false)`. A whole number `n` gives
  `isPrime(n)`'s message and `false`.
- `readUserInput(in, done)` calls `checkNumbers` over and over. It prints
  each answer on its own line, then the prompt `-> `. On the first reply that
  says quit, it sends the completion signal on `done` and returns.

The Dafny project has four modules, one per concern:

- `Wrappers` (wrappers.dfy) holds `Option`.
- `Decimal` (decimal.dfy) holds `%d` formatting (`IntToString`) and the
  whole-number parser `ParseInt`. The parser models Go's `strconv.Atoi` on a
  64-bit platform. It accepts an optional `+` or `-` followed by one or more
  ASCII digits. Values outside the 64-bit signed range are a range error.
  Both error kinds become `None`.
- `Primality` (primality.dfy) holds the primality evaluator. The
  specification `Verdict` is written with the least divisor greater than 1.
  The method `IsPrime` is the program's ascending trial division, and it is
  proved to return exactly `Verdict(n)`. The two agree because a proper
  divisor of `n` is never larger than `n / 2`.
- `Input` (input.dfy) holds the rest. `Scanner` is a class that walks
  input already split into lines. `Check` is the reply to one line.
  `CheckNumbers` is a method that consumes one line of a scanner.
  `ReadUserInput` is the loop. `Replies`, `Transcript`, `FirstQuit` and
  `LinesRead` specify what the loop prints and how far it reads.

The implementation file main.go is not part of this model. The model
follows the behaviour that the tables in main_test.go fix. Where the tables
leave something open, the model makes these choices:

- The quit test is `strings.EqualFold(line, "q")`. Exactly the lines `q` and
  `Q` pass it.
- The order of checks in `isPrime` is: 0 or 1, then negatives, then trial
  division from 2 up to and including `n / 2`.
- End of input counts as a quit request, so the loop always ends.

## Model

| member | source | states |
|---|---|---|
| `Decimal.NatToString` | main_test.go:161-164 | the digits of a number: at least one, all decimal digits, no leading zero except for "0" itself |
| `Decimal.IntToString` | main_test.go:161-164 | `%d` text: non-empty, starts with '-' exactly for negatives, all digits otherwise |
| `Decimal.ParseInt` | main_test.go:84-99 | a parsed value is within the 64-bit range, comes from a sign plus at least one digit, is negative only after a '-', and is the value of those digits, negated after a '-' |
| `Decimal.ParseIntOfNumeral` | main_test.go:84-99 | every numeral of the form: optional '+' or '-', any leading zeros, then digits, is accepted with its value (so "+7" and "007" give 7 and "-0" gives 0) whenever that value is in the 64-bit range |
| `Decimal.LeadingZerosValue` | main_test.go:84-99 | leading zeros do not change the value of a digit string |
| `Decimal.ParseIntToString` | main_test.go:92-99 | every 64-bit integer is parsed back from its own `%d` text |
| `Decimal.IntToStringOfParseInt` | main_test.go:92-99 | a canonical numeral (no '+', no leading zero, no "-0") that parses is exactly the `%d` text of its value, so parsing and printing are inverse on canonical text |
| `Decimal.DigitsValueOfNatToString` | main_test.go:161-162 | reading back the digits of a number gives the number |
| `Decimal.NatToStringOfDigitsValue` | main_test.go:92-99 | a digit string without leading zero is the text of its own value |
| `Primality.LeastDivisorFrom` | main_test.go:162 | the ascending search from k returns a divisor of n in [k, n] with no divisor below it |
| `Primality.LeastDivisor` | main_test.go:162 | the least divisor of n >= 2 above 1: it divides n and nothing in [2, d) does |
| `Primality.ProperDivisorAtMostHalf` | main_test.go:162 | every divisor d with 1 < d < n is at most n / 2, so the search bound misses none |
| `Primality.LeastDivisorUnique` | main_test.go:162 | a divisor with no smaller divisor above 1 is the least divisor |
| `Primality.VerdictDecidesPrimality` | main_test.go:168-176 | the verdict's boolean is true exactly when n is prime |
| `Primality.PrimeVerdict` | main_test.go:161 | a prime n gets `(true, "<n> is a prime number!")` |
| `Primality.CompositeVerdict` | main_test.go:162 | a composite n whose least divisor is d gets `(false, "<n> is not a prime number because it is divisible by <d>!")`, with d <= n / 2 |
| `Primality.NotPrimeByDefinition` | main_test.go:163-165 | n <= 1 is not prime; negatives get the negative-number text, 0 and 1 their own "by definition" text |
| `Primality.VerdictOfSeven` | main_test.go:161 | the verdict for 7 is `(true, "7 is a prime number!")` |
| `Primality.VerdictOfEight` | main_test.go:162 | the verdict for 8 is `(false, "8 is not a prime number because it is divisible by 2!")` |
| `Primality.VerdictOfZero` | main_test.go:163 | the verdict for 0 is `(false, "0 is not prime, by definition!")` |
| `Primality.VerdictOfOne` | main_test.go:164 | the verdict for 1 is `(false, "1 is not prime, by definition!")` |
| `Primality.VerdictOfMinusEleven` | main_test.go:165 | the verdict for -11 is `(false, "Negative numbers are not prime, by definition!")` |
| `Primality.IsPrime` | main_test.go:154-181 | trial division by 2 .. n / 2 returns exactly the verdict `Verdict(n)`, and its boolean is mathematical primality |
| `Input.Scanner.constructor` | main_test.go:71 | a fresh scanner is at the first line with an empty token |
| `Input.Scanner.Scan` | main_test.go:60 | advances by one line and makes it the token, or reports exhaustion with an empty token |
| `Input.CheckNumbers` | main_test.go:102-107 | consumes one line and returns `Check` of it, leaving that line as the scanner's token; quits exactly on a quit token or at end of input, where it reads nothing and the token is empty |
| `Input.FirstQuit` | main_test.go:29-48 | the position of the first reply that says quit: no earlier reply does, and the one there does |
| `Input.ReadUserInput` | main_test.go:50-55 | writes the transcript of the replies up to the first quit, reads the lines up to and including it, and signals completion exactly once |
| `Input.QuitStep` | main_test.go:52-53 | a quit reply after k quit-free replies ends the transcript there, after k + 1 lines (k at end of input) |
| `Input.AnswerStep` | main_test.go:42-48 | a reply that does not quit adds its message, a newline and the prompt to the transcript |
| `Input.TranscriptSnoc` | main_test.go:42-48 | extending quit-free replies by one that does not quit appends exactly its printed answer |
| `Input.TranscriptStopsAtQuit` | main_test.go:42-48 | nothing after the first quit reply (or the end of input) changes the transcript |
| `Input.FirstQuitIs` | main_test.go:29-48 | the first quit reply's position is determined by its defining property |
| `Input.FirstQuitIsQuitLine` | main_test.go:29-48 | the loop stops at the first `q`/`Q` line: no earlier line is a quit token |
| `Input.TranscriptIgnoresRest` | main_test.go:42-48 | for lines `prefix + [quit] + rest`, the output is that of `prefix` alone, and exactly one line more than `prefix` holds is read |
| `Input.VerdictMessageDistinct` | main_test.go:84-99 | no verdict message is empty or equal to the parse-error message |
| `Input.CheckOutcome` | main_test.go:62-99 | quit flag if and only if quit token; empty message if and only if quit token; parse-error message if and only if neither a quit token nor a whole number; a whole number gets `isPrime`'s message and never quits |
| `Input.CheckExamples` | main_test.go:68-99 | `q` and `Q` give `("", true)`, `f` gives `("Please enter a whole number!", false)`, and `7` gives `("7 is a prime number!", false)` |
| `Input.TranscriptExamples` | main_test.go:29-48 | inputs `q` and `Q` print nothing and read one line; `7\nq` prints "7 is a prime number!" and a prompt, then reads no further than the `q`; `f\nq` prints the parse error and carries on to the `q` |

## Left out

- Standard output is not modelled as I/O. `ReadUserInput` returns what it
  would print as a string: each message, a newline and the prompt `-> `.
- The introductory banner (`intro`) and the output capture in the banner and
  prompt tests (main_test.go:111-152) are presentation only. Beyond the
  prompt text `-> ` inside the transcript, they are not modelled.
- `TestMain` and `os.Exit` (main_test.go:12-18) are process plumbing.
- The goroutine and the `done` channel (main_test.go:52-53) are concurrency.
  They become one sequential call that returns a count of completion
  signals, which is proved to be 1.
- `bufio.Scanner` splitting is not modelled: the input is a
  `seq<string>` of lines that are already split. This leaves out dropping
  the line terminator and a trailing carriage return, and the token-too-long
  error. No other trimming is modelled. Go's `Atoi` accepts no surrounding
  spaces anyway.
- `isPrime` takes an unbounded `int`. Go's `int` is 64 bits wide there, but
  the only values that reach it come from the 64-bit parser, and the search
  loop `i <= n / 2` cannot overflow. No wrap-around is modelled.
- `Decimal.ParseInt`: the two `Atoi` error kinds (syntax and range) are
  merged into `None`, because the program treats both the same way.
- The `main` function (banner, starting the reader, waiting on the channel,
  the goodbye text) is not part of this model, because main.go is not
  available.
