/**
 The input loop: a scanner over the lines of standard input, the one-line
 dispatcher checkNumbers (quit token, parse error, or the primality verdict)
 and readUserInput, which dispatches line after line, prints each answer
 followed by the prompt, and signals completion once when told to quit.
 */
module Input {
  import opened Wrappers
  import opened Decimal
  import opened Primality

  const NotWholeNumber := "Please enter a whole number!"
  const Prompt := "-> "

  /** The quit test, strings.EqualFold(line, "q"): the only lines that fold to "q" are "q" and "Q". */
  predicate IsQuit(line: string) {
    line == "q" || line == "Q"
  }

  /** What checkNumbers answers for one line: the message to print and whether to quit. */
  function Check(line: string): (string, bool) {
    if IsQuit(line) then ("", true)
    else match ParseInt(line)
      case None => (NotWholeNumber, false)
      case Some(n) => (Verdict(n).1, false)
  }

  /** A line scanner over input that is already split into lines (bufio.Scanner's Scan and Text). */
  class Scanner {
    const lines: seq<string>
    var pos: nat
    var token: string

    ghost predicate Valid()
      reads this
    {
      pos <= |lines|
    }

    constructor (lines: seq<string>)
      ensures Valid() && this.lines == lines && pos == 0 && token == ""
    {
      this.lines := lines;
      pos := 0;
      token := "";
    }

    /** Advances to the next line; false, with an empty token, once the input is exhausted. */
    method Scan() returns (ok: bool)
      requires Valid()
      modifies this
      ensures Valid()
      ensures ok <==> old(pos) < |lines|
      ensures ok ==> pos == old(pos) + 1 && token == lines[old(pos)]
      ensures !ok ==> pos == old(pos) && token == ""
    {
      if pos < |lines| {
        token := lines[pos];
        pos := pos + 1;
        ok := true;
      } else {
        token := "";
        ok := false;
      }
    }

    function Text(): string
      reads this
    {
      token
    }
  }

  /**
   checkNumbers: reads one line and answers it. The end of the input is
   treated like the quit token.
   */
  method CheckNumbers(sc: Scanner) returns (res: string, done: bool)
    requires sc.Valid()
    modifies sc
    ensures sc.Valid()
    ensures old(sc.pos) < |sc.lines| ==> sc.pos == old(sc.pos) + 1 && (res, done) == Check(sc.lines[old(sc.pos)])
    ensures done <==> old(sc.pos) == |sc.lines| || IsQuit(sc.lines[old(sc.pos)])
    ensures old(sc.pos) == |sc.lines| ==> sc.pos == old(sc.pos) && res == "" && done
    ensures sc.token == (if old(sc.pos) < |sc.lines| then sc.lines[old(sc.pos)] else "")
  {
    var ok := sc.Scan();
    if !ok {
      return "", true;
    }
    var text := sc.Text();
    if IsQuit(text) {
      return "", true;
    }
    var parsed := ParseInt(text);
    if parsed.None? {
      return NotWholeNumber, false;
    }
    var _, msg := IsPrime(parsed.value);
    return msg, false;
  }

  /** A reply of checkNumbers: the message to print and whether to quit. */
  type Reply = (string, bool)

  /** The reply to each line of the input, in order. */
  function Replies(lines: seq<string>): seq<Reply> {
    seq(|lines|, i requires 0 <= i < |lines| => Check(lines[i]))
  }

  /** The position of the first reply that says quit, or the number of replies when none does. */
  function FirstQuit(rs: seq<Reply>): (k: nat)
    ensures k <= |rs|
    ensures k < |rs| ==> rs[k].1
    ensures forall j :: 0 <= j < k ==> !rs[j].1
  {
    if rs == [] then 0
    else if rs[0].1 then 0
    else 1 + FirstQuit(rs[1..])
  }

  /** How many lines the loop consumes: up to and including the first one that says quit. */
  function LinesRead(rs: seq<Reply>): nat {
    if FirstQuit(rs) < |rs| then FirstQuit(rs) + 1 else |rs|
  }

  /**
   What the loop writes: each reply's message on a line of its own
   (Println), followed by a fresh prompt, up to the first reply that says quit.
   */
  function Transcript(rs: seq<Reply>): string {
    if rs == [] || rs[0].1 then ""
    else rs[0].0 + "\n" + Prompt + Transcript(rs[1..])
  }

  /** readUserInput: dispatch lines until one says quit, then send the completion signal once. */
  method ReadUserInput(lines: seq<string>) returns (out: string, read: nat, signals: nat)
    ensures out == Transcript(Replies(lines))
    ensures read == LinesRead(Replies(lines))
    ensures signals == 1
  {
    ghost var rs := Replies(lines);
    var sc := new Scanner(lines);
    out, signals := "", 0;
    while true
      invariant sc.Valid() && sc.lines == lines
      invariant forall j :: 0 <= j < sc.pos ==> !rs[j].1
      invariant out == Transcript(rs[..sc.pos])
      invariant signals == 0
      decreases |lines| - sc.pos
    {
      ghost var before := sc.pos;
      var res, done := CheckNumbers(sc);
      if done {
        QuitStep(rs, before);
        signals := signals + 1;
        read := sc.pos;
        return;
      }
      AnswerStep(rs, before);
      out := out + (res + "\n" + Prompt);
    }
  }

  /**
   One turn of the loop that ends it: after k replies without a quit, a quit
   reply (or the end of input) leaves the transcript as it is and accounts
   for every line read.
   */
  lemma QuitStep(rs: seq<Reply>, k: nat)
    requires k <= |rs|
    requires forall j :: 0 <= j < k ==> !rs[j].1
    requires k < |rs| ==> rs[k].1
    ensures Transcript(rs) == Transcript(rs[..k])
    ensures LinesRead(rs) == (if k < |rs| then k + 1 else k)
  {
    if k < |rs| {
      FirstQuitIs(rs, k);
    }
    TranscriptStopsAtQuit(rs, k);
  }

  /** One turn of the loop that goes on: a reply that does not quit is printed, with the prompt. */
  lemma AnswerStep(rs: seq<Reply>, k: nat)
    requires k < |rs|
    requires forall j :: 0 <= j < k ==> !rs[j].1
    requires !rs[k].1
    ensures Transcript(rs[..k + 1]) == Transcript(rs[..k]) + (rs[k].0 + "\n" + Prompt)
  {
    assert rs[..k + 1] == rs[..k] + [rs[k]];
    TranscriptSnoc(rs[..k], rs[k]);
  }

  /** Replies without a quit, extended by one more that does not quit, print exactly one more answer. */
  lemma {:induction false} TranscriptSnoc(prefix: seq<Reply>, r: Reply)
    requires forall j :: 0 <= j < |prefix| ==> !prefix[j].1
    requires !r.1
    ensures Transcript(prefix + [r]) == Transcript(prefix) + (r.0 + "\n" + Prompt)
  {
    if prefix == [] {
      assert [r][1..] == [];
    } else {
      var rs := prefix + [r];
      assert rs[0] == prefix[0];
      assert rs[1..] == prefix[1..] + [r];
      TranscriptSnoc(prefix[1..], r);
      var a, t, b := prefix[0].0 + "\n" + Prompt, Transcript(prefix[1..]), r.0 + "\n" + Prompt;
      assert a + (t + b) == (a + t) + b;
    }
  }

  /**
   The transcript is fixed by the replies before the first quit: once k
   replies without a quit are followed by a quit or by the end of input,
   nothing more is written.
   */
  lemma {:induction false} TranscriptStopsAtQuit(rs: seq<Reply>, k: nat)
    requires k <= |rs|
    requires forall j :: 0 <= j < k ==> !rs[j].1
    requires k < |rs| ==> rs[k].1
    ensures Transcript(rs) == Transcript(rs[..k])
  {
    if k == |rs| {
      assert rs[..k] == rs;
    } else if k > 0 {
      assert rs[..k][1..] == rs[1..][..k - 1];
      TranscriptStopsAtQuit(rs[1..], k - 1);
    }
  }

  /** FirstQuit is characterised by its contract. */
  lemma FirstQuitIs(rs: seq<Reply>, k: nat)
    requires k < |rs| && rs[k].1
    requires forall j :: 0 <= j < k ==> !rs[j].1
    ensures FirstQuit(rs) == k
  {
  }

  /** The loop stops at the first quit token: the replies before it do not quit, and it does. */
  lemma FirstQuitIsQuitLine(lines: seq<string>)
    ensures forall j :: 0 <= j < FirstQuit(Replies(lines)) ==> !IsQuit(lines[j])
    ensures FirstQuit(Replies(lines)) < |lines| ==> IsQuit(lines[FirstQuit(Replies(lines))])
  {
    var rs := Replies(lines);
    forall j | 0 <= j < |lines|
      ensures rs[j].1 <==> IsQuit(lines[j])
    {
      CheckOutcome(lines[j]);
    }
  }

  /** Whatever follows the first quit line is never read. */
  lemma TranscriptIgnoresRest(prefix: seq<string>, quit: string, rest: seq<string>)
    requires forall j :: 0 <= j < |prefix| ==> !IsQuit(prefix[j])
    requires IsQuit(quit)
    ensures Transcript(Replies(prefix + [quit] + rest)) == Transcript(Replies(prefix))
    ensures LinesRead(Replies(prefix + [quit] + rest)) == |prefix| + 1
  {
    var lines := prefix + [quit] + rest;
    var rs := Replies(lines);
    forall j | 0 <= j < |prefix|
      ensures !rs[j].1
    {
      CheckOutcome(prefix[j]);
    }
    assert rs[|prefix|] == Check(quit);
    assert rs[..|prefix|] == Replies(prefix);
    TranscriptStopsAtQuit(rs, |prefix|);
    FirstQuitIs(rs, |prefix|);
  }

  /** No verdict message is empty or equal to the parse-error message. */
  lemma VerdictMessageDistinct(n: int)
    ensures Verdict(n).1 != "" && Verdict(n).1 != NotWholeNumber
  {
    var m := Verdict(n).1;
    if n < 0 {
      assert |m| == 46 != |NotWholeNumber|;
    } else {
      var s := IntToString(n);
      assert m[..|s|] == s;
      assert m[0] == s[0] && IsDigit(m[0]);
    }
  }

  /**
   The reply to a line tells its kind apart: the quit flag is set exactly for
   the quit token, whose reply is the only empty one; the parse-error
   message comes exactly from lines that are neither quit nor a whole
   number; and a whole number gets isPrime's message without quitting.
   */
  lemma CheckOutcome(line: string)
    ensures Check(line).1 <==> IsQuit(line)
    ensures Check(line).0 == "" <==> IsQuit(line)
    ensures Check(line).0 == NotWholeNumber <==> !IsQuit(line) && ParseInt(line).None?
    ensures ParseInt(line).Some? ==> Check(line) == (Verdict(ParseInt(line).value).1, false)
  {
    match ParseInt(line)
    case None =>
    case Some(n) => VerdictMessageDistinct(n);
  }

  /** The expected replies of the program's checkNumbers test table. */
  lemma CheckExamples()
    ensures Check("q") == ("", true)
    ensures Check("Q") == ("", true)
    ensures Check("f") == ("Please enter a whole number!", false)
    ensures Check("7") == ("7 is a prime number!", false)
  {
    assert ParseInt("7") == Some(7);
    VerdictOfSeven();
  }

  /** The inputs of the program's readUserInput test table, each ending at its quit line. */
  lemma TranscriptExamples()
    ensures Transcript(Replies(["q"])) == "" && LinesRead(Replies(["q"])) == 1
    ensures Transcript(Replies(["Q"])) == "" && LinesRead(Replies(["Q"])) == 1
    ensures Transcript(Replies(["7", "q"])) == "7 is a prime number!\n-> "
    ensures LinesRead(Replies(["7", "q"])) == 2
    ensures Transcript(Replies(["f", "q"])) == "Please enter a whole number!\n-> "
    ensures LinesRead(Replies(["f", "q"])) == 2
  {
    CheckExamples();
    assert Replies(["q"]) == [("", true)];
    assert Replies(["Q"]) == [("", true)];
    assert Replies(["7", "q"]) == [("7 is a prime number!", false), ("", true)];
    assert Replies(["f", "q"]) == [("Please enter a whole number!", false), ("", true)];
  }
}
