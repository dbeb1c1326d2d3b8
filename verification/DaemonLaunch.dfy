/** The Windows command line of the detached daemon, and the documented rules
    by which the started program takes that line apart again. */
module DaemonLaunch {
  import opened Wrappers

  newtype u16 = unit: int | 0 <= unit < 0x1_0000

  type Wide = seq<u16>

  const NUL: u16 := 0
  const TAB: u16 := 9
  const SPACE: u16 := 32
  const QUOTE: u16 := 34
  const BACKSLASH: u16 := 92

  function Backslashes(count: nat): (run: Wide)
    ensures |run| == count
  {
    seq(count, _ => BACKSLASH)
  }

  // ---------------------------------------------------------------------
  // Quoting
  // ---------------------------------------------------------------------

  /** The quoted text after the opening quote, with `pending` backslashes read
      but not yet written. */
  function QuotedRest(argument: Wide, pending: nat): Wide {
    if argument == [] then Backslashes(2 * pending) + [QUOTE]
    else if argument[0] == BACKSLASH then QuotedRest(argument[1..], pending + 1)
    else if argument[0] == QUOTE then
      Backslashes(2 * pending + 1) + [QUOTE] + QuotedRest(argument[1..], 0)
    else
      Backslashes(pending) + [argument[0]] + QuotedRest(argument[1..], 0)
  }

  function Quoted(argument: Wide): Wide {
    [QUOTE] + QuotedRest(argument, 0)
  }

  method QuoteWindows(argument: Wide) returns (quoted: Wide)
    ensures quoted == Quoted(argument)
  {
    quoted := [QUOTE];
    var backslashes := 0;
    for i := 0 to |argument|
      invariant backslashes >= 0
      invariant quoted + QuotedRest(argument[i..], backslashes) == Quoted(argument)
    {
      var character := argument[i];
      assert argument[i..][0] == character && argument[i..][1..] == argument[i + 1..];
      if character == BACKSLASH {
        backslashes := backslashes + 1;
        continue;
      }
      var count := if character == QUOTE then backslashes * 2 + 1 else backslashes;
      quoted := quoted + Backslashes(count);
      quoted := quoted + [character];
      backslashes := 0;
    }
    assert argument[|argument|..] == [];
    quoted := quoted + Backslashes(backslashes * 2);
    quoted := quoted + [QUOTE];
  }

  function Tail(arguments: seq<Wide>): Wide {
    if arguments == [] then []
    else [SPACE] + Quoted(arguments[0]) + Tail(arguments[1..])
  }

  datatype LaunchError = ArgumentContainsNul

  /** The command buffer handed to process creation: the program, then each
      argument behind a space, then the terminator. */
  method CommandLine(executable: Wide, arguments: seq<Wide>) returns (command: Result<Wide, LaunchError>)
    ensures command.Ok? <==> forall i :: 0 <= i < |arguments| ==> NUL !in arguments[i]
    ensures command.Ok? ==> command.value == Quoted(executable) + Tail(arguments) + [NUL]
  {
    var buffer := QuoteWindows(executable);
    for i := 0 to |arguments|
      invariant forall k :: 0 <= k < i ==> NUL !in arguments[k]
      invariant buffer + Tail(arguments[i..]) == Quoted(executable) + Tail(arguments)
    {
      if NUL in arguments[i] {
        return Err(ArgumentContainsNul);
      }
      assert arguments[i..][0] == arguments[i] && arguments[i..][1..] == arguments[i + 1..];
      buffer := buffer + [SPACE];
      var quoted := QuoteWindows(arguments[i]);
      buffer := buffer + quoted;
    }
    assert arguments[|arguments|..] == [];
    buffer := buffer + [NUL];
    command := Ok(buffer);
  }

  // ---------------------------------------------------------------------
  // Microsoft's rules for parsing a C command line
  // ---------------------------------------------------------------------

  /** The argument being read: `None` between arguments. */
  datatype Reading = Between | Within(text: Wide, quoted: bool)

  function Text(reading: Reading): Wide {
    if reading.Within? then reading.text else []
  }

  function InQuotes(reading: Reading): bool {
    reading.Within? && reading.quoted
  }

  /** Backslashes are literal unless a quote follows; before a quote each pair
      stands for one backslash and an odd one escapes the quote. A quote that is
      not escaped opens or closes a quoted stretch, two of them inside one
      stand for a quote, and blanks outside one end the argument. */
  function Parse(line: Wide, reading: Reading, backslashes: nat): seq<Wide> {
    if line == [] then
      if reading.Between? && backslashes == 0 then [] else [Text(reading) + Backslashes(backslashes)]
    else if line[0] == BACKSLASH then
      Parse(line[1..], Within(Text(reading), InQuotes(reading)), backslashes + 1)
    else if line[0] == QUOTE then
      var text := Text(reading) + Backslashes(backslashes / 2);
      if backslashes % 2 == 1 then
        Parse(line[1..], Within(text + [QUOTE], InQuotes(reading)), 0)
      else if InQuotes(reading) && |line| > 1 && line[1] == QUOTE then
        Parse(line[2..], Within(text + [QUOTE], true), 0)
      else
        Parse(line[1..], Within(text, !InQuotes(reading)), 0)
    else if (line[0] == SPACE || line[0] == TAB) && !InQuotes(reading) then
      (if reading.Between? then [] else [Text(reading) + Backslashes(backslashes)])
      + Parse(line[1..], Between, 0)
    else
      Parse(line[1..], Within(Text(reading) + Backslashes(backslashes) + [line[0]], InQuotes(reading)), 0)
  }

  lemma {:induction false} ParseBackslashes(count: nat, rest: Wide, text: Wide, backslashes: nat)
    ensures Parse(Backslashes(count) + rest, Within(text, true), backslashes)
         == Parse(rest, Within(text, true), backslashes + count)
  {
    if count == 0 {
      assert Backslashes(0) + rest == rest;
    } else {
      assert (Backslashes(count) + rest)[1..] == Backslashes(count - 1) + rest;
      ParseBackslashes(count - 1, rest, text, backslashes + 1);
    }
  }

  lemma ParseBackslashesThen(count: nat, next: u16, rest: Wide, text: Wide)
    ensures Parse(Backslashes(count) + [next] + rest, Within(text, true), 0)
         == Parse([next] + rest, Within(text, true), count)
  {
    assert Backslashes(count) + [next] + rest == Backslashes(count) + ([next] + rest);
    ParseBackslashes(count, [next] + rest, text, 0);
  }

  /** A character that is no backslash, read together with the backslashes and the
      escape before it. */
  lemma ParseCharacter(first: u16, pending: nat, after: Wide, text: Wide)
    requires first != BACKSLASH
    ensures
      var count := if first == QUOTE then 2 * pending + 1 else pending;
      Parse(Backslashes(count) + [first] + after, Within(text, true), 0)
      == Parse(after, Within(text + Backslashes(pending) + [first], true), 0)
  {
    var count := if first == QUOTE then 2 * pending + 1 else pending;
    ParseBackslashesThen(count, first, after, text);
    assert ([first] + after)[1..] == after;
  }

  lemma ParseEvenQuote(line: Wide, half: nat, text: Wide)
    requires line != [] && line[0] == QUOTE && (|line| > 1 ==> line[1] != QUOTE)
    ensures Parse(line, Within(text, true), 2 * half)
         == Parse(line[1..], Within(text + Backslashes(half), false), 0)
  {
    assert 2 * half / 2 == half && 2 * half % 2 == 0;
  }

  /** The closing quote, after its doubled backslashes. */
  lemma ParseClosing(pending: nat, rest: Wide, text: Wide)
    requires rest == [] || rest[0] != QUOTE
    ensures Parse(Backslashes(2 * pending) + [QUOTE] + rest, Within(text, true), 0)
         == Parse(rest, Within(text + Backslashes(pending), false), 0)
  {
    var line := [QUOTE] + rest;
    ParseBackslashesThen(2 * pending, QUOTE, rest, text);
    ParseEvenQuote(line, pending, text);
    assert line[1..] == rest;
  }

  lemma BackslashMoves(text: Wide, pending: nat, argument: Wide)
    requires argument != [] && argument[0] == BACKSLASH
    ensures text + Backslashes(pending + 1) + argument[1..] == text + Backslashes(pending) + argument
  {
  }

  /** Reading the quoted form from just after its opening quote yields the
      original characters, whatever follows the closing quote. */
  lemma {:induction false} ParseQuotedRest(argument: Wide, pending: nat, rest: Wide, text: Wide)
    requires rest == [] || rest[0] != QUOTE
    ensures Parse(QuotedRest(argument, pending) + rest, Within(text, true), 0)
         == Parse(rest, Within(text + Backslashes(pending) + argument, false), 0)
    decreases |argument|, 1
  {
    if argument == [] {
      ParseClosing(pending, rest, text);
      assert text + Backslashes(pending) + argument == text + Backslashes(pending);
    } else if argument[0] == BACKSLASH {
      ParseQuotedRest(argument[1..], pending + 1, rest, text);
      BackslashMoves(text, pending, argument);
    } else {
      ParseQuotedCharacter(argument, pending, rest, text);
    }
  }

  lemma {:induction false} ParseQuotedCharacter(argument: Wide, pending: nat, rest: Wide, text: Wide)
    requires argument != [] && argument[0] != BACKSLASH && (rest == [] || rest[0] != QUOTE)
    ensures Parse(QuotedRest(argument, pending) + rest, Within(text, true), 0)
         == Parse(rest, Within(text + Backslashes(pending) + argument, false), 0)
    decreases |argument|, 0
  {
    var first, tail := argument[0], argument[1..];
    var count := if first == QUOTE then 2 * pending + 1 else pending;
    var after := QuotedRest(tail, 0) + rest;
    assert QuotedRest(argument, pending) + rest == Backslashes(count) + [first] + after;
    ParseCharacter(first, pending, after, text);
    var read := text + Backslashes(pending) + [first];
    ParseQuotedRest(tail, 0, rest, read);
    assert read + Backslashes(0) + tail == text + Backslashes(pending) + argument;
  }

  /** The started program receives exactly the given arguments: empty ones,
      embedded quotes and trailing backslashes included. */
  lemma {:induction false} TailParsesBack(arguments: seq<Wide>)
    ensures Parse(Tail(arguments), Between, 0) == arguments
  {
    if arguments != [] {
      var rest := Tail(arguments[1..]);
      var line := Tail(arguments);
      assert line == [SPACE] + ([QUOTE] + (QuotedRest(arguments[0], 0) + rest));
      assert line[1..] == [QUOTE] + (QuotedRest(arguments[0], 0) + rest);
      assert line[1..][1..] == QuotedRest(arguments[0], 0) + rest;
      assert [] + Backslashes(0) == [];
      ParseQuotedRest(arguments[0], 0, rest, []);
      assert [] + Backslashes(0) + arguments[0] == arguments[0];
      FinishArgument(arguments[0], arguments[1..]);
      TailParsesBack(arguments[1..]);
      assert [arguments[0]] + arguments[1..] == arguments;
    }
  }

  lemma FinishArgument(text: Wide, following: seq<Wide>)
    ensures Parse(Tail(following), Within(text, false), 0)
         == [text] + Parse(Tail(following), Between, 0)
  {
    assert text + Backslashes(0) == text;
    if following != [] {
      var line := Tail(following);
      assert line[0] == SPACE;
    }
  }

  // ---------------------------------------------------------------------
  // The program name, which follows its own rule
  // ---------------------------------------------------------------------

  /** A program name in quotes runs to the next quote; backslashes mean
      nothing there. The second part is what follows that quote. */
  function ProgramName(command: Wide): (Wide, Wide)
    requires command != [] && command[0] == QUOTE
  {
    var body := command[1..];
    var length := UpToQuote(body);
    (body[..length], if length < |body| then body[length + 1..] else [])
  }

  function UpToQuote(text: Wide): (length: nat)
    ensures length <= |text|
    ensures forall i :: 0 <= i < length ==> text[i] != QUOTE
    ensures length < |text| ==> text[length] == QUOTE
  {
    if text == [] || text[0] == QUOTE then 0 else 1 + UpToQuote(text[1..])
  }

  /** How many backslashes are added before the closing quote of a text without
      quotes, `pending` of which are still to be written: as many as it ends in. */
  function Trailing(argument: Wide, pending: nat): nat {
    if argument == [] then pending
    else Trailing(argument[1..], if argument[0] == BACKSLASH then pending + 1 else 0)
  }

  lemma {:induction false} TrailingIsNone(argument: Wide, pending: nat)
    ensures Trailing(argument, pending) == 0 <==>
      if argument == [] then pending == 0 else argument[|argument| - 1] != BACKSLASH
  {
    if argument != [] {
      TrailingIsNone(argument[1..], if argument[0] == BACKSLASH then pending + 1 else 0);
    }
  }

  lemma {:induction false} QuotedRestOfPlain(argument: Wide, pending: nat)
    requires QUOTE !in argument
    ensures QuotedRest(argument, pending)
      == Backslashes(pending) + argument + Backslashes(Trailing(argument, pending)) + [QUOTE]
  {
    if argument != [] {
      var tail, trailing := argument[1..], Trailing(argument, pending);
      if argument[0] == BACKSLASH {
        QuotedRestOfPlain(tail, pending + 1);
        BackslashMoves([], pending, argument);
        assert [] + Backslashes(pending + 1) == Backslashes(pending + 1);
        assert [] + Backslashes(pending) == Backslashes(pending);
      } else {
        QuotedRestOfPlain(tail, 0);
        PlainCharacter(Backslashes(pending), argument, Backslashes(trailing) + [QUOTE]);
        assert Backslashes(0) + tail == tail;
        assert tail + Backslashes(trailing) + [QUOTE] == tail + (Backslashes(trailing) + [QUOTE]);
      }
    }
  }

  lemma PlainCharacter(before: Wide, argument: Wide, after: Wide)
    requires argument != []
    ensures before + [argument[0]] + (argument[1..] + after) == before + argument + after
  {
  }

  lemma PlainProgramName(executable: Wide, rest: Wide)
    requires QUOTE !in executable
    ensures ProgramName(Quoted(executable) + rest)
      == (executable + Backslashes(Trailing(executable, 0)), rest)
  {
    QuotedRestOfPlain(executable, 0);
    var plain := executable + Backslashes(Trailing(executable, 0));
    var body := (Quoted(executable) + rest)[1..];
    assert body == plain + [QUOTE] + rest;
    UpToFirstQuote(plain, rest);
    assert body[..|plain|] == plain;
    assert body[|plain| + 1..] == rest;
  }

  lemma UpToFirstQuote(plain: Wide, rest: Wide)
    requires QUOTE !in plain
    ensures UpToQuote(plain + [QUOTE] + rest) == |plain|
  {
    var body := plain + [QUOTE] + rest;
    assert body[|plain|] == QUOTE;
    assert forall i :: 0 <= i < |plain| ==> body[i] == plain[i] && plain[i] != QUOTE;
  }

  /** The program name and the argument tail come apart as they were put
      together exactly when the name holds no quote and does not end in a
      backslash, which every Windows executable path satisfies. */
  lemma ProgramNameSurvives(executable: Wide, arguments: seq<Wide>)
    ensures ProgramName(Quoted(executable) + Tail(arguments)) == (executable, Tail(arguments))
       <==> QUOTE !in executable && (executable == [] || executable[|executable| - 1] != BACKSLASH)
  {
    if QUOTE in executable {
      assert QUOTE !in ProgramName(Quoted(executable) + Tail(arguments)).0;
    } else {
      PlainProgramName(executable, Tail(arguments));
      TrailingIsNone(executable, 0);
      var trailing := Trailing(executable, 0);
      assert |executable + Backslashes(trailing)| == |executable| + trailing;
      assert trailing == 0 ==> executable + Backslashes(trailing) == executable;
    }
  }
}
