/** The daemon's operation log: records are cut to a bounded length and the
    file keeps its newest half when a record would take it over its limit. */
module DaemonLogging {
  import opened Framing

  const MAX_BYTES := 5 * 1024 * 1024
  const KEPT_BYTES := MAX_BYTES / 2
  const MAX_LOG_LINE := 2000
  const TRUNCATION := " truncated=true original_len="
  const MAX_USIZE := 0xffff_ffff_ffff_ffff

  // ---------------------------------------------------------------------
  // Cutting a record
  // ---------------------------------------------------------------------

  function Decimal(n: nat): (digits: string)
    ensures digits != []
    ensures forall i :: 0 <= i < |digits| ==> '0' <= digits[i] <= '9'
  {
    var digit := ['0' + (n % 10) as char];
    if n < 10 then digit else Decimal(n / 10) + digit
  }

  function PowerOfTen(k: nat): nat {
    if k == 0 then 1 else 10 * PowerOfTen(k - 1)
  }

  lemma {:induction false} DecimalLength(n: nat, k: nat)
    requires k > 0 && n < PowerOfTen(k)
    ensures |Decimal(n)| <= k
  {
    if n >= 10 {
      DecimalLength(n / 10, k - 1);
    }
  }

  predicate IsAscii(text: string) {
    forall c :: c in text ==> c < 128 as char
  }

  function Ascii(text: string): (bytes: Bytes)
    requires IsAscii(text)
    ensures |bytes| == |text|
  {
    seq(|text|, i requires 0 <= i < |text| => (assert text[i] in text; text[i] as int as byte))
  }

  predicate Continuation(b: byte) {
    0x80 <= b < 0xC0
  }

  predicate CharBoundary(line: Bytes, i: nat) {
    i == 0 || i == |line| || (i < |line| && !Continuation(line[i]))
  }

  /** The last character boundary at or before `end`. */
  function LastBoundary(line: Bytes, end: nat): (boundary: nat)
    ensures boundary <= end && CharBoundary(line, boundary)
    ensures forall i :: boundary < i <= end ==> !CharBoundary(line, i)
  {
    if CharBoundary(line, end) then end else LastBoundary(line, end - 1)
  }

  /** What is appended to a record that was cut. */
  function Truncation(length: nat): (bytes: Bytes)
    ensures |bytes| == |TRUNCATION| + |Decimal(length)|
  {
    assert IsAscii(TRUNCATION);
    Ascii(TRUNCATION + Decimal(length))
  }

  /** A record as it is logged. */
  function Summary(line: Bytes): Bytes {
    if |line| <= MAX_LOG_LINE then line
    else line[..LastBoundary(line, MAX_LOG_LINE)] + Truncation(|line|)
  }

  method SummarizeLogLine(line: Bytes) returns (summary: Bytes)
    ensures summary == Summary(line)
  {
    if |line| <= MAX_LOG_LINE {
      return line;
    }
    var end := MAX_LOG_LINE;
    while end > 0 && !CharBoundary(line, end)
      invariant 0 <= end <= MAX_LOG_LINE
      invariant LastBoundary(line, end) == LastBoundary(line, MAX_LOG_LINE)
    {
      end := end - 1;
    }
    summary := line[..end] + Truncation(|line|);
  }

  predicate IsDigits(text: string) {
    forall i :: 0 <= i < |text| ==> '0' <= text[i] <= '9'
  }

  function NumberOf(digits: string): nat
    requires IsDigits(digits)
  {
    if digits == "" then 0
    else
      var last := digits[|digits| - 1];
      10 * NumberOf(digits[..|digits| - 1]) + (last as nat - '0' as nat)
  }

  lemma {:induction false} DecimalReadsBack(n: nat)
    ensures IsDigits(Decimal(n)) && NumberOf(Decimal(n)) == n
  {
    var digit := ['0' + (n % 10) as char];
    if n < 10 {
      assert digit[..0] == "";
    } else {
      DecimalReadsBack(n / 10);
      assert (Decimal(n / 10) + digit)[..|Decimal(n / 10)|] == Decimal(n / 10);
    }
  }

  /** Where a line that is too long is cut. */
  lemma CutAtACharacter(line: Bytes) returns (end: nat)
    requires |line| > 2000
    ensures end <= 2000 && (end == 0 || !(0x80 <= line[end] < 0xC0))
    ensures forall i :: end < i <= 2000 ==> 0x80 <= line[i] < 0xC0
    ensures Summary(line) == line[..end] + Truncation(|line|)
  {
    end := LastBoundary(line, MAX_LOG_LINE);
    forall i | end < i <= 2000
      ensures 0x80 <= line[i] < 0xC0
    {
      assert !CharBoundary(line, i);
    }
  }

  /** A line that is too long is cut before the first character that does not fit, and
      says that it was, and how long it had been. */
  lemma SummaryByParts(line: Bytes) returns (end: nat, digits: string)
    requires |line| > 2000
    ensures end <= 2000 && (end == 0 || !(0x80 <= line[end] < 0xC0))
    ensures forall i :: end < i <= 2000 ==> 0x80 <= line[i] < 0xC0
    ensures IsDigits(digits) && NumberOf(digits) == |line|
    ensures IsAscii(" truncated=true original_len=" + digits)
    ensures Summary(line) == line[..end] + Ascii(" truncated=true original_len=" + digits)
  {
    end := CutAtACharacter(line);
    digits := Decimal(|line|);
    DecimalReadsBack(|line|);
    TruncationSays(|line|);
  }

  lemma TruncationSays(length: nat)
    ensures IsAscii(" truncated=true original_len=" + Decimal(length))
    ensures Truncation(length) == Ascii(" truncated=true original_len=" + Decimal(length))
  {
    var text := " truncated=true original_len=";
    forall c | c in text + Decimal(length)
      ensures c < 128 as char
    {
      if c in text {
        assert IsAscii(text);
      }
    }
  }

  /** Four bytes in a row that continue a character; no character has as many. */
  predicate FourContinuations(line: Bytes, i: nat)
    requires i + 3 < |line|
  {
    forall k :: i <= k <= i + 3 ==> Continuation(line[k])
  }

  /** A summary keeps the longest prefix that ends at a character boundary
      within the limit; for well-formed text, where no four continuation bytes
      follow each other, that is all but three bytes of it. No summary of a line
      in memory exceeds 2049 bytes. */
  lemma SummaryIsBounded(line: Bytes)
    requires |line| <= MAX_USIZE
    ensures |Summary(line)| <= 2049
    ensures |line| <= MAX_LOG_LINE ==> Summary(line) == line
    ensures |line| > MAX_LOG_LINE && (forall i :: 0 <= i < |line| - 3 ==> !FourContinuations(line, i))
         ==> line[..MAX_LOG_LINE - 3] <= Summary(line)
  {
    if |line| > MAX_LOG_LINE {
      assert PowerOfTen(20) == 100_000_000_000_000_000_000 by {
        assert PowerOfTen(10) == 10_000_000_000;
        assert PowerOfTen(15) == 100_000 * PowerOfTen(10);
      }
      DecimalLength(|line|, 20);
      var end := LastBoundary(line, MAX_LOG_LINE);
      var i := MAX_LOG_LINE - 3;
      if !FourContinuations(line, i) {
        var k :| i <= k <= i + 3 && !Continuation(line[k]);
        assert CharBoundary(line, k);
        assert end >= i;
        assert Summary(line)[..i] == line[..end][..i] == line[..i];
      }
    }
  }

  // ---------------------------------------------------------------------
  // The file
  // ---------------------------------------------------------------------

  class LogFile {
    var data: Bytes
    var position: nat

    constructor (data: Bytes)
      ensures this.data == data
    {
      this.data := data;
      this.position := 0;
    }

    method SeekStart(offset: nat)
      modifies `position
      ensures position == offset
    {
      position := offset;
    }

    method SeekEnd()
      modifies `position
      ensures position == |data|
    {
      position := |data|;
    }

    /** Reads at most `limit` bytes from the position on. */
    method ReadAtMost(limit: nat) returns (bytes: Bytes)
      requires position <= |data|
      modifies `position
      ensures bytes == data[old(position)..if |data| - old(position) <= limit then |data| else old(position) + limit]
      ensures position == old(position) + |bytes|
    {
      bytes := if |data| - position <= limit then data[position..] else data[position..position + limit];
      position := position + |bytes|;
    }

    method Truncate()
      modifies `data
      ensures data == []
    {
      data := [];
    }

    method WriteAll(bytes: Bytes)
      requires position == |data|
      modifies this
      ensures data == old(data) + bytes && position == |data|
    {
      data := data + bytes;
      position := |data|;
    }
  }

  /** The last bytes of the file that a rotation looks at. */
  function Window(contents: Bytes): (window: Bytes)
    ensures |window| <= KEPT_BYTES && |window| <= |contents|
  {
    if |contents| <= KEPT_BYTES then contents else contents[|contents| - KEPT_BYTES..]
  }

  function AfterFirstNewline(window: Bytes): Bytes {
    if HasLine(window) then window[LineLength(window)..] else window
  }

  /** What survives a rotation. */
  function Tail(contents: Bytes): Bytes {
    AfterFirstNewline(Window(contents))
  }

  function Appended(contents: Bytes, message: Bytes): Bytes {
    (if |contents| + |message| + 1 > MAX_BYTES then Tail(contents) else contents) + (message + [NEWLINE])
  }

  method Rotate(file: LogFile)
    modifies file
    ensures file.data == Tail(old(file.data))
  {
    var length := |file.data|;
    file.SeekStart(if length > MAX_BYTES / 2 then length - MAX_BYTES / 2 else 0);
    var tail := file.ReadAtMost(MAX_BYTES / 2);
    assert tail == Window(file.data);
    if HasLine(tail) {
      tail := tail[LineLength(tail)..];
    }
    file.Truncate();
    file.SeekStart(0);
    file.WriteAll(tail);
    assert [] + tail == tail;
  }

  method AppendBounded(file: LogFile, message: Bytes)
    modifies file
    ensures file.data == Appended(old(file.data), message)
  {
    if |file.data| + |message| + 1 > MAX_BYTES {
      Rotate(file);
    }
    ghost var kept := file.data;
    file.SeekEnd();
    file.WriteAll(message);
    file.WriteAll([NEWLINE]);
    assert kept + message + [NEWLINE] == kept + (message + [NEWLINE]);
  }

  // ---------------------------------------------------------------------
  // Every sequence of records
  // ---------------------------------------------------------------------

  /** The contents after appending records one after another. */
  function Logged(contents: Bytes, records: seq<Bytes>): Bytes
    decreases |records|
  {
    if records == [] then contents else Logged(Appended(contents, records[0]), records[1..])
  }

  /** The records themselves, as lines. */
  function Lines(records: seq<Bytes>): Bytes {
    if records == [] then [] else (records[0] + [NEWLINE]) + Lines(records[1..])
  }

  /** What the daemon appends for the messages it is given. */
  function Summaries(messages: seq<Bytes>): (records: seq<Bytes>)
    ensures |records| == |messages|
    ensures forall i :: 0 <= i < |messages| ==> records[i] == Summary(messages[i])
  {
    seq(|messages|, i requires 0 <= i < |messages| => Summary(messages[i]))
  }

  predicate IsSuffix(part: Bytes, whole: Bytes) {
    |part| <= |whole| && part == whole[|whole| - |part|..]
  }

  lemma SuffixTransitive(a: Bytes, b: Bytes, c: Bytes)
    requires IsSuffix(a, b) && IsSuffix(b, c)
    ensures IsSuffix(a, c)
  {
    assert c[|c| - |b|..][|b| - |a|..] == c[|c| - |a|..];
  }

  lemma AfterFirstNewlineIsSuffix(window: Bytes)
    ensures IsSuffix(AfterFirstNewline(window), window)
    ensures forall i :: 0 <= i < |window| && window[i] == NEWLINE ==>
      |AfterFirstNewline(window)| < |window| && window[|window| - |AfterFirstNewline(window)| - 1] == NEWLINE
  {
    if HasLine(window) {
      assert |window| - |AfterFirstNewline(window)| == LineLength(window);
    } else {
      forall i | 0 <= i < |window|
        ensures window[i] != NEWLINE
      {
        assert i < LineLength(window) - 1 || i == LineLength(window) - 1;
      }
    }
  }

  /** What rotation keeps: an end of the file, at most half the limit, that
      starts just after a newline whenever there is one in the window. */
  lemma TailIsRecent(contents: Bytes)
    ensures IsSuffix(Tail(contents), contents)
    ensures |Tail(contents)| <= KEPT_BYTES
    ensures NEWLINE in Window(contents) ==>
      |Tail(contents)| < |contents| && contents[|contents| - |Tail(contents)| - 1] == NEWLINE
  {
    var window := Window(contents);
    AfterFirstNewlineIsSuffix(window);
    assert IsSuffix(window, contents);
    SuffixTransitive(Tail(contents), window, contents);
    if NEWLINE in window {
      var i :| 0 <= i < |window| && window[i] == NEWLINE;
      SuffixAt(window, contents, |window| - |Tail(contents)| - 1);
    }
  }

  lemma SuffixAt(part: Bytes, whole: Bytes, k: nat)
    requires IsSuffix(part, whole) && k < |part|
    ensures whole[|whole| - |part| + k] == part[k]
  {
  }

  /** What rotation drops of its window: the piece of a line at its start, and nothing
      if the window holds no newline. */
  lemma RotationDropsAPiece(contents: Bytes)
    ensures
      var window := if |contents| <= 2_621_440 then |contents| else 2_621_440;
      && |Tail(contents)| <= window
      && (forall j :: |contents| - window <= j < |contents| - |Tail(contents)| - 1 ==> contents[j] != NEWLINE)
      && ((forall j :: |contents| - window <= j < |contents| ==> contents[j] != NEWLINE) ==>
            |Tail(contents)| == window)
  {
    var window := Window(contents);
    assert forall j :: |contents| - |window| <= j < |contents| ==>
      contents[j] == window[j - (|contents| - |window|)];
    if HasLine(window) {
      var n := LineLength(window);
      assert window[n - 1] == NEWLINE;
      assert contents[|contents| - |window| + n - 1] == NEWLINE;
    }
  }

  /** Nothing is dropped from a log that has room for the record; one that has not is
      rotated first. */
  lemma RotatesOnlyWhenFull(contents: Bytes, record: Bytes)
    ensures Appended(contents, record) ==
      (if |contents| + |record| + 1 <= 5_242_880 then contents else Tail(contents)) + (record + [NEWLINE])
  {
  }

  /** A log that has room for all records keeps them all, after what it held. */
  lemma {:induction false} LogKeepsWhatFits(contents: Bytes, records: seq<Bytes>)
    requires |contents| + |Lines(records)| <= 5_242_880
    ensures Logged(contents, records) == contents + Lines(records)
    decreases |records|
  {
    if records == [] {
      assert contents + Lines(records) == contents;
    } else {
      var line := records[0] + [NEWLINE];
      assert Lines(records) == line + Lines(records[1..]);
      LogKeepsWhatFits(contents + line, records[1..]);
      assert contents + line + Lines(records[1..]) == contents + (line + Lines(records[1..]));
    }
  }

  lemma DroppedBy(part: Bytes, whole: Bytes) returns (dropped: Bytes)
    requires IsSuffix(part, whole)
    ensures whole == dropped + part
  {
    dropped := whole[..|whole| - |part|];
  }

  /** One append: bounded, the record whole, and only older bytes dropped. */
  lemma AppendDropsOldest(contents: Bytes, record: Bytes) returns (dropped: Bytes)
    requires |record| <= MAX_BYTES - KEPT_BYTES - 1
    ensures |Appended(contents, record)| <= MAX_BYTES
    ensures contents + (record + [NEWLINE]) == dropped + Appended(contents, record)
  {
    if |contents| + |record| + 1 > MAX_BYTES {
      TailIsRecent(contents);
      dropped := DroppedBy(Tail(contents), contents);
      Associate(dropped, Tail(contents), record + [NEWLINE]);
    } else {
      dropped := [];
      Associate(dropped, contents, record + [NEWLINE]);
    }
  }

  lemma Associate(a: Bytes, b: Bytes, c: Bytes)
    ensures (a + b) + c == a + (b + c)
    ensures a == [] ==> a + b == b
  {
  }

  lemma Regroup(a: Bytes, b: Bytes, c: Bytes, next: Bytes, d: Bytes, d': Bytes, final: Bytes)
    requires a + b == d + next
    requires next + c == d' + final
    ensures a + (b + c) == (d + d') + final
  {
    assert a + (b + c) == (a + b) + c;
    assert (d + next) + c == d + (next + c);
    assert d + (d' + final) == (d + d') + final;
  }

  /** Appending any records, each short enough, only drops the oldest bytes. */
  lemma {:induction false} LogDropsOldest(contents: Bytes, records: seq<Bytes>) returns (dropped: Bytes)
    requires forall k :: 0 <= k < |records| ==> |records[k]| <= MAX_BYTES - KEPT_BYTES - 1
    ensures records != [] || |contents| <= MAX_BYTES ==> |Logged(contents, records)| <= MAX_BYTES
    ensures contents + Lines(records) == dropped + Logged(contents, records)
    decreases |records|
  {
    if records == [] {
      dropped := [];
      assert contents + Lines(records) == contents;
    } else {
      var record, later := records[0], records[1..];
      var next := Appended(contents, record);
      var first := AppendDropsOldest(contents, record);
      var rest := LogDropsOldest(next, later);
      dropped := first + rest;
      Regroup(contents, record + [NEWLINE], Lines(later), next, first, rest, Logged(next, later));
    }
  }

  /** The newest record is whole, at the end. */
  lemma {:induction false} LogEndsWithNewest(contents: Bytes, records: seq<Bytes>) returns (older: Bytes)
    requires records != []
    ensures Logged(contents, records) == older + (records[|records| - 1] + [NEWLINE])
    decreases |records|
  {
    var record, later := records[0], records[1..];
    if later == [] {
      older := if |contents| + |record| + 1 > MAX_BYTES then Tail(contents) else contents;
      assert Logged(contents, records) == Appended(contents, record);
    } else {
      older := LogEndsWithNewest(Appended(contents, record), later);
      assert later[|later| - 1] == records[|records| - 1];
    }
  }

  /** Whatever the file held at first, after any sequence of messages it is
      within its limit, is what remains of the initial contents and all records
      when only the oldest bytes are dropped, and ends with the newest record
      whole. */
  lemma LogStaysBounded(contents: Bytes, messages: seq<Bytes>) returns (dropped: Bytes, older: Bytes)
    requires forall k :: 0 <= k < |messages| ==> |messages[k]| <= MAX_USIZE
    ensures var logged := Logged(contents, Summaries(messages));
      && (messages != [] || |contents| <= MAX_BYTES ==> |logged| <= MAX_BYTES)
      && contents + Lines(Summaries(messages)) == dropped + logged
      && (messages != [] ==> logged == older + (Summary(messages[|messages| - 1]) + [NEWLINE]))
  {
    var records := Summaries(messages);
    forall k | 0 <= k < |records|
      ensures |records[k]| <= 2049
    {
      SummaryIsBounded(messages[k]);
    }
    dropped := LogDropsOldest(contents, records);
    older := [];
    if records != [] {
      older := LogEndsWithNewest(contents, records);
    }
  }
}
