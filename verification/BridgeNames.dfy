/** The naming codec of the bridge: a server name and a tool name become one
    exposed name, and come apart again when the tool is called. */
module BridgeNames {
  import opened Wrappers

  const SEPARATOR := "__"
  const ESCAPED_SEPARATOR := "%5F%5F"
  const ESCAPED_UNDERSCORE := "%5F"
  const ESCAPED_PERCENT := "%25"

  /** Rust's `str::replace`: leftmost, non-overlapping occurrences. */
  function Replace(text: string, pattern: string, substitute: string): string
    requires pattern != []
  {
    if |text| < |pattern| then text
    else if pattern <= text then substitute + Replace(text[|pattern|..], pattern, substitute)
    else [text[0]] + Replace(text[1..], pattern, substitute)
  }

  function EncodePart(value: string, escapeTrailing: bool, escapeLeading: bool): string {
    var escaped := Replace(Replace(value, "%", ESCAPED_PERCENT), SEPARATOR, ESCAPED_SEPARATOR);
    var leading :=
      if escapeLeading && |escaped| > 0 && escaped[0] == '_'
      then ESCAPED_UNDERSCORE + escaped[1..] else escaped;
    if escapeTrailing && |leading| > 0 && leading[|leading| - 1] == '_'
    then leading[..|leading| - 1] + ESCAPED_UNDERSCORE else leading
  }

  function DecodePart(value: string): string {
    Replace(Replace(value, ESCAPED_UNDERSCORE, "_"), ESCAPED_PERCENT, "%")
  }

  function EncodeServer(server: string): string {
    EncodePart(server, true, false)
  }

  function EncodeTool(tool: string): string {
    EncodePart(tool, false, true)
  }

  function Prefix(server: string): string {
    EncodeServer(server) + SEPARATOR
  }

  function EncodeToolName(server: string, tool: string): string {
    EncodeServer(server) + SEPARATOR + EncodeTool(tool)
  }

  // ---------------------------------------------------------------------
  // Decoding undoes encoding of one part
  // ---------------------------------------------------------------------

  lemma ReplaceHit(pattern: string, rest: string, substitute: string)
    requires pattern != []
    ensures Replace(pattern + rest, pattern, substitute) == substitute + Replace(rest, pattern, substitute)
  {
    assert (pattern + rest)[|pattern|..] == rest;
  }

  /** The pattern does not start here: it differs at offset `k`, or the text
      ends before that. */
  lemma ReplaceMiss(first: char, rest: string, pattern: string, substitute: string, k: nat)
    requires k < |pattern|
    requires k < 1 + |rest| ==> ([first] + rest)[k] != pattern[k]
    ensures Replace([first] + rest, pattern, substitute) == [first] + Replace(rest, pattern, substitute)
  {
    var text := [first] + rest;
    assert text[1..] == rest;
    assert !(pattern <= text);
    if |text| < |pattern| {
      assert Replace(rest, pattern, substitute) == rest;
    }
  }

  predicate EscapeAtStart(text: string) {
    |text| >= 3 && text[0] == '%' && text[1] == '5' && text[2] == 'F'
  }

  /** Where the escaped underscore first differs from the text. */
  function EscapeMiss(text: string): (k: nat)
    requires text != [] && !EscapeAtStart(text)
    ensures k < 3 && (k < |text| ==> text[k] != ESCAPED_UNDERSCORE[k])
  {
    if text[0] != '%' then 0 else if |text| < 2 || text[1] != '5' then 1 else 2
  }

  lemma {:induction false} PercentRoundTrip(value: string)
    ensures Replace(Replace(value, "%", ESCAPED_PERCENT), ESCAPED_PERCENT, "%") == value
  {
    if value != [] {
      PercentRoundTrip(value[1..]);
      var tail := Replace(value[1..], "%", ESCAPED_PERCENT);
      assert value == [value[0]] + value[1..];
      if value[0] == '%' {
        assert value == "%" + value[1..];
        ReplaceHit("%", value[1..], ESCAPED_PERCENT);
        ReplaceHit(ESCAPED_PERCENT, tail, "%");
      } else {
        ReplaceMiss(value[0], value[1..], "%", ESCAPED_PERCENT, 0);
        ReplaceMiss(value[0], tail, ESCAPED_PERCENT, "%", 0);
      }
    }
  }

  /** Every percent sign starts an escaped percent sign. */
  predicate PercentsEscaped(text: string) {
    forall i :: 0 <= i < |text| && text[i] == '%' ==>
      i + 2 < |text| && text[i + 1] == '2' && text[i + 2] == '5'
  }

  lemma {:induction false} PercentsAreEscaped(value: string)
    ensures PercentsEscaped(Replace(value, "%", ESCAPED_PERCENT))
  {
    if value != [] {
      PercentsAreEscaped(value[1..]);
      var tail := Replace(value[1..], "%", ESCAPED_PERCENT);
      assert value == [value[0]] + value[1..];
      if value[0] == '%' {
        assert value == "%" + value[1..];
        ReplaceHit("%", value[1..], ESCAPED_PERCENT);
        PercentsEscapedAfter(ESCAPED_PERCENT, tail);
      } else {
        ReplaceMiss(value[0], value[1..], "%", ESCAPED_PERCENT, 0);
        PercentsEscapedAfter([value[0]], tail);
      }
    }
  }

  lemma PercentsEscapedAfter(head: string, tail: string)
    requires PercentsEscaped(head) && PercentsEscaped(tail)
    ensures PercentsEscaped(head + tail)
  {
    var whole := head + tail;
    forall i | 0 <= i < |whole| && whole[i] == '%'
      ensures i + 2 < |whole| && whole[i + 1] == '2' && whole[i + 2] == '5'
    {
      if i < |head| {
        assert head[i] == '%';
      } else {
        assert tail[i - |head|] == '%';
      }
    }
  }

  function Separated(text: string): string {
    Replace(text, SEPARATOR, ESCAPED_SEPARATOR)
  }

  /** Two escaped underscores decode to two underscores. */
  lemma EscapesDecode(tail: string)
    ensures Replace(ESCAPED_SEPARATOR + tail, ESCAPED_UNDERSCORE, "_")
         == SEPARATOR + Replace(tail, ESCAPED_UNDERSCORE, "_")
  {
    var once := ESCAPED_UNDERSCORE + tail;
    ReplaceHit(ESCAPED_UNDERSCORE, tail, "_");
    ReplaceHit(ESCAPED_UNDERSCORE, once, "_");
    assert ESCAPED_SEPARATOR + tail == ESCAPED_UNDERSCORE + once;
    assert SEPARATOR + Replace(tail, ESCAPED_UNDERSCORE, "_")
        == "_" + ("_" + Replace(tail, ESCAPED_UNDERSCORE, "_"));
  }

  lemma SeparatorDecodes(rest: string)
    ensures Replace(Separated(SEPARATOR + rest), ESCAPED_UNDERSCORE, "_")
         == SEPARATOR + Replace(Separated(rest), ESCAPED_UNDERSCORE, "_")
  {
    ReplaceHit(SEPARATOR, rest, ESCAPED_SEPARATOR);
    EscapesDecode(Separated(rest));
  }

  lemma CharacterDecodes(first: char, rest: string)
    requires PercentsEscaped([first] + rest) && rest != [] && !(first == '_' && rest[0] == '_')
    ensures Replace(Separated([first] + rest), ESCAPED_UNDERSCORE, "_")
         == [first] + Replace(Separated(rest), ESCAPED_UNDERSCORE, "_")
  {
    var text, tail := [first] + rest, Separated(rest);
    ReplaceMiss(first, rest, SEPARATOR, ESCAPED_SEPARATOR, if first == '_' then 1 else 0);
    if first == '%' {
      // The digit after an escaped percent sign survives the replacement.
      assert text[0] == '%' && text[1] == '2';
      FirstCharacterSurvives(rest);
      ReplaceMiss(first, tail, ESCAPED_UNDERSCORE, "_", 1);
    } else {
      ReplaceMiss(first, tail, ESCAPED_UNDERSCORE, "_", 0);
    }
  }

  lemma PercentsEscapedBehind(text: string, k: nat)
    requires PercentsEscaped(text) && k <= |text|
    ensures PercentsEscaped(text[k..])
  {
    assert forall i :: 0 <= i < |text| - k ==> text[k..][i] == text[i + k];
  }

  lemma {:induction false} SeparatorRoundTrip(text: string)
    requires PercentsEscaped(text)
    ensures Replace(Separated(text), ESCAPED_UNDERSCORE, "_") == text
  {
    if |text| >= 2 && text[0] == '_' && text[1] == '_' {
      PercentsEscapedBehind(text, 2);
      SeparatorRoundTrip(text[2..]);
      SeparatorDecodes(text[2..]);
      assert text == SEPARATOR + text[2..];
    } else if |text| >= 2 {
      PercentsEscapedBehind(text, 1);
      SeparatorRoundTrip(text[1..]);
      assert text == [text[0]] + text[1..];
      CharacterDecodes(text[0], text[1..]);
    }
  }

  lemma FirstCharacterSurvives(text: string)
    requires text != [] && text[0] != '_'
    ensures Replace(text, SEPARATOR, ESCAPED_SEPARATOR) != []
    ensures Replace(text, SEPARATOR, ESCAPED_SEPARATOR)[0] == text[0]
  {
    assert text == [text[0]] + text[1..];
    ReplaceMiss(text[0], text[1..], SEPARATOR, ESCAPED_SEPARATOR, 0);
  }

  /** Neither a bare nor an escaped underscore continues a started escape. */
  predicate UnderscoreForm(ending: string) {
    ending == ESCAPED_UNDERSCORE || ending == "_"
  }

  lemma UnderscoreFormDecodes(ending: string)
    requires UnderscoreForm(ending)
    ensures Replace(ending, ESCAPED_UNDERSCORE, "_") == "_"
  {
    if ending == ESCAPED_UNDERSCORE {
      assert ending == ESCAPED_UNDERSCORE + [];
      ReplaceHit(ESCAPED_UNDERSCORE, [], "_");
    }
  }

  lemma MissesBeforeEnding(text: string, ending: string)
    requires text != [] && !EscapeAtStart(text) && UnderscoreForm(ending)
    ensures Replace(text, ESCAPED_UNDERSCORE, "_")
         == [text[0]] + Replace(text[1..], ESCAPED_UNDERSCORE, "_")
    ensures Replace(text + ending, ESCAPED_UNDERSCORE, "_")
         == [text[0]] + Replace(text[1..] + ending, ESCAPED_UNDERSCORE, "_")
  {
    var k := EscapeMiss(text);
    assert text == [text[0]] + text[1..];
    ReplaceMiss(text[0], text[1..], ESCAPED_UNDERSCORE, "_", k);
    assert text + ending == [text[0]] + (text[1..] + ending);
    assert (text + ending)[k] == if k < |text| then text[k] else ending[0];
    ReplaceMiss(text[0], text[1..] + ending, ESCAPED_UNDERSCORE, "_", k);
  }

  /** Escaping a final underscore does not change what the part decodes to:
      no occurrence of the escape can straddle the cut. */
  lemma {:induction false} FinalUnderscore(text: string, ending: string)
    requires UnderscoreForm(ending)
    ensures Replace(text + ending, ESCAPED_UNDERSCORE, "_")
         == Replace(text, ESCAPED_UNDERSCORE, "_") + "_"
  {
    if text == [] {
      assert text + ending == ending;
      UnderscoreFormDecodes(ending);
    } else if EscapeAtStart(text) {
      var rest := text[3..];
      FinalUnderscore(rest, ending);
      assert text == ESCAPED_UNDERSCORE + rest;
      assert text + ending == ESCAPED_UNDERSCORE + (rest + ending);
      ReplaceHit(ESCAPED_UNDERSCORE, rest, "_");
      ReplaceHit(ESCAPED_UNDERSCORE, rest + ending, "_");
    } else {
      FinalUnderscore(text[1..], ending);
      MissesBeforeEnding(text, ending);
    }
  }

  lemma EscapedLeadingDecodes(escaped: string)
    requires escaped != [] && escaped[0] == '_'
    ensures Replace(ESCAPED_UNDERSCORE + escaped[1..], ESCAPED_UNDERSCORE, "_")
         == Replace(escaped, ESCAPED_UNDERSCORE, "_")
  {
    ReplaceHit(ESCAPED_UNDERSCORE, escaped[1..], "_");
    assert escaped == ['_'] + escaped[1..];
    ReplaceMiss('_', escaped[1..], ESCAPED_UNDERSCORE, "_", 0);
  }

  lemma EscapedTrailingDecodes(escaped: string)
    requires escaped != [] && escaped[|escaped| - 1] == '_'
    ensures Replace(escaped[..|escaped| - 1] + ESCAPED_UNDERSCORE, ESCAPED_UNDERSCORE, "_")
         == Replace(escaped, ESCAPED_UNDERSCORE, "_")
  {
    var body := escaped[..|escaped| - 1];
    assert escaped == body + "_";
    FinalUnderscore(body, "_");
    FinalUnderscore(body, ESCAPED_UNDERSCORE);
  }

  lemma PartRoundTrip(value: string, escapeTrailing: bool, escapeLeading: bool)
    ensures DecodePart(EncodePart(value, escapeTrailing, escapeLeading)) == value
  {
    var percent := Replace(value, "%", ESCAPED_PERCENT);
    var escaped := Replace(percent, SEPARATOR, ESCAPED_SEPARATOR);
    PercentsAreEscaped(value);
    SeparatorRoundTrip(percent);
    PercentRoundTrip(value);
    var leading :=
      if escapeLeading && |escaped| > 0 && escaped[0] == '_'
      then ESCAPED_UNDERSCORE + escaped[1..] else escaped;
    if escapeLeading && |escaped| > 0 && escaped[0] == '_' {
      EscapedLeadingDecodes(escaped);
    }
    if escapeTrailing && |leading| > 0 && leading[|leading| - 1] == '_' {
      EscapedTrailingDecodes(leading);
    }
  }

  // ---------------------------------------------------------------------
  // The same escapes in one pass
  // ---------------------------------------------------------------------

  /** A percent sign and each pair of underscores is escaped, and nothing else is. */
  function Escape(value: string): string {
    if value == "" then ""
    else if value[0] == '%' then "%25" + Escape(value[1..])
    else if value[0] == '_' && |value| > 1 && value[1] == '_' then "%5F%5F" + Escape(value[2..])
    else [value[0]] + Escape(value[1..])
  }

  /** In a server name so is an underscore that is left over at the end, */
  function EscapeServer(value: string): string {
    if value == "" then ""
    else if value == "_" then "%5F"
    else if value[0] == '%' then "%25" + EscapeServer(value[1..])
    else if value[0] == '_' && value[1] == '_' then "%5F%5F" + EscapeServer(value[2..])
    else [value[0]] + EscapeServer(value[1..])
  }

  /** and in a tool name one at the start. */
  function EscapeTool(value: string): string {
    if value != "" && value[0] == '_' && !(|value| > 1 && value[1] == '_') then "%5F" + Escape(value[1..])
    else Escape(value)
  }

  lemma PercentStep(value: string)
    requires value != ""
    ensures Replace(value, "%", ESCAPED_PERCENT) ==
      (if value[0] == '%' then ESCAPED_PERCENT else [value[0]]) + Replace(value[1..], "%", ESCAPED_PERCENT)
  {
    assert value == [value[0]] + value[1..];
    if value[0] == '%' {
      assert value == "%" + value[1..];
      ReplaceHit("%", value[1..], ESCAPED_PERCENT);
    } else {
      ReplaceMiss(value[0], value[1..], "%", ESCAPED_PERCENT, 0);
    }
  }

  lemma EscapedPercentStays(tail: string)
    ensures Separated(ESCAPED_PERCENT + tail) == ESCAPED_PERCENT + Separated(tail)
  {
    assert ESCAPED_PERCENT + tail == ['%'] + (['2'] + (['5'] + tail));
    ReplaceMiss('5', tail, SEPARATOR, ESCAPED_SEPARATOR, 0);
    ReplaceMiss('2', ['5'] + tail, SEPARATOR, ESCAPED_SEPARATOR, 0);
    ReplaceMiss('%', ['2'] + (['5'] + tail), SEPARATOR, ESCAPED_SEPARATOR, 0);
  }

  lemma {:induction false} EscapesInOnePass(value: string)
    ensures Separated(Replace(value, "%", ESCAPED_PERCENT)) == Escape(value)
  {
    if value != "" {
      PercentStep(value);
      var tail := Replace(value[1..], "%", ESCAPED_PERCENT);
      if value[0] == '%' {
        EscapesInOnePass(value[1..]);
        EscapedPercentStays(tail);
      } else if value[0] == '_' && |value| > 1 && value[1] == '_' {
        EscapesInOnePass(value[2..]);
        PercentStep(value[1..]);
        var rest := Replace(value[2..], "%", ESCAPED_PERCENT);
        assert [value[0]] + ([value[1]] + rest) == SEPARATOR + rest;
        ReplaceHit(SEPARATOR, rest, ESCAPED_SEPARATOR);
      } else {
        EscapesInOnePass(value[1..]);
        if |value| > 1 {
          PercentStep(value[1..]);
        }
        ReplaceMiss(value[0], tail, SEPARATOR, ESCAPED_SEPARATOR, if value[0] == '_' then 1 else 0);
      }
    }
  }

  /** What both forms put first, and what is left to escape after it. */
  lemma FirstEscape(value: string) returns (head: string, rest: string)
    requires value != "" && value != "_"
    ensures |rest| < |value| && head != "" && (rest == "" ==> head[|head| - 1] != '_')
    ensures Escape(value) == head + Escape(rest) && EscapeServer(value) == head + EscapeServer(rest)
  {
    var pair := value[0] == '_' && value[1] == '_';
    rest := if pair then value[2..] else value[1..];
    head := if value[0] == '%' then "%25" else if pair then "%5F%5F" else [value[0]];
  }

  /** A final underscore, escaped. */
  function TrailingEscaped(escaped: string): string {
    if escaped != "" && escaped[|escaped| - 1] == '_' then escaped[..|escaped| - 1] + "%5F" else escaped
  }

  lemma TrailingBehind(head: string, escaped: string)
    requires escaped == "" ==> TrailingEscaped(head) == head
    ensures TrailingEscaped(head + escaped) == head + TrailingEscaped(escaped)
  {
    if escaped != "" {
      assert (head + escaped)[..|head + escaped| - 1] == head + escaped[..|escaped| - 1];
    } else {
      assert head + escaped == head;
    }
  }

  lemma {:induction false} TrailingInOnePass(value: string)
    ensures EscapeServer(value) == TrailingEscaped(Escape(value))
    ensures value != "" ==> Escape(value) != ""
    decreases |value|
  {
    if value == "_" {
      assert Escape(value) == ['_'] + Escape("") && Escape(value)[..0] == "";
    } else if value != "" {
      var head, rest := FirstEscape(value);
      TrailingInOnePass(rest);
      TrailingBehind(head, Escape(rest));
    }
  }

  lemma LeadingInOnePass(value: string)
    ensures EscapeTool(value) ==
      var escaped := Escape(value);
      if escaped != "" && escaped[0] == '_' then "%5F" + escaped[1..] else escaped
  {
    if value != "" && value[0] == '_' && !(|value| > 1 && value[1] == '_') {
      assert Escape(value)[1..] == Escape(value[1..]);
    }
  }

  /** The two parts of an exposed name are escaped in a single pass from left to
      right: percent signs, pairs of underscores, and the one underscore that would
      touch the separator; every other character stays as it is. */
  lemma NamesInOnePass(server: string, tool: string)
    ensures EncodeToolName(server, tool) == EscapeServer(server) + "__" + EscapeTool(tool)
  {
    EscapesInOnePass(server);
    EscapesInOnePass(tool);
    TrailingInOnePass(server);
    LeadingInOnePass(tool);
  }

  // ---------------------------------------------------------------------
  // The separator occurs once
  // ---------------------------------------------------------------------

  predicate NoSeparator(text: string) {
    forall i :: 0 <= i < |text| - 1 ==> !(text[i] == '_' && text[i + 1] == '_')
  }

  lemma {:induction false} SeparatorsAreEscaped(text: string)
    ensures NoSeparator(Replace(text, SEPARATOR, ESCAPED_SEPARATOR))
    ensures text != [] && text[0] != '_'
         ==> Replace(text, SEPARATOR, ESCAPED_SEPARATOR)[..1] == text[..1]
    ensures text == [] <==> Replace(text, SEPARATOR, ESCAPED_SEPARATOR) == []
  {
    if |text| >= 2 {
      if SEPARATOR <= text {
        SeparatorsAreEscaped(text[2..]);
        var tail := Replace(text[2..], SEPARATOR, ESCAPED_SEPARATOR);
        var whole := ESCAPED_SEPARATOR + tail;
        assert whole[6..] == tail;
        forall i | 0 <= i < |whole| - 1
          ensures !(whole[i] == '_' && whole[i + 1] == '_')
        {
          if i >= 6 { assert whole[i] == tail[i - 6] && whole[i + 1] == tail[i - 5]; }
        }
      } else {
        SeparatorsAreEscaped(text[1..]);
        var tail := Replace(text[1..], SEPARATOR, ESCAPED_SEPARATOR);
        var whole := [text[0]] + tail;
        assert whole[1..] == tail;
        forall i | 0 <= i < |whole| - 1
          ensures !(whole[i] == '_' && whole[i + 1] == '_')
        {
          if i >= 1 {
            assert whole[i] == tail[i - 1] && whole[i + 1] == tail[i];
          } else if text[0] == '_' {
            assert text[1] != '_';
            assert tail[..1] == text[1..][..1];
            assert tail[0] == tail[..1][0];
          }
        }
      }
    }
  }

  lemma EncodedServerShape(server: string)
    ensures NoSeparator(EncodeServer(server))
    ensures EncodeServer(server) != [] ==> EncodeServer(server)[|EncodeServer(server)| - 1] != '_'
  {
    var percent := Replace(server, "%", ESCAPED_PERCENT);
    SeparatorsAreEscaped(percent);
  }

  lemma EncodedToolShape(tool: string)
    ensures NoSeparator(EncodeTool(tool))
    ensures EncodeTool(tool) != [] ==> EncodeTool(tool)[0] != '_'
  {
    var percent := Replace(tool, "%", ESCAPED_PERCENT);
    SeparatorsAreEscaped(percent);
    var escaped := Replace(percent, SEPARATOR, ESCAPED_SEPARATOR);
    if |escaped| > 0 && escaped[0] == '_' {
      var whole := ESCAPED_UNDERSCORE + escaped[1..];
      forall i | 0 <= i < |whole| - 1
        ensures !(whole[i] == '_' && whole[i + 1] == '_')
      {
        if i >= 3 { assert whole[i] == escaped[i - 2] && whole[i + 1] == escaped[i - 1]; }
      }
    }
  }

  /** The exposed name contains the separator exactly once, right after the
      encoded server. */
  lemma SeparatorOccursOnce(server: string, tool: string, i: int)
    requires 0 <= i < |EncodeToolName(server, tool)| - 1
    ensures EncodeToolName(server, tool)[i..i + 2] == SEPARATOR <==> i == |EncodeServer(server)|
  {
    EncodedServerShape(server);
    EncodedToolShape(tool);
    var left, right := EncodeServer(server), EncodeTool(tool);
    var name := EncodeToolName(server, tool);
    assert name[i..i + 2] == [name[i], name[i + 1]];
    if i + 1 < |left| {
      assert name[i] == left[i] && name[i + 1] == left[i + 1];
    } else if i + 1 == |left| {
      assert name[i] == left[i];
    } else if i == |left| + 1 {
      assert name[i + 1] == right[0];
    } else if i > |left| + 1 {
      assert name[i] == right[i - |left| - 2] && name[i + 1] == right[i - |left| - 1];
    }
  }

  /** Two servers whose encoded prefixes both match one name are the same
      server: the first separator of the name fixes the prefix. */
  lemma PrefixDeterminesServer(name: string, first: string, second: string)
    requires Prefix(first) <= name && Prefix(second) <= name
    ensures first == second
  {
    EncodedServerShape(first);
    EncodedServerShape(second);
    var a, b := EncodeServer(first), EncodeServer(second);
    assert name[|a|] == Prefix(first)[|a|] && name[|a| + 1] == Prefix(first)[|a| + 1];
    assert name[|b|] == Prefix(second)[|b|] && name[|b| + 1] == Prefix(second)[|b| + 1];
    if |a| < |b| {
      NoEarlierSeparator(name, second, |a|);
    } else if |b| < |a| {
      NoEarlierSeparator(name, first, |b|);
    } else {
      assert a == name[..|a|] && b == name[..|b|];
    }
    PartRoundTrip(first, true, false);
    PartRoundTrip(second, true, false);
  }

  /** A name that starts with a server's prefix has no separator before the
      end of the encoded server. */
  lemma NoEarlierSeparator(name: string, server: string, i: int)
    requires Prefix(server) <= name
    requires 0 <= i < |EncodeServer(server)|
    ensures !(name[i] == '_' && name[i + 1] == '_')
  {
    EncodedServerShape(server);
    var part := EncodeServer(server);
    assert name[i] == Prefix(server)[i] == part[i];
    if i + 1 < |part| {
      assert name[i + 1] == Prefix(server)[i + 1] == part[i + 1];
    }
  }

  lemma EncodingIsInjective(server: string, tool: string, server': string, tool': string)
    requires EncodeToolName(server, tool) == EncodeToolName(server', tool')
    ensures server == server' && tool == tool'
  {
    var name := EncodeToolName(server, tool);
    assert name == Prefix(server) + EncodeTool(tool);
    assert name == Prefix(server') + EncodeTool(tool');
    PrefixDeterminesServer(name, server, server');
    assert EncodeTool(tool) == name[|Prefix(server)|..];
    assert EncodeTool(tool') == name[|Prefix(server)|..];
    PartRoundTrip(tool, false, true);
    PartRoundTrip(tool', false, true);
  }

  // ---------------------------------------------------------------------
  // Taking a name apart
  // ---------------------------------------------------------------------

  /** What decoding means, with no mention of any search order: the server is
      one of those served, its prefix starts the name, and the remainder
      decodes to the nonempty tool. */
  ghost predicate NameSplits(name: string, servers: seq<string>, server: string, tool: string) {
    && server in servers
    && Prefix(server) <= name
    && tool == DecodePart(name[|Prefix(server)|..])
    && tool != []
  }

  datatype Candidate = Candidate(server: string, prefix: string)

  ghost predicate CandidatesOf(candidates: seq<Candidate>, servers: seq<string>) {
    && (forall i :: 0 <= i < |candidates| ==>
      candidates[i].server in servers && candidates[i].prefix == Prefix(candidates[i].server))
    && (forall s :: s in servers ==> Candidate(s, Prefix(s)) in candidates)
  }

  predicate LongestFirst(candidates: seq<Candidate>) {
    forall i :: 0 < i < |candidates| ==> |candidates[i - 1].prefix| >= |candidates[i].prefix|
  }

  function InsertAt(sorted: seq<Candidate>, at: nat, candidate: Candidate): seq<Candidate>
    requires at <= |sorted|
  {
    sorted[..at] + [candidate] + sorted[at..]
  }

  lemma InsertionKeepsOrder(sorted: seq<Candidate>, at: nat, candidate: Candidate)
    requires LongestFirst(sorted) && at <= |sorted|
    requires at > 0 ==> |sorted[at - 1].prefix| >= |candidate.prefix|
    requires at < |sorted| ==> |sorted[at].prefix| < |candidate.prefix|
    ensures LongestFirst(InsertAt(sorted, at, candidate))
  {
  }

  lemma InsertionKeepsElements(sorted: seq<Candidate>, at: nat, candidate: Candidate)
    requires at <= |sorted|
    ensures multiset(InsertAt(sorted, at, candidate)) == multiset(sorted) + multiset{candidate}
  {
    assert sorted == sorted[..at] + sorted[at..];
    assert multiset(sorted) == multiset(sorted[..at]) + multiset(sorted[at..]);
  }

  method InsertByLength(sorted: seq<Candidate>, candidate: Candidate) returns (longer: seq<Candidate>)
    requires LongestFirst(sorted)
    ensures LongestFirst(longer)
    ensures multiset(longer) == multiset(sorted) + multiset{candidate}
  {
    var at := 0;
    while at < |sorted| && |sorted[at].prefix| >= |candidate.prefix|
      invariant 0 <= at <= |sorted|
      invariant at > 0 ==> |sorted[at - 1].prefix| >= |candidate.prefix|
    {
      at := at + 1;
    }
    InsertionKeepsOrder(sorted, at, candidate);
    InsertionKeepsElements(sorted, at, candidate);
    longer := InsertAt(sorted, at, candidate);
  }

  /** The sort of the candidate list by decreasing prefix length. */
  method SortLongestFirst(input: seq<Candidate>) returns (sorted: seq<Candidate>)
    ensures multiset(sorted) == multiset(input)
    ensures LongestFirst(sorted)
  {
    sorted := [];
    for n := 0 to |input|
      invariant multiset(sorted) == multiset(input[..n])
      invariant LongestFirst(sorted)
    {
      sorted := InsertByLength(sorted, input[n]);
      assert input[..n + 1] == input[..n] + [input[n]];
    }
    assert input[..|input|] == input;
  }

  method CollectCandidates(servers: seq<string>) returns (candidates: seq<Candidate>)
    ensures CandidatesOf(candidates, servers)
  {
    candidates := [];
    for i := 0 to |servers|
      invariant |candidates| == i
      invariant forall k :: 0 <= k < i ==> candidates[k] == Candidate(servers[k], Prefix(servers[k]))
    {
      candidates := candidates + [Candidate(servers[i], Prefix(servers[i]))];
    }
    forall s | s in servers
      ensures Candidate(s, Prefix(s)) in candidates
    {
      var k :| 0 <= k < |servers| && servers[k] == s;
      assert candidates[k] == Candidate(s, Prefix(s));
    }
  }

  lemma PermutationKeepsCandidates(from: seq<Candidate>, to: seq<Candidate>, servers: seq<string>)
    requires CandidatesOf(from, servers) && multiset(to) == multiset(from)
    ensures CandidatesOf(to, servers)
  {
    forall i | 0 <= i < |to|
      ensures to[i].server in servers && to[i].prefix == Prefix(to[i].server)
    {
      assert to[i] in multiset(from);
    }
    forall s | s in servers
      ensures Candidate(s, Prefix(s)) in to
    {
      assert Candidate(s, Prefix(s)) in multiset(to);
    }
  }

  /** Tries the candidates in order; the first one that leaves a nonempty tool
      wins. */
  method TryInOrder(name: string, candidates: seq<Candidate>)
    returns (decoded: Option<(string, string)>, ghost winner: int)
    ensures decoded.Some? ==>
      && 0 <= winner < |candidates|
      && candidates[winner].prefix <= name
      && decoded.value == (candidates[winner].server, DecodePart(name[|candidates[winner].prefix|..]))
      && decoded.value.1 != []
    ensures decoded.None? ==> forall i :: 0 <= i < |candidates| ==>
      candidates[i].prefix <= name ==> DecodePart(name[|candidates[i].prefix|..]) == []
  {
    for i := 0 to |candidates|
      invariant forall k :: 0 <= k < i ==>
        candidates[k].prefix <= name ==> DecodePart(name[|candidates[k].prefix|..]) == []
    {
      var candidate := candidates[i];
      if candidate.prefix <= name {
        var tool := DecodePart(name[|candidate.prefix|..]);
        if tool != [] {
          return Some((candidate.server, tool)), i;
        }
      }
    }
    return None, 0;
  }

  /** Collects the candidates, tries them longest first and returns the first
      that leaves a nonempty tool. The answer is exactly the split above, so
      the order of the search cannot matter. */
  method DecodeToolName(name: string, servers: seq<string>) returns (decoded: Option<(string, string)>)
    ensures decoded.Some? ==> NameSplits(name, servers, decoded.value.0, decoded.value.1)
    ensures decoded.None? ==> forall s, t :: !NameSplits(name, servers, s, t)
    ensures decoded == Decoded(name, servers)
  {
    var candidates := CollectCandidates(servers);
    var sorted := SortLongestFirst(candidates);
    PermutationKeepsCandidates(candidates, sorted, servers);
    ghost var winner;
    decoded, winner := TryInOrder(name, sorted);
    if decoded.None? {
      forall s, t
        ensures !NameSplits(name, servers, s, t)
      {
        if s in servers {
          var i :| 0 <= i < |sorted| && sorted[i] == Candidate(s, Prefix(s));
        }
      }
    } else {
      assert sorted[winner].prefix == Prefix(sorted[winner].server);
      SplitDetermines(name, servers, decoded.value.0, decoded.value.1);
    }
  }

  lemma SplitDetermines(name: string, servers: seq<string>, server: string, tool: string)
    requires NameSplits(name, servers, server, tool)
    ensures Decoded(name, servers) == Some((server, tool))
  {
    forall s, t | NameSplits(name, servers, s, t)
      ensures s == server && t == tool
    {
      PrefixDeterminesServer(name, s, server);
    }
  }

  /** The decoder as a function of its inputs, for use in specifications. */
  ghost function Decoded(name: string, servers: seq<string>): Option<(string, string)> {
    if s, t :| NameSplits(name, servers, s, t) then Some((s, t)) else None
  }

  /** Decoding an encoded name gives back the served server and its tool; the
      one exception is the empty tool name, which never decodes. */
  lemma DecodeUndoesEncode(server: string, tool: string, servers: seq<string>)
    requires server in servers
    ensures Decoded(EncodeToolName(server, tool), servers)
         == if tool == [] then None else Some((server, tool))
  {
    var name := EncodeToolName(server, tool);
    assert name == Prefix(server) + EncodeTool(tool);
    assert name[|Prefix(server)|..] == EncodeTool(tool);
    PartRoundTrip(tool, false, true);
    if tool != [] {
      SplitDetermines(name, servers, server, tool);
    } else {
      forall s, t
        ensures !NameSplits(name, servers, s, t)
      {
        if Prefix(s) <= name {
          PrefixDeterminesServer(name, s, server);
        }
      }
    }
  }
}
