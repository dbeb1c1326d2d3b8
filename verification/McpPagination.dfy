/** Listing every page of a catalogue over one client. */
module McpPagination {
  import opened Wrappers
  import opened Json
  import opened McpWire
  import opened McpClient

  datatype PageError = RequestFailed | BadPage | BadCursor | RepeatedCursor

  /** One request of a listing and what came of it. */
  datatype Exchange = Exchange(params: Json, reply: Reply)

  function CursorParameters(cursor: string): Json {
    Obj(map["cursor" := Str(cursor)])
  }

  /** The entries of a page; tools are not checked to be objects here. */
  function PageOf(result: Json, field: string): Option<seq<Json>> {
    var member := result.Get(field);
    if member.None? || !member.value.Arr? then None
    else if field != "tools" && exists entry :: entry in member.value.items && !entry.Obj? then None
    else Some(member.value.items)
  }

  predicate Answered(exchange: Exchange, field: string) {
    exchange.reply.Got? && exchange.reply.outcome.Value? && PageOf(exchange.reply.outcome.result, field).Some?
  }

  /** The cursor a well-formed page hands out, if it does. */
  function CursorOf(exchange: Exchange, field: string): Option<string> {
    if !Answered(exchange, field) then None
    else
      var next := exchange.reply.outcome.result.Get("nextCursor");
      if next.Some? && next.value.Str? then Some(next.value.text) else None
  }

  function PagesFrom(
      s: Session, deadline: nat, operation: string, field: string,
      entries: seq<Json>, params: Json, cursors: set<string>): (Session, Result<seq<Json>, PageError>, seq<Exchange>)
    decreases |s.link.inbox|
  {
    var (s', reply) := RequestStep(s, deadline, operation, params);
    var exchange := Exchange(params, reply);
    if !reply.Got? || !reply.outcome.Value? then (s', Err(RequestFailed), [exchange])
    else if PageOf(reply.outcome.result, field).None? then (s', Err(BadPage), [exchange])
    else
      var longer := entries + PageOf(reply.outcome.result, field).value;
      var next := reply.outcome.result.Get("nextCursor");
      if next.None? then (s', Ok(longer), [exchange])
      else if !next.value.Str? then (s', Err(BadCursor), [exchange])
      else if next.value.text in cursors then (s', Err(RepeatedCursor), [exchange])
      else
        AnsweredRequestConsumes(s, deadline, operation, params);
        var (s'', result, later) := PagesFrom(
          s', deadline, operation, field, longer, CursorParameters(next.value.text), cursors + {next.value.text});
        (s'', result, [exchange] + later)
  }

  function Pages(s: Session, deadline: nat, operation: string, field: string)
    : (Session, Result<seq<Json>, PageError>, seq<Exchange>)
  {
    PagesFrom(s, deadline, operation, field, [], EMPTY_OBJECT, {})
  }

  method CollectPages(client: Client, operation: string, field: string)
    returns (result: Result<seq<Json>, PageError>)
    requires client.Valid()
    modifies client, client.stream
    ensures client.Valid()
    ensures client.View() == Pages(old(client.View()), client.deadline, operation, field).0
    ensures result == Pages(old(client.View()), client.deadline, operation, field).1
  {
    var entries: seq<Json> := [];
    var params := EMPTY_OBJECT;
    var cursors: set<string> := {};
    ghost var whole := Pages(client.View(), client.deadline, operation, field);
    while true
      invariant client.Valid()
      invariant PagesFrom(client.View(), client.deadline, operation, field, entries, params, cursors).0 == whole.0
      invariant PagesFrom(client.View(), client.deadline, operation, field, entries, params, cursors).1 == whole.1
      decreases |client.stream.link.inbox|
    {
      AnsweredRequestConsumes(client.View(), client.deadline, operation, params);
      var reply := client.Request(operation, params);
      if !reply.Got? || !reply.outcome.Value? {
        return Err(RequestFailed);
      }
      var page := PageOf(reply.outcome.result, field);
      if page.None? {
        return Err(BadPage);
      }
      entries := entries + page.value;
      var next := reply.outcome.result.Get("nextCursor");
      if next.None? {
        return Ok(entries);
      }
      if !next.value.Str? {
        return Err(BadCursor);
      }
      if next.value.text in cursors {
        return Err(RepeatedCursor);
      }
      cursors := cursors + {next.value.text};
      params := CursorParameters(next.value.text);
    }
  }

  // ---------------------------------------------------------------------
  // What a listing yields
  // ---------------------------------------------------------------------

  /** The entries of all answered pages, in the order of the requests. */
  function AllEntries(trace: seq<Exchange>, field: string): seq<Json> {
    if trace == [] then []
    else
      (if Answered(trace[0], field) then PageOf(trace[0].reply.outcome.result, field).value else [])
      + AllEntries(trace[1..], field)
  }

  /** Each request but the first asks for the cursor that the page before it
      handed out, and those cursors are all different and new. */
  ghost predicate Follows(trace: seq<Exchange>, field: string, params: Json, cursors: set<string>) {
    && trace != [] && trace[0].params == params
    && (forall k :: 0 <= k < |trace| - 1 ==>
          && CursorOf(trace[k], field).Some?
          && CursorOf(trace[k], field).value !in cursors
          && trace[k + 1].params == CursorParameters(CursorOf(trace[k], field).value))
    && (forall i, j :: 0 <= i < j < |trace| - 1 ==> CursorOf(trace[i], field) != CursorOf(trace[j], field))
  }

  /** The last page repeats a cursor handed out before. */
  ghost predicate Repeats(trace: seq<Exchange>, field: string, cursors: set<string>)
    requires trace != []
  {
    var last := CursorOf(trace[|trace| - 1], field);
    last.Some? && (last.value in cursors || exists k :: 0 <= k < |trace| - 1 && CursorOf(trace[k], field) == last)
  }

  lemma FollowsStep(exchange: Exchange, later: seq<Exchange>, field: string, cursors: set<string>, cursor: string)
    requires CursorOf(exchange, field) == Some(cursor) && cursor !in cursors
    requires Follows(later, field, CursorParameters(cursor), cursors + {cursor})
    ensures Follows([exchange] + later, field, exchange.params, cursors)
    ensures Repeats([exchange] + later, field, cursors) <==> Repeats(later, field, cursors + {cursor})
  {
    var trace := [exchange] + later;
    assert forall k :: 0 < k < |trace| ==> trace[k] == later[k - 1];
    assert trace[|trace| - 1] == later[|later| - 1];
    var last := CursorOf(trace[|trace| - 1], field);
    if Repeats(later, field, cursors + {cursor}) {
      if last.value in cursors {
      } else if last.value == cursor {
        assert CursorOf(trace[0], field) == last;
      } else {
        var k :| 0 <= k < |later| - 1 && CursorOf(later[k], field) == last;
        assert CursorOf(trace[k + 1], field) == last;
      }
    }
    if Repeats(trace, field, cursors) && last.value !in cursors {
      var k :| 0 <= k < |trace| - 1 && CursorOf(trace[k], field) == last;
      if k > 0 {
        assert CursorOf(later[k - 1], field) == last;
      }
    }
  }

  /** The only request of a trace, if its page does not lead on. */
  lemma FollowsAlone(exchange: Exchange, field: string, cursors: set<string>)
    ensures Follows([exchange], field, exchange.params, cursors)
    ensures Repeats([exchange], field, cursors) <==>
      CursorOf(exchange, field).Some? && CursorOf(exchange, field).value in cursors
    ensures AllEntries([exchange], field) ==
      if Answered(exchange, field) then PageOf(exchange.reply.outcome.result, field).value else []
  {
  }

  lemma EntriesBehind(exchange: Exchange, later: seq<Exchange>, field: string, entries: seq<Json>)
    requires Answered(exchange, field)
    ensures
      var page := PageOf(exchange.reply.outcome.result, field).value;
      entries + AllEntries([exchange] + later, field) == (entries + page) + AllEntries(later, field)
  {
    assert ([exchange] + later)[1..] == later;
  }

  lemma {:induction false} PagesFollow(
      s: Session, deadline: nat, operation: string, field: string,
      entries: seq<Json>, params: Json, cursors: set<string>)
    ensures var (s', result, trace) := PagesFrom(s, deadline, operation, field, entries, params, cursors);
      && Follows(trace, field, params, cursors)
      && (result == Err(RepeatedCursor) <==> Repeats(trace, field, cursors))
      && (result.Ok? ==> result.value == entries + AllEntries(trace, field))
    decreases |s.link.inbox|
  {
    var (s', reply) := RequestStep(s, deadline, operation, params);
    var exchange := Exchange(params, reply);
    var cursor := CursorOf(exchange, field);
    if cursor.Some? && cursor.value !in cursors {
      var longer := entries + PageOf(reply.outcome.result, field).value;
      AnsweredRequestConsumes(s, deadline, operation, params);
      PagesFollow(s', deadline, operation, field, longer, CursorParameters(cursor.value), cursors + {cursor.value});
      var later := PagesFrom(
        s', deadline, operation, field, longer, CursorParameters(cursor.value), cursors + {cursor.value}).2;
      FollowsStep(exchange, later, field, cursors, cursor.value);
      EntriesBehind(exchange, later, field, entries);
    } else {
      FollowsAlone(exchange, field, cursors);
    }
  }

  // ---------------------------------------------------------------------
  // The same, by the members of the replies
  // ---------------------------------------------------------------------

  /** The page has these entries: an array under the field, of objects unless tools
      are listed. */
  predicate HasPage(exchange: Exchange, field: string, items: seq<Json>) {
    && exchange.reply.Got? && exchange.reply.outcome.Value?
    && exchange.reply.outcome.result.Get(field) == Some(Arr(items))
    && (field != "tools" ==> forall entry :: entry in items ==> entry.Obj?)
  }

  /** The answer hands out a cursor. */
  predicate HandsOut(exchange: Exchange, cursor: string) {
    && exchange.reply.Got? && exchange.reply.outcome.Value?
    && exchange.reply.outcome.result.Get("nextCursor") == Some(Str(cursor))
  }

  predicate NoCursor(exchange: Exchange) {
    && exchange.reply.Got? && exchange.reply.outcome.Value?
    && exchange.reply.outcome.result.Get("nextCursor").None?
  }

  ghost predicate GoodPage(exchange: Exchange, field: string) {
    exists items :: HasPage(exchange, field, items)
  }

  /** The requests of the trace were made, one after the other, and answered so. */
  ghost predicate Performs(s: Session, deadline: nat, operation: string, trace: seq<Exchange>, s': Session)
    decreases |trace|
  {
    if trace == [] then s' == s
    else
      var (next, reply) := RequestStep(s, deadline, operation, trace[0].params);
      reply == trace[0].reply && Performs(next, deadline, operation, trace[1..], s')
  }

  /** How the last exchange ends the listing, but for a repeated cursor. */
  ghost predicate Ends(last: Exchange, field: string, result: Result<seq<Json>, PageError>) {
    && (result == Err(RequestFailed) <==> !(last.reply.Got? && last.reply.outcome.Value?))
    && (result == Err(BadPage) <==>
          last.reply.Got? && last.reply.outcome.Value? && !GoodPage(last, field))
    && (result.Ok? <==> GoodPage(last, field) && NoCursor(last))
    && (result == Err(BadCursor) <==>
          GoodPage(last, field) && !NoCursor(last) && forall cursor :: !HandsOut(last, cursor))
  }

  lemma PageByMembers(exchange: Exchange, field: string)
    ensures Answered(exchange, field) <==> GoodPage(exchange, field)
    ensures forall items :: HasPage(exchange, field, items) ==>
      PageOf(exchange.reply.outcome.result, field) == Some(items)
    ensures forall cursor :: CursorOf(exchange, field) == Some(cursor) <==>
      GoodPage(exchange, field) && HandsOut(exchange, cursor)
  {
    if Answered(exchange, field) {
      assert HasPage(exchange, field, exchange.reply.outcome.result.Get(field).value.items);
    }
  }

  lemma {:induction false} PagesArePerformed(
      s: Session, deadline: nat, operation: string, field: string,
      entries: seq<Json>, params: Json, cursors: set<string>)
    ensures var (s', result, trace) := PagesFrom(s, deadline, operation, field, entries, params, cursors);
      && trace != [] && trace[0].params == params
      && Performs(s, deadline, operation, trace, s')
      && Ends(trace[|trace| - 1], field, result)
    decreases |s.link.inbox|
  {
    var (s', reply) := RequestStep(s, deadline, operation, params);
    var exchange := Exchange(params, reply);
    var trace := PagesFrom(s, deadline, operation, field, entries, params, cursors).2;
    PageByMembers(exchange, field);
    var cursor := CursorOf(exchange, field);
    if cursor.Some? && cursor.value !in cursors {
      var longer := entries + PageOf(reply.outcome.result, field).value;
      AnsweredRequestConsumes(s, deadline, operation, params);
      PagesArePerformed(
        s', deadline, operation, field, longer, CursorParameters(cursor.value), cursors + {cursor.value});
      assert trace[1..] == PagesFrom(
        s', deadline, operation, field, longer, CursorParameters(cursor.value), cursors + {cursor.value}).2;
      assert trace[|trace| - 1] == trace[1..][|trace| - 2];
    } else {
      assert trace == [exchange];
    }
  }

  function Concat<T>(parts: seq<seq<T>>): seq<T> {
    if parts == [] then [] else parts[0] + Concat(parts[1..])
  }

  /** Every page of the trace has its entries, which together are the listing. */
  ghost predicate Lists(trace: seq<Exchange>, field: string, pages: seq<seq<Json>>, entries: seq<Json>) {
    && |pages| == |trace| && Concat(pages) == entries
    && forall k :: 0 <= k < |trace| ==> HasPage(trace[k], field, pages[k])
  }

  lemma {:induction false} AllEntriesAreListed(trace: seq<Exchange>, field: string) returns (pages: seq<seq<Json>>)
    requires forall k :: 0 <= k < |trace| ==> GoodPage(trace[k], field)
    ensures Lists(trace, field, pages, AllEntries(trace, field))
  {
    if trace == [] {
      pages := [];
    } else {
      PageByMembers(trace[0], field);
      var later := AllEntriesAreListed(trace[1..], field);
      var items :| HasPage(trace[0], field, items);
      pages := [items] + later;
      assert pages[1..] == later;
      forall k | 0 <= k < |trace|
        ensures HasPage(trace[k], field, pages[k])
      {
        if k > 0 { assert trace[k] == trace[1..][k - 1]; }
      }
    }
  }

  /** Every page but perhaps the last is good, and the request after it asks for the
      cursor that it handed out; those cursors are all different. */
  ghost predicate Chained(trace: seq<Exchange>, field: string) {
    && trace != [] && trace[0].params == Obj(map[])
    && (forall k :: 0 <= k < |trace| - 1 ==> GoodPage(trace[k], field) && Continues(trace[k], trace[k + 1].params))
    && (forall i, j, cursor :: 0 <= i < j < |trace| - 1 ==>
          !(HandsOut(trace[i], cursor) && HandsOut(trace[j], cursor)))
  }

  ghost predicate Continues(exchange: Exchange, params: Json) {
    exists cursor :: HandsOut(exchange, cursor) && params == Obj(map["cursor" := Str(cursor)])
  }

  /** The last page is good and hands out a cursor that an earlier one handed out. */
  ghost predicate HandsOutAgain(trace: seq<Exchange>, field: string)
    requires trace != []
  {
    GoodPage(trace[|trace| - 1], field) &&
    exists k, cursor :: 0 <= k < |trace| - 1 && HandsOut(trace[k], cursor) && HandsOut(trace[|trace| - 1], cursor)
  }

  lemma FollowsByMembers(trace: seq<Exchange>, field: string)
    requires Follows(trace, field, EMPTY_OBJECT, {})
    ensures Chained(trace, field)
    ensures Repeats(trace, field, {}) <==> HandsOutAgain(trace, field)
  {
    forall k | 0 <= k < |trace|
      ensures Answered(trace[k], field) <==> GoodPage(trace[k], field)
      ensures forall cursor :: CursorOf(trace[k], field) == Some(cursor) <==>
        GoodPage(trace[k], field) && HandsOut(trace[k], cursor)
    {
      PageByMembers(trace[k], field);
    }
    forall k | 0 <= k < |trace| - 1
      ensures GoodPage(trace[k], field) && Continues(trace[k], trace[k + 1].params)
    {
      var cursor := CursorOf(trace[k], field).value;
      assert CursorOf(trace[k], field) == Some(cursor);
    }
    if Repeats(trace, field, {}) {
      var last := CursorOf(trace[|trace| - 1], field);
      var k :| 0 <= k < |trace| - 1 && CursorOf(trace[k], field) == last;
      assert HandsOut(trace[k], last.value) && HandsOut(trace[|trace| - 1], last.value);
    }
    if HandsOutAgain(trace, field) {
      var k, cursor :|
        0 <= k < |trace| - 1 && HandsOut(trace[k], cursor) && HandsOut(trace[|trace| - 1], cursor);
      assert CursorOf(trace[k], field) == Some(cursor);
      assert CursorOf(trace[|trace| - 1], field) == Some(cursor);
    }
  }

  /** A listing makes its requests in order, the first without a cursor and each
      other with the one the page before handed out, all of them different. It
      succeeds exactly if the last page is good and hands out none, with the entries
      of all pages in order; a request that fails, a page without its array, a
      cursor that is no text and one handed out before each end it as such. */
  lemma ListingIsComplete(s: Session, deadline: nat, operation: string, field: string)
    ensures var (s', result, trace) := Pages(s, deadline, operation, field);
      && Performs(s, deadline, operation, trace, s')
      && Chained(trace, field)
      && Ends(trace[|trace| - 1], field, result)
      && (result == Err(RepeatedCursor) <==> HandsOutAgain(trace, field))
      && (result.Ok? ==> exists pages :: Lists(trace, field, pages, result.value))
  {
    PagesFollow(s, deadline, operation, field, [], EMPTY_OBJECT, {});
    PagesArePerformed(s, deadline, operation, field, [], EMPTY_OBJECT, {});
    var (s', result, trace) := Pages(s, deadline, operation, field);
    FollowsByMembers(trace, field);
    if result.Ok? {
      var pages := AllEntriesAreListed(trace, field);
      assert Lists(trace, field, pages, result.value);
    }
  }

  /** Against a server that draws its cursors from a finite set, a listing makes
      at most one request more than there are cursors. */
  lemma ListingIsBounded(s: Session, deadline: nat, operation: string, field: string, known: set<string>)
    requires var trace := Pages(s, deadline, operation, field).2;
      forall k, cursor :: 0 <= k < |trace| && GoodPage(trace[k], field) && HandsOut(trace[k], cursor) ==>
        cursor in known
    ensures |Pages(s, deadline, operation, field).2| <= |known| + 1
  {
    PagesFollow(s, deadline, operation, field, [], EMPTY_OBJECT, {});
    var trace := Pages(s, deadline, operation, field).2;
    forall k | 0 <= k < |trace| && CursorOf(trace[k], field).Some?
      ensures CursorOf(trace[k], field).value in known
    {
      PageByMembers(trace[k], field);
      assert CursorOf(trace[k], field) == Some(CursorOf(trace[k], field).value);
    }
    DistinctCursorsFit(trace, field, known, |trace| - 1);
  }

  /** Distinct cursors from a set are no more than the set holds. */
  lemma {:induction false} DistinctCursorsFit(trace: seq<Exchange>, field: string, known: set<string>, count: nat)
    requires count < |trace|
    requires forall k :: 0 <= k < count ==>
      CursorOf(trace[k], field).Some? && CursorOf(trace[k], field).value in known
    requires forall i, j :: 0 <= i < j < count ==> CursorOf(trace[i], field) != CursorOf(trace[j], field)
    ensures count <= |known|
  {
    if count > 0 {
      var last := CursorOf(trace[count - 1], field).value;
      forall k | 0 <= k < count - 1
        ensures CursorOf(trace[k], field).value in known - {last}
      {
        assert CursorOf(trace[k], field) != CursorOf(trace[count - 1], field);
      }
      DistinctCursorsFit(trace, field, known - {last}, count - 1);
      assert known == (known - {last}) + {last};
    }
  }
}
