/** Reading the account's event log page by page. */
module DeltaSync {
  import opened Base
  import opened ServerCatalog
  import opened CatalogInvariants

  const DEFAULT_LIMIT := 100
  const MAX_LIMIT := 500

  function Limit(requested: int): (n: nat)
    ensures 1 <= n <= MAX_LIMIT
  {
    if requested <= 0 || requested > MAX_LIMIT then DEFAULT_LIMIT else requested
  }

  /** The events after a cursor, in log order. */
  function Later(log: seq<Event>, since: int): seq<Event> {
    if log == [] then []
    else
      var e := log[|log| - 1];
      Later(log[..|log| - 1], since) + (if e.seq_ > since then [e] else [])
  }

  function Take(s: seq<Event>, n: nat): seq<Event> {
    if |s| <= n then s else s[..n]
  }

  function Page(log: seq<Event>, since: int, limit: int): seq<Event> {
    Take(Later(log, since), Limit(limit))
  }

  datatype Response = Response(events: seq<Event>, hasMore: bool, latest: int)

  /** The page is read from `log`; the latest number afterwards, when the log is `later`. */
  predicate HasMore(page: seq<Event>, limit: int, latest: int) {
    |page| > 0 && |page| == Limit(limit) && page[|page| - 1].seq_ < latest
  }

  function Respond(log: seq<Event>, later: seq<Event>, since: int, limit: int): Response {
    var page := Page(log, since, limit);
    Response(page, HasMore(page, limit, MaxSeq(later)), MaxSeq(later))
  }

  /** Where a client's cursor stands after a page. */
  function Advance(since: int, page: seq<Event>): int {
    if page == [] then since else page[|page| - 1].seq_
  }

  // ---- The log ----

  class EventLog {
    var events: seq<Event>

    ghost predicate Valid()
      reads this
    {
      Numbered(events)
    }

    constructor ()
      ensures Valid() && events == []
    {
      events := [];
    }

    /** COALESCE(MAX(seq), 0). */
    method GetLatestSeq() returns (latest: int)
      ensures latest == MaxSeq(events)
      ensures Valid() ==> latest == |events|
    {
      latest := 0;
      var i := 0;
      while i < |events|
        invariant 0 <= i <= |events| && latest == MaxSeq(events[..i])
      {
        assert events[..i + 1][..i] == events[..i];
        if events[i].seq_ > latest {
          latest := events[i].seq_;
        }
        i := i + 1;
      }
      assert events[..i] == events;
      if Valid() {
        MaxSeqIsLength(events);
      }
    }

    /** The event gets the next number, in the transaction of the change it reports. */
    method PublishEventTx(kind: EventKind, entity: EntryKey, version: nat) returns (e: Event)
      requires Valid()
      modifies this
      ensures Valid() && events == old(events) + [e] == AppendEvent(old(events), kind, entity, version)
      ensures e == Event(|old(events)| + 1, kind, entity, version)
    {
      var latest := GetLatestSeq();
      e := Event(latest + 1, kind, entity, version);
      events := events + [e];
    }

    /** WHERE seq > since ORDER BY seq LIMIT limit. */
    method GetEvents(since: int, limit: int) returns (page: seq<Event>)
      requires Valid()
      ensures page == Page(events, since, limit)
    {
      var n := if limit <= 0 || limit > 500 then 100 else limit;
      page := [];
      var i := 0;
      while i < |events| && |page| < n
        invariant 0 <= i <= |events| && |page| <= n
        invariant page == Later(events[..i], since)
      {
        assert events[..i + 1][..i] == events[..i];
        if events[i].seq_ > since {
          page := page + [events[i]];
        }
        i := i + 1;
      }
      LaterPrefix(events, since, i);
      assert events[..|events|] == events;
    }

    method DeltaSync(since: int, limit: int) returns (r: Response)
      requires Valid()
      ensures r == Respond(events, events, since, limit)
      ensures r.hasMore <==> Later(events, Advance(since, r.events)) != []
    {
      var n := if limit <= 0 || limit > 500 then 100 else limit;
      var page := GetEvents(since, n);
      var latest := GetLatestSeq();
      var hasMore := |page| > 0 && |page| == n && page[|page| - 1].seq_ < latest;
      r := Response(page, hasMore, latest);
      HasMoreExact(events, since, limit);
    }
  }

  // ---- Pages ----

  lemma {:induction false} LaterPrefix(log: seq<Event>, since: int, n: nat)
    requires n <= |log|
    ensures Later(log[..n], since) <= Later(log, since)
    decreases |log|
  {
    if n < |log| {
      LaterPrefix(log[..|log| - 1], since, n);
      assert log[..|log| - 1][..n] == log[..n];
    } else {
      assert log[..n] == log;
    }
  }

  /** On a log numbered 1, 2, ... the events after a cursor are a suffix of the log. */
  function Start(log: seq<Event>, since: int): nat {
    if since < 0 then 0 else if since > |log| then |log| else since
  }

  lemma {:induction false} LaterIsSuffix(log: seq<Event>, since: int)
    requires Numbered(log)
    ensures Later(log, since) == log[Start(log, since)..]
  {
    if log != [] {
      LaterIsSuffix(log[..|log| - 1], since);
      SuffixGrows(log, if since < 0 then 0 else since);
    }
  }

  lemma SuffixGrows(log: seq<Event>, from: nat)
    requires log != []
    ensures from < |log| ==> log[from..] == log[..|log| - 1][from..] + [log[|log| - 1]]
    ensures from >= |log| ==> log[|log|..] == [] && log[..|log| - 1][|log| - 1..] == []
  {
  }

  /** A page is the next stretch of the log, and the cursor moves to its end. */
  lemma PageIsStretch(read: seq<Event>, since: int, limit: int)
    requires Numbered(read)
    ensures var page, from := Page(read, since, limit), Start(read, since);
      && from + |page| <= |read| && page == read[from..from + |page|]
      && (page != [] ==> Advance(since, page) == from + |page|)
  {
    LaterIsSuffix(read, since);
  }

  /** The page, on the log itself: its next 1 to 500 events, 100 unless asked otherwise. */
  lemma PageExactly(log: seq<Event>, since: int, limit: int)
    requires Numbered(log)
    ensures var from := if since < 0 then 0 else if since > |log| then |log| else since;
      var n := if 1 <= limit <= 500 then limit else 100;
      Page(log, since, limit) == if from + n <= |log| then log[from..from + n] else log[from..]
  {
    LaterIsSuffix(log, since);
    var from, n := Start(log, since), Limit(limit);
    if from + n <= |log| {
      SliceOfSuffix(log, from, n);
    }
  }

  lemma SliceOfSuffix(log: seq<Event>, from: nat, n: nat)
    requires from + n <= |log|
    ensures log[from..][..n] == log[from..from + n]
  {
  }

  /** The response to a client at cursor `since`. */
  lemma ResponseExactly(log: seq<Event>, since: int, limit: int)
    requires Numbered(log)
    ensures var from := if since < 0 then 0 else if since > |log| then |log| else since;
      var n := if 1 <= limit <= 500 then limit else 100;
      && Respond(log, log, since, limit).events == (if from + n <= |log| then log[from..from + n] else log[from..])
      && (Respond(log, log, since, limit).hasMore <==> from + n < |log|)
      && Respond(log, log, since, limit).latest == |log|
  {
    PageExactly(log, since, limit);
    MaxSeqIsLength(log);
  }

  lemma Split(log: seq<Event>, from: nat, to: nat)
    requires from <= to <= |log|
    ensures log[from..to] + log[to..] == log[from..]
  {
  }

  lemma PrefixNumbered(log: seq<Event>, read: seq<Event>)
    requires Numbered(log) && read <= log
    ensures Numbered(read)
  {
    assert forall i :: 0 <= i < |read| ==> read[i] == log[i];
  }

  /** A page followed by what comes after it is everything after the cursor. */
  lemma PageThenRest(log: seq<Event>, read: seq<Event>, since: int, limit: int)
    requires Numbered(log) && read <= log
    ensures Page(read, since, limit) + Later(log, Advance(since, Page(read, since, limit))) == Later(log, since)
  {
    PrefixNumbered(log, read);
    PageIsStretch(read, since, limit);
    var page, from := Page(read, since, limit), Start(read, since);
    if page == [] {
      assert [] + Later(log, since) == Later(log, since);
    } else {
      StretchThenRest(log, read, since, from + |page|);
    }
  }

  lemma StretchThenRest(log: seq<Event>, read: seq<Event>, since: int, to: nat)
    requires Numbered(log) && read <= log && Start(read, since) < to <= |read|
    ensures read[Start(read, since)..to] + Later(log, to) == Later(log, since)
  {
    LaterIsSuffix(log, since);
    LaterIsSuffix(log, to);
    assert read[Start(read, since)..to] == log[Start(log, since)..to];
    Split(log, Start(log, since), to);
  }

  /** has_more is exact when the log stands still: it says whether anything is left. */
  lemma HasMoreExact(log: seq<Event>, since: int, limit: int)
    requires Numbered(log)
    ensures var r := Respond(log, log, since, limit);
      r.hasMore <==> Later(log, Advance(since, r.events)) != []
  {
    var page := Page(log, since, limit);
    LaterIsSuffix(log, since);
    LaterIsSuffix(log, Advance(since, page));
    MaxSeqIsLength(log);
  }

  /**
   has_more when events are published between reading the page and the latest number: true
   means that something is left, and false that nothing of what the page was read from is.
   */
  lemma HasMoreWhileGrowing(read: seq<Event>, later: seq<Event>, since: int, limit: int)
    requires Numbered(later) && read <= later
    ensures var r := Respond(read, later, since, limit);
      && (r.hasMore ==> Later(later, Advance(since, r.events)) != [])
      && (!r.hasMore ==> Later(read, Advance(since, r.events)) == [])
  {
    PrefixNumbered(later, read);
    var next := Advance(since, Page(read, since, limit));
    PageIsStretch(read, since, limit);
    LaterIsSuffix(read, since);
    LaterIsSuffix(read, next);
    LaterIsSuffix(later, next);
    MaxSeqIsLength(later);
  }

  /** The pages a client gets by following has_more on a log that stands still. */
  function Follow(log: seq<Event>, since: int, limit: int): seq<Event>
    requires Numbered(log)
    decreases |Later(log, since)|
  {
    var r := Respond(log, log, since, limit);
    PageThenRest(log, log, since, limit);
    if r.hasMore then r.events + Follow(log, Advance(since, r.events), limit) else r.events
  }

  /**
   From any cursor, with any page size, following has_more stops and yields exactly the
   events after the cursor, each once and in order.
   */
  lemma {:induction false} FollowIsComplete(log: seq<Event>, since: int, limit: int)
    requires Numbered(log)
    ensures Follow(log, since, limit) == Later(log, since)
    ensures forall e :: e in Follow(log, since, limit) <==> e in log && e.seq_ > since
    ensures var f := Follow(log, since, limit); forall i, j :: 0 <= i < j < |f| ==> f[i].seq_ < f[j].seq_
    decreases |Later(log, since)|
  {
    var r := Respond(log, log, since, limit);
    var next := Advance(since, r.events);
    PageThenRest(log, log, since, limit);
    HasMoreExact(log, since, limit);
    if r.hasMore {
      FollowIsComplete(log, next, limit);
    }
    LaterIsSuffix(log, since);
    forall e | e in log && e.seq_ > since ensures e in log[Start(log, since)..] {
      var i :| 0 <= i < |log| && log[i] == e;
      assert log[Start(log, since)..][i - Start(log, since)] == e;
    }
  }

  // ---- Polling a log that grows ----

  /** One poll: the log it read its page from, and the page size asked for. */
  datatype Poll = Poll(read: seq<Event>, limit: int)

  function Cursor(polls: seq<Poll>, since: int): int {
    if polls == [] then since
    else
      var c, p := Cursor(polls[..|polls| - 1], since), polls[|polls| - 1];
      Advance(c, Page(p.read, c, p.limit))
  }

  function Got(polls: seq<Poll>, since: int): seq<Event> {
    if polls == [] then []
    else
      var p := polls[|polls| - 1];
      Got(polls[..|polls| - 1], since) + Page(p.read, Cursor(polls[..|polls| - 1], since), p.limit)
  }

  lemma PollStep(got: seq<Event>, p: Poll, c: int, log: seq<Event>, all: seq<Event>)
    requires Numbered(log) && p.read <= log && got + Later(log, c) == all
    ensures var page := Page(p.read, c, p.limit); got + page + Later(log, Advance(c, page)) == all
  {
    var page := Page(p.read, c, p.limit);
    var rest := Later(log, Advance(c, page));
    PageThenRest(log, p.read, c, p.limit);
    assert got + page + rest == got + (page + rest);
  }

  /**
   However the log grew between polls and whatever has_more said: what was received and what
   is still to come are together exactly the events after the first cursor.
   */
  lemma {:induction false} NothingLostOrRepeated(polls: seq<Poll>, since: int, log: seq<Event>)
    requires Numbered(log) && forall p <- polls :: p.read <= log
    ensures Got(polls, since) + Later(log, Cursor(polls, since)) == Later(log, since)
    decreases |polls|
  {
    if polls == [] {
      assert [] + Later(log, since) == Later(log, since);
    } else {
      var before, p := polls[..|polls| - 1], polls[|polls| - 1];
      NothingLostOrRepeated(before, since, log);
      PollStep(Got(before, since), p, Cursor(before, since), log, Later(log, since));
    }
  }
}
