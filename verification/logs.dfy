/**
 The CloudWatch Logs tools of fluffys/main.py: `list_log_streams`, which
 scans the streams of each log group (newest first) for those whose last
 event falls in a time window, and `query_log_streams`, which collects the
 messages matching a pattern over the pages of a filtered event search.

 Times are milliseconds since the epoch; an omitted time argument is `None`
 (the ISO parsing that produces the milliseconds is not modelled). The remote
 listings are parameters: the pages of streams of a group, and the replies
 of the event search in the order the loop receives them.
 */
module Logs {
  import opened Common

  datatype LogStream = LogStream(name: string, lastEventTimestamp: Option<int>)

  /** The stream pages of one group, or the not-found error of the paginator. */
  datatype StreamListing = StreamPages(pages: seq<seq<LogStream>>) | GroupNotFound

  /** The time arguments as the tools see them; `None` when omitted. */
  datatype Window = Window(startMs: Option<int>, endMs: Option<int>)

  /**
   What the scan does with one stream: keep it, leave the page (it is older
   than the window), pass over it, or fail because the comparison reads a
   time argument that was never assigned (Python's `UnboundLocalError`).
   */
  datatype Step = Keep | Leave | Pass | Unbound

  /**
   The test on one stream. The chained comparison `start <= ts <= end` reads
   `end` only when `start <= ts` holds; the `elif` reads `start` again.
   A stream without a timestamp is passed over.
   */
  function Classify(s: LogStream, w: Window): Step
  {
    if s.lastEventTimestamp.None? then Pass
    else
      var ts := s.lastEventTimestamp.value;
      if w.startMs.None? then Unbound
      else if w.startMs.value <= ts then
        if w.endMs.None? then Unbound
        else if ts <= w.endMs.value then Keep
        else Pass
      else Leave
  }

  /** A stream whose last event lies in the closed window. */
  predicate InWindow(s: LogStream, lo: int, hi: int)
  {
    s.lastEventTimestamp.Some? && lo <= s.lastEventTimestamp.value <= hi
  }

  /** A stream whose last event is older than the window. */
  predicate Older(s: LogStream, lo: int)
  {
    s.lastEventTimestamp.Some? && s.lastEventTimestamp.value < lo
  }

  /** The inner loop over one page: the kept streams in page order, or `None` on the unassigned read. */
  function ScanPage(page: seq<LogStream>, w: Window): Option<seq<LogStream>>
  {
    if |page| == 0 then Some([])
    else
      match Classify(page[0], w)
      case Unbound => None
      case Leave => Some([])
      case Pass => ScanPage(page[1..], w)
      case Keep =>
        match ScanPage(page[1..], w)
        case None => None
        case Some(rest) => Some([page[0]] + rest)
  }

  /** A scan result with `kept` in front of it. */
  function After(kept: seq<LogStream>, o: Option<seq<LogStream>>): Option<seq<LogStream>>
  {
    if o.Some? then Some(kept + o.value) else None
  }

  /** One step of the inner loop, read off the page scan from position `i`. */
  lemma ScanPageAt(page: seq<LogStream>, i: nat, w: Window)
    requires i < |page|
    ensures Classify(page[i], w) == Unbound ==> ScanPage(page[i..], w) == None
    ensures Classify(page[i], w) == Leave ==> ScanPage(page[i..], w) == Some([])
    ensures Classify(page[i], w) == Pass ==> ScanPage(page[i..], w) == ScanPage(page[i + 1..], w)
    ensures Classify(page[i], w) == Keep ==> ScanPage(page[i..], w) == After([page[i]], ScanPage(page[i + 1..], w))
  {
    assert page[i..][0] == page[i] && page[i..][1..] == page[i + 1..];
  }

  /** Where the inner loop stops: at the first stream older than the window, or at the page's end. */
  function Cut(page: seq<LogStream>, lo: int): (n: nat)
    ensures n <= |page|
    ensures forall k :: 0 <= k < n ==> !Older(page[k], lo)
    ensures n < |page| ==> Older(page[n], lo)
  {
    if |page| == 0 then 0
    else if Older(page[0], lo) then 0
    else 1 + Cut(page[1..], lo)
  }

  function InWindowOf(lo: int, hi: int): LogStream -> bool
  {
    s => InWindow(s, lo, hi)
  }

  /**
   With both ends given, a page scan never fails and keeps exactly the
   in-window streams that come before the first stream older than the window.
   */
  lemma {:induction false} ScanPageSelects(page: seq<LogStream>, lo: int, hi: int)
    ensures ScanPage(page, Window(Some(lo), Some(hi))) == Some(Select(page[..Cut(page, lo)], InWindowOf(lo, hi)))
    decreases |page|
  {
    var keep := InWindowOf(lo, hi);
    if |page| == 0 || Older(page[0], lo) {
      assert page[..Cut(page, lo)] == [];
    } else {
      var w := Window(Some(lo), Some(hi));
      var tail := page[1..];
      ScanPageSelects(tail, lo, hi);
      ScanPageAt(page, 0, w);
      assert page[0..] == page;
      assert Classify(page[0], w) == if InWindow(page[0], lo, hi) then Keep else Pass;
      assert keep(page[0]) == InWindow(page[0], lo, hi);
      assert page[..Cut(page, lo)] == [page[0]] + tail[..Cut(tail, lo)];
      SelectAppend([page[0]], tail[..Cut(tail, lo)], keep);
      SelectOne(page[0], keep);
      var rest := Select(tail[..Cut(tail, lo)], keep);
      if InWindow(page[0], lo, hi) {
        assert ScanPage(page, w) == Some([page[0]] + rest);
      } else {
        assert ScanPage(page, w) == Some(rest);
        assert [] + rest == rest;
      }
    }
  }

  /**
   The pages loop of one group: pages are scanned until one of them kept a
   stream; the streams of that page are the group's streams, and no page
   keeps any when none matched. `None` is the unassigned read.
   */
  function GroupScan(pages: seq<seq<LogStream>>, w: Window): Option<seq<LogStream>>
  {
    if |pages| == 0 then Some([])
    else
      match ScanPage(pages[0], w)
      case None => None
      case Some(kept) => if |kept| > 0 then Some(kept) else GroupScan(pages[1..], w)
  }

  /** The pages loop as the source writes it, with the `found` flag and the two `break`s. */
  method ScanGroup(pages: seq<seq<LogStream>>, w: Window) returns (streams: Option<seq<LogStream>>)
    ensures streams == GroupScan(pages, w)
  {
    var acc: seq<LogStream> := [];
    var found := false;
    var p := 0;
    while p < |pages| && !found
      invariant 0 <= p <= |pages|
      invariant found ==> |acc| > 0 && GroupScan(pages, w) == Some(acc)
      invariant !found ==> acc == [] && GroupScan(pages, w) == GroupScan(pages[p..], w)
      decreases |pages| - p, if found then 0 else 1
    {
      var page := pages[p];
      assert pages[p..][0] == page && pages[p..][1..] == pages[p + 1..];
      var i := 0;
      var kept: seq<LogStream> := [];
      var stop := false;
      assert page[0..] == page;
      assert ScanPage(page, w).Some? ==> [] + ScanPage(page, w).value == ScanPage(page, w).value;
      while i < |page| && !stop
        invariant 0 <= i <= |page|
        invariant !stop ==> ScanPage(page, w) == After(kept, ScanPage(page[i..], w))
        invariant stop ==> ScanPage(page, w) == Some(kept)
        decreases |page| - i, if stop then 0 else 1
      {
        ScanPageAt(page, i, w);
        var o := ScanPage(page[i + 1..], w);
        match Classify(page[i], w) {
          case Unbound =>
            return None;
          case Leave =>
            assert kept + [] == kept;
            stop := true;
          case Pass =>
            i := i + 1;
          case Keep =>
            assert o.Some? ==> kept + ([page[i]] + o.value) == (kept + [page[i]]) + o.value;
            kept := kept + [page[i]];
            i := i + 1;
        }
      }
      if !stop {
        assert page[i..] == [];
        assert kept + [] == kept;
      }
      if |kept| > 0 {
        acc := kept;
        found := true;
      }
      p := p + 1;
    }
    if !found {
      assert pages[p..] == [];
    }
    return Some(acc);
  }

  /** The streams one page keeps when both ends are given: the in-window ones before the first older stream. */
  function PageSelection(page: seq<LogStream>, lo: int, hi: int): seq<LogStream>
  {
    Select(page[..Cut(page, lo)], InWindowOf(lo, hi))
  }

  /**
   With both ends given, a group's streams all lie in the window; they are
   empty exactly when no page keeps a stream, and otherwise they are what the
   first page that keeps any keeps.
   */
  lemma {:induction false} GroupScanInWindow(pages: seq<seq<LogStream>>, lo: int, hi: int)
    ensures GroupScan(pages, Window(Some(lo), Some(hi))).Some?
    ensures var streams := GroupScan(pages, Window(Some(lo), Some(hi))).value;
      && (forall k :: 0 <= k < |streams| ==> InWindow(streams[k], lo, hi))
      && (streams == [] <==> forall p :: 0 <= p < |pages| ==> PageSelection(pages[p], lo, hi) == [])
      && (streams != [] ==>
            exists p :: 0 <= p < |pages| && streams == PageSelection(pages[p], lo, hi) &&
              (forall q :: 0 <= q < p ==> PageSelection(pages[q], lo, hi) == []))
    decreases |pages|
  {
    if |pages| > 0 {
      var first := PageSelection(pages[0], lo, hi);
      ScanPageSelects(pages[0], lo, hi);
      SelectMembers(pages[0][..Cut(pages[0], lo)], InWindowOf(lo, hi));
      GroupScanInWindow(pages[1..], lo, hi);
      var streams := GroupScan(pages, Window(Some(lo), Some(hi))).value;
      forall p | 0 < p < |pages| ensures pages[p] == pages[1..][p - 1] {
      }
      if first != [] {
        assert streams == first;
      } else {
        assert streams == GroupScan(pages[1..], Window(Some(lo), Some(hi))).value;
        if streams != [] {
          var p :| 0 <= p < |pages[1..]| && streams == PageSelection(pages[1..][p], lo, hi) &&
            (forall q :: 0 <= q < p ==> PageSelection(pages[1..][q], lo, hi) == []);
          assert streams == PageSelection(pages[p + 1], lo, hi);
          forall q | 0 <= q < p + 1 ensures PageSelection(pages[q], lo, hi) == [] {
            if q > 0 {
              assert PageSelection(pages[1..][q - 1], lo, hi) == [];
            }
          }
        }
      }
    }
  }

  /** The result entry of one group: its streams, or none when the group does not exist. */
  function GroupEntry(listing: StreamListing, w: Window): Option<seq<LogStream>>
  {
    match listing
    case GroupNotFound => Some([])
    case StreamPages(pages) => GroupScan(pages, w)
  }

  /** Whether every group's scan gets through without the unassigned read. */
  predicate AllScanned(groups: seq<string>, listings: string -> StreamListing, w: Window)
  {
    forall k :: 0 <= k < |groups| ==> GroupEntry(listings(groups[k]), w).Some?
  }

  /**
   `list_log_streams`: one entry per requested group. The unassigned read in
   any group makes the whole tool fail (`None`); otherwise every group maps
   to its scan, and a group that does not exist maps to the empty list.
   */
  method ListLogStreams(groups: seq<string>, listings: string -> StreamListing, w: Window)
    returns (result: Option<map<string, seq<LogStream>>>)
    ensures result.Some? <==> AllScanned(groups, listings, w)
    ensures result.Some? ==>
      && result.value.Keys == set g | g in groups
      && forall g :: g in result.value ==> Some(result.value[g]) == GroupEntry(listings(g), w)
  {
    var m: map<string, seq<LogStream>> := map[];
    var i := 0;
    while i < |groups|
      invariant 0 <= i <= |groups|
      invariant AllScanned(groups[..i], listings, w)
      invariant m.Keys == set g | g in groups[..i]
      invariant forall g :: g in m ==> Some(m[g]) == GroupEntry(listings(g), w)
    {
      var group := groups[i];
      var streams: Option<seq<LogStream>>;
      match listings(group) {
        case GroupNotFound =>
          streams := Some([]);
        case StreamPages(pages) =>
          streams := ScanGroup(pages, w);
      }
      if streams.None? {
        return None;
      }
      m := m[group := streams.value];
      assert groups[..i + 1] == groups[..i] + [group];
      i := i + 1;
    }
    assert groups[..i] == groups;
    return Some(m);
  }

  /** With both ends given, the tool never fails and every listed stream lies in the window. */
  lemma ListingWithWindowSucceeds(groups: seq<string>, listings: string -> StreamListing, lo: int, hi: int)
    ensures AllScanned(groups, listings, Window(Some(lo), Some(hi)))
    ensures forall g :: g in groups ==>
      var e := GroupEntry(listings(g), Window(Some(lo), Some(hi)));
      e.Some? && forall k :: 0 <= k < |e.value| ==> InWindow(e.value[k], lo, hi)
  {
    forall g | g in groups
      ensures var e := GroupEntry(listings(g), Window(Some(lo), Some(hi)));
        e.Some? && forall k :: 0 <= k < |e.value| ==> InWindow(e.value[k], lo, hi)
    {
      if listings(g).StreamPages? {
        GroupScanInWindow(listings(g).pages, lo, hi);
      }
    }
  }

  /**
   Without a start time, any existing group whose first page begins with a
   timestamped stream makes the tool fail, although the start time is
   documented as optional with a default of 24 hours ago.
   */
  lemma OmittedStartFails(groups: seq<string>, listings: string -> StreamListing, endMs: Option<int>, g: string)
    requires g in groups
    requires listings(g).StreamPages? && |listings(g).pages| > 0
    requires |listings(g).pages[0]| > 0 && listings(g).pages[0][0].lastEventTimestamp.Some?
    ensures !AllScanned(groups, listings, Window(None, endMs))
  {
    var k :| 0 <= k < |groups| && groups[k] == g;
  }

  const DayMs := 24 * 60 * 60 * 1000

  /** The documented defaults: the start 24 hours before `nowMs`, the end at `nowMs`. */
  function WithDefaults(w: Window, nowMs: int): (d: Window)
    ensures d.startMs.Some? && d.endMs.Some?
    ensures w.startMs.Some? ==> d.startMs == w.startMs
    ensures w.endMs.Some? ==> d.endMs == w.endMs
    ensures w.startMs.None? ==> d.startMs.value == nowMs - DayMs
    ensures w.endMs.None? ==> d.endMs.value == nowMs
  {
    Window(Some(if w.startMs.Some? then w.startMs.value else nowMs - DayMs),
           Some(if w.endMs.Some? then w.endMs.value else nowMs))
  }

  /**
   `list_log_streams` with the documented defaults filled in before the scan:
   it never fails, and each group maps to its in-window streams.
   */
  method ListLogStreamsWithDefaults(groups: seq<string>, listings: string -> StreamListing, w: Window, nowMs: int)
    returns (result: map<string, seq<LogStream>>)
    ensures result.Keys == set g | g in groups
    ensures forall g :: g in result ==>
      var d := WithDefaults(w, nowMs);
      Some(result[g]) == GroupEntry(listings(g), d) &&
      forall k :: 0 <= k < |result[g]| ==> InWindow(result[g][k], d.startMs.value, d.endMs.value)
  {
    var d := WithDefaults(w, nowMs);
    ListingWithWindowSucceeds(groups, listings, d.startMs.value, d.endMs.value);
    var r := ListLogStreams(groups, listings, d);
    result := r.value;
  }

  // ---------------------------------------------------------------------------
  // query_log_streams

  /** One `filter_log_events` request. */
  datatype FilterRequest = FilterRequest(
    logGroupName: string,
    logStreamNames: Option<seq<string>>,
    startMs: int,
    endMs: int,
    filterPattern: string,
    nextToken: Option<string>,
    limit: int)

  /** One event of a reply; its message may be missing. */
  datatype LogEvent = LogEvent(message: Option<string>)

  /** One reply of the event search, or the exception it raised. */
  datatype LogReply = EventsPage(events: seq<LogEvent>, nextToken: Option<string>) | EventsRaised(message: string)

  const EventLimit := 10000

  /** The pattern sent to the search: the search text between two `%`. */
  function PatternFor(search: string): (p: string)
    ensures |p| == |search| + 2 && p[0] == '%' && p[|p| - 1] == '%' && p[1..|p| - 1] == search
  {
    "%" + search + "%"
  }

  /**
   The `k`-th request of a group's search. The first one names no streams
   and carries no token; each later one names the given streams and carries
   the token of the reply before it.
   */
  function RequestAt(group: string, search: string, streamNames: seq<string>, startMs: int, endMs: int,
                     replies: seq<LogReply>, k: nat): (req: FilterRequest)
    requires k < |replies|
    requires k > 0 ==> replies[k - 1].EventsPage? && replies[k - 1].nextToken.Some?
    ensures req.logGroupName == group && req.startMs == startMs && req.endMs == endMs
    ensures req.filterPattern == PatternFor(search) && req.limit == EventLimit
    ensures k == 0 ==> req.logStreamNames.None? && req.nextToken.None?
    ensures k > 0 ==> req.logStreamNames == Some(streamNames) && req.nextToken == replies[k - 1].nextToken
  {
    if k == 0 then FilterRequest(group, None, startMs, endMs, PatternFor(search), None, EventLimit)
    else FilterRequest(group, Some(streamNames), startMs, endMs, PatternFor(search), replies[k - 1].nextToken, EventLimit)
  }

  /** Reply `k` ends the search: it raised, or it carries no token. */
  predicate EndsSearch(r: LogReply)
  {
    r.EventsRaised? || r.nextToken.None?
  }

  /** Every reply before `n` asks for another page. */
  predicate Continues(replies: seq<LogReply>, n: int)
    requires 0 <= n <= |replies|
  {
    forall k :: 0 <= k < n ==> !EndsSearch(replies[k])
  }

  /** The message the tool keeps of an event: its text, or `""` when missing. */
  function MessageOf(e: LogEvent): string
  {
    if e.message.Some? then e.message.value else ""
  }

  /** The messages of a run of pages, in page order and event order. */
  function Messages(replies: seq<LogReply>): seq<string>
    requires forall k :: 0 <= k < |replies| ==> replies[k].EventsPage?
  {
    if |replies| == 0 then []
    else
      var last := replies[|replies| - 1];
      Messages(replies[..|replies| - 1]) + seq(|last.events|, j requires 0 <= j < |last.events| => MessageOf(last.events[j]))
  }

  /** The first reply that ends the search. */
  function FirstEnd(replies: seq<LogReply>): (n: nat)
    requires exists n :: 0 <= n < |replies| && EndsSearch(replies[n])
    ensures n < |replies| && EndsSearch(replies[n]) && Continues(replies, n)
  {
    FirstFrom(replies, EndsSearch, 0)
  }

  /**
   The search of one group, reply by reply while a token comes back: `None`
   when a reply raised, otherwise the messages of every page up to the one
   without a token.
   */
  function SearchMessages(replies: seq<LogReply>): Option<seq<string>>
    requires exists n :: 0 <= n < |replies| && EndsSearch(replies[n])
  {
    var n := FirstEnd(replies);
    if replies[n].EventsRaised? then None else Some(Messages(replies[..n + 1]))
  }

  /** The search loop of one group as the source writes it, with `while "nextToken" in response`. */
  method QueryGroup(replies: seq<LogReply>) returns (messages: Option<seq<string>>)
    requires exists n :: 0 <= n < |replies| && EndsSearch(replies[n])
    ensures messages == SearchMessages(replies)
  {
    var i := 0;
    var acc: seq<string> := [];
    while !EndsSearch(replies[i])
      invariant 0 <= i <= FirstEnd(replies)
      invariant forall k :: 0 <= k < i ==> replies[..i][k].EventsPage?
      invariant acc == Messages(replies[..i])
      decreases FirstEnd(replies) - i
    {
      var page := replies[i];
      assert replies[..i + 1][..i] == replies[..i];
      acc := acc + seq(|page.events|, j requires 0 <= j < |page.events| => MessageOf(page.events[j]));
      i := i + 1;
    }
    match replies[i] {
      case EventsRaised(_) =>
        messages := None;
      case EventsPage(events, _) =>
        assert replies[..i + 1][..i] == replies[..i];
        messages := Some(acc + seq(|events|, j requires 0 <= j < |events| => MessageOf(events[j])));
    }
  }

  /** The search of every group that gets as far as its first request ends. */
  predicate SearchesEnd(groups: seq<string>, replies: string -> seq<LogReply>)
  {
    forall g :: g in groups ==> exists n :: 0 <= n < |replies(g)| && EndsSearch(replies(g)[n])
  }

  /**
   What one group contributes: nothing when the existence probe fails or a
   time argument is missing (the request then reads an unassigned variable
   and the broad handler drops the group), otherwise its search.
   */
  function GroupMessages(g: string, w: Window, probe: string -> bool, replies: string -> seq<LogReply>): Option<seq<string>>
    requires exists n :: 0 <= n < |replies(g)| && EndsSearch(replies(g)[n])
  {
    if !probe(g) || w.startMs.None? || w.endMs.None? then None else SearchMessages(replies(g))
  }

  /**
   `query_log_streams`: a group appears in the result exactly when its
   search went through and found at least one event, and then maps to the
   messages found, in order.
   */
  method QueryLogStreams(groups: seq<string>, w: Window, probe: string -> bool, replies: string -> seq<LogReply>)
    returns (results: map<string, seq<string>>)
    requires SearchesEnd(groups, replies)
    ensures forall g :: g in results <==>
      g in groups && GroupMessages(g, w, probe, replies).Some? && |GroupMessages(g, w, probe, replies).value| > 0
    ensures forall g :: g in results ==> Some(results[g]) == GroupMessages(g, w, probe, replies)
  {
    results := map[];
    var i := 0;
    while i < |groups|
      invariant 0 <= i <= |groups|
      invariant forall g :: g in results <==>
        g in groups[..i] && g in groups && GroupMessages(g, w, probe, replies).Some? && |GroupMessages(g, w, probe, replies).value| > 0
      invariant forall g :: g in results ==> Some(results[g]) == GroupMessages(g, w, probe, replies)
    {
      var group := groups[i];
      assert groups[..i + 1] == groups[..i] + [group];
      if probe(group) && w.startMs.Some? && w.endMs.Some? {
        var messages := QueryGroup(replies(group));
        if messages.Some? && |messages.value| > 0 {
          results := results[group := messages.value];
        }
      }
      i := i + 1;
    }
    assert groups[..i] == groups;
  }

  /** Without both time arguments the tool finds nothing in any group. */
  lemma QueryWithoutWindowIsEmpty(g: string, w: Window, probe: string -> bool, replies: string -> seq<LogReply>)
    requires w.startMs.None? || w.endMs.None?
    requires exists n :: 0 <= n < |replies(g)| && EndsSearch(replies(g)[n])
    ensures GroupMessages(g, w, probe, replies).None?
  {
  }
}
