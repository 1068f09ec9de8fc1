/**
 The runner inventory of fluffys/main.py (`_get_all_gh_runners`): the pages
 of the organisation's self-hosted runners are fetched one after another,
 following the `next` link of each reply's `Link` header.

 The two regular-expression searches the header parser uses, `<(.+?)>` and
 `rel="(.+?)"`, are modelled as a leftmost search for an opening text
 followed by a lazy, non-empty group of non-line-break characters up to the
 first closing character. The HTTP replies are given in the order the loop
 receives them; the access token is the environment value, `""` when unset.
 */
module GitHub {
  import opened Common

  const OrgRunnersUrl := "https://api.github.com/orgs/pytorch/actions/runners"
  const FirstPageUrl := OrgRunnersUrl + "?per_page=100"
  const MissingToken := "GITHUB_TOKEN_ADMIN_READ environment variable is not set."
  const ConnectionErrorPrefix := "Error connecting to GitHub API: "
  const UnexpectedErrorPrefix := "Unexpected error: "
  const UrlOpen := "<"
  const UrlClose := '>'
  const RelOpen := "rel=\""
  const RelClose := '"'

  // ---------------------------------------------------------------------------
  // The lazy group search

  /** The first `close` at or after `from`, unless a line break comes first. */
  function CloseFrom(s: string, from: nat, close: char): (j: Option<nat>)
    ensures j.Some? ==> from <= j.value < |s| && s[j.value] == close
    ensures j.Some? ==> forall m :: from <= m < j.value ==> s[m] != close && s[m] != '\n'
    decreases |s| - from
  {
    if from >= |s| then None
    else if s[from] == close then Some(from)
    else if s[from] == '\n' then None
    else CloseFrom(s, from + 1, close)
  }

  /** Any `close` with no `close` and no line break before it, from `from` on, is the one found. */
  lemma {:induction false} CloseFromFinds(s: string, from: nat, close: char, j: nat)
    requires from <= j < |s| && s[j] == close
    requires forall m :: from <= m < j ==> s[m] != close && s[m] != '\n'
    ensures CloseFrom(s, from, close) == Some(j)
    decreases j - from
  {
    if from < j {
      CloseFromFinds(s, from + 1, close, j);
    }
  }

  /** The group of a match starting at `i`: `open`, then one character, then everything up to the first `close`. */
  function MatchAt(s: string, open: string, close: char, i: nat): Option<string>
  {
    var b := i + |open|;
    if OccursAt(open, s, i) && b < |s| && s[b] != '\n' then
      match CloseFrom(s, b + 1, close)
      case Some(j) => Some(s[b..j])
      case None => None
    else None
  }

  /**
   What the regular expression accepts at `i` with group `g`: the opening
   text, a non-empty group without line breaks, then `close`; lazy, so no
   `close` inside the group after its first character.
   */
  predicate IsMatch(s: string, open: string, close: char, i: nat, g: string)
  {
    && OccursAt(open, s, i)
    && |g| >= 1
    && OccursAt(g + [close], s, i + |open|)
    && '\n' !in g
    && close !in g[1..]
  }

  /** The matcher at one position agrees with the description of the expression. */
  lemma MatchAtIff(s: string, open: string, close: char, i: nat, g: string)
    ensures MatchAt(s, open, close, i) == Some(g) <==> IsMatch(s, open, close, i, g)
  {
    var b := i + |open|;
    if MatchAt(s, open, close, i) == Some(g) {
      var j := CloseFrom(s, b + 1, close).value;
      assert s[b..j + 1] == g + [close];
      forall m | 0 <= m < |g| ensures g[m] != '\n' {
        assert g[m] == s[b + m];
      }
      forall m | 0 <= m < |g[1..]| ensures g[1..][m] != close {
        assert g[1..][m] == s[b + 1 + m];
      }
    }
    if IsMatch(s, open, close, i, g) {
      var j := b + |g|;
      assert s[b..j + 1] == g + [close];
      assert s[j] == close;
      assert s[b] == g[0];
      forall m | b + 1 <= m < j ensures s[m] != close && s[m] != '\n' {
        assert s[m] == g[m - b];
        assert g[m - b] == g[1..][m - b - 1];
        assert g[m - b] in g;
      }
      CloseFromFinds(s, b + 1, close, j);
      assert s[b..j] == s[b..j + 1][..|g|] == (g + [close])[..|g|] == g;
    }
  }

  /** `re.search`: the group of the leftmost match at or after `i`. */
  function SearchFrom(s: string, open: string, close: char, i: nat): Option<string>
    decreases |s| - i
  {
    if i >= |s| then None
    else if MatchAt(s, open, close, i).Some? then MatchAt(s, open, close, i)
    else SearchFrom(s, open, close, i + 1)
  }

  function Search(s: string, open: string, close: char): Option<string>
  {
    SearchFrom(s, open, close, 0)
  }

  /** No match can start at or past the end of the text. */
  lemma NoMatchAtEnd(s: string, open: string, close: char, i: nat)
    requires i >= |s|
    ensures MatchAt(s, open, close, i).None?
  {
  }

  /**
   The search returns the group of the leftmost position where the
   expression matches, and nothing when it matches nowhere.
   */
  lemma {:induction false} SearchFromLeftmost(s: string, open: string, close: char, i: nat)
    ensures SearchFrom(s, open, close, i).Some? ==>
      exists p :: i <= p < |s| && MatchAt(s, open, close, p) == SearchFrom(s, open, close, i) &&
        forall q :: i <= q < p ==> MatchAt(s, open, close, q).None?
    ensures SearchFrom(s, open, close, i).None? ==> forall q :: i <= q ==> MatchAt(s, open, close, q).None?
    decreases |s| - i
  {
    if i >= |s| {
      forall q | i <= q ensures MatchAt(s, open, close, q).None? {
        NoMatchAtEnd(s, open, close, q);
      }
    } else if MatchAt(s, open, close, i).None? {
      SearchFromLeftmost(s, open, close, i + 1);
    }
  }

  /** A match at `p` with no occurrence of the opening text before it is what the search returns. */
  lemma SearchFindsFirst(s: string, open: string, close: char, p: nat, g: string)
    requires IsMatch(s, open, close, p, g)
    requires forall q :: 0 <= q < p ==> !OccursAt(open, s, q)
    ensures Search(s, open, close) == Some(g)
  {
    MatchAtIff(s, open, close, p, g);
    SearchFromLeftmost(s, open, close, 0);
    assert forall q :: 0 <= q < p ==> MatchAt(s, open, close, q).None?;
  }

  // ---------------------------------------------------------------------------
  // The Link header

  datatype Link = Link(url: string, rel: string)

  /** One comma-separated part of the header: its link when both searches match. */
  function LinkOf(part: string): Option<Link>
  {
    var url := Search(part, UrlOpen, UrlClose);
    var rel := Search(part, RelOpen, RelClose);
    if url.Some? && rel.Some? then Some(Link(url.value, rel.value)) else None
  }

  /** The links of the parts, in header order; parts without both matches are skipped. */
  function LinkEntries(parts: seq<string>): seq<Link>
  {
    if |parts| == 0 then []
    else
      var last := LinkOf(parts[|parts| - 1]);
      LinkEntries(parts[..|parts| - 1]) + (if last.Some? then [last.value] else [])
  }

  /** The `links` dictionary: relation to address, a later part overwriting an earlier one. */
  function LinkMap(links: seq<Link>): map<string, string>
  {
    if |links| == 0 then map[]
    else LinkMap(links[..|links| - 1])[links[|links| - 1].rel := links[|links| - 1].url]
  }

  /** The address of the next page: the `next` entry of a non-empty header. */
  function NextUrl(header: Option<string>): Option<string>
  {
    if header.None? || header.value == "" then None
    else
      var links := LinkMap(LinkEntries(SplitOn(header.value, ',')));
      if "next" in links then Some(links["next"]) else None
  }

  /** Reference reading of a link list: the address of the last link whose relation is `next`. */
  function LastNext(links: seq<Link>): Option<string>
  {
    if |links| == 0 then None
    else if links[|links| - 1].rel == "next" then Some(links[|links| - 1].url)
    else LastNext(links[..|links| - 1])
  }

  /** The dictionary's `next` entry is the last `next` link. */
  lemma {:induction false} LinkMapNext(links: seq<Link>)
    ensures ("next" in LinkMap(links)) == LastNext(links).Some?
    ensures "next" in LinkMap(links) ==> LinkMap(links)["next"] == LastNext(links).value
    decreases |links|
  {
    if |links| > 0 {
      LinkMapNext(links[..|links| - 1]);
    }
  }

  /** Every address a header yields is non-empty, so a found next link always continues the loop. */
  lemma {:induction false} LinkUrlsNonEmpty(parts: seq<string>)
    ensures forall k :: 0 <= k < |LinkEntries(parts)| ==> |LinkEntries(parts)[k].url| >= 1
    decreases |parts|
  {
    if |parts| > 0 {
      var part := parts[|parts| - 1];
      LinkUrlsNonEmpty(parts[..|parts| - 1]);
      var url := Search(part, UrlOpen, UrlClose);
      if url.Some? {
        SearchFromLeftmost(part, UrlOpen, UrlClose, 0);
        var p :| 0 <= p < |part| && MatchAt(part, UrlOpen, UrlClose, p) == url;
        MatchAtIff(part, UrlOpen, UrlClose, p, url.value);
      }
    }
  }

  /** A non-empty next address whenever there is one. */
  lemma NextUrlNonEmpty(header: Option<string>)
    ensures NextUrl(header).Some? ==> |NextUrl(header).value| >= 1
  {
    if header.Some? && header.value != "" {
      var links := LinkEntries(SplitOn(header.value, ','));
      LinkUrlsNonEmpty(SplitOn(header.value, ','));
      LinkMapNext(links);
      LastNextIsListed(links);
    }
  }

  /** The last `next` link is one of the links. */
  lemma {:induction false} LastNextIsListed(links: seq<Link>)
    ensures LastNext(links).Some? ==> exists k :: 0 <= k < |links| && links[k].url == LastNext(links).value
    decreases |links|
  {
    if |links| > 0 && links[|links| - 1].rel != "next" {
      LastNextIsListed(links[..|links| - 1]);
      if LastNext(links).Some? {
        var k :| 0 <= k < |links[..|links| - 1]| && links[..|links| - 1][k].url == LastNext(links).value;
        assert links[k] == links[..|links| - 1][k];
      }
    }
  }

  // ---------------------------------------------------------------------------
  // Rendering a Link header, and reading it back

  /** A link the header format can carry: non-empty parts free of the delimiters. */
  predicate Renderable(l: Link)
  {
    && |l.url| >= 1 && |l.rel| >= 1
    && '>' !in l.url && ',' !in l.url && '\n' !in l.url && '"' !in l.url
    && '"' !in l.rel && ',' !in l.rel && '\n' !in l.rel
  }

  /** `<url>; rel="rel"`, after a space unless it is the first part. */
  function RenderPart(l: Link, first: bool): string
  {
    (if first then "" else " ") + "<" + l.url + ">; rel=\"" + l.rel + "\""
  }

  function RenderParts(links: seq<Link>): (parts: seq<string>)
    ensures |parts| == |links|
    ensures forall k :: 0 <= k < |parts| ==> parts[k] == RenderPart(links[k], k == 0)
  {
    seq(|links|, k requires 0 <= k < |links| => RenderPart(links[k], k == 0))
  }

  /** The header in the form `<a>; rel="next", <b>; rel="last"`. */
  function RenderHeader(links: seq<Link>): string
    requires |links| >= 1
  {
    Join(RenderParts(links), ',')
  }

  /** A rendered part holds no comma. */
  lemma RenderPartNoComma(l: Link, first: bool)
    requires Renderable(l)
    ensures ',' !in RenderPart(l, first)
  {
  }

  /** No delimiter `c` inside `t` after its first character. */
  lemma NotInTail(t: string, c: char)
    requires |t| >= 1 && c !in t
    ensures c !in t[1..]
  {
    forall m | 0 <= m < |t[1..]| ensures t[1..][m] != c {
      assert t[1..][m] == t[m + 1];
    }
  }

  /** The address search reads the address back: the first `<` comes right after the leading pad. */
  lemma UrlParses(l: Link, first: bool)
    requires Renderable(l)
    ensures Search(RenderPart(l, first), UrlOpen, UrlClose) == Some(l.url)
  {
    var pad := if first then "" else " ";
    var s := RenderPart(l, first);
    var p := |pad|;
    var tail := "; rel=\"" + l.rel + "\"";
    assert s == pad + UrlOpen + (l.url + [UrlClose]) + tail;
    assert s[p..p + 1] == UrlOpen;
    assert s[p + 1..p + 1 + |l.url| + 1] == l.url + [UrlClose];
    NotInTail(l.url, UrlClose);
    assert IsMatch(s, UrlOpen, UrlClose, p, l.url);
    forall q | 0 <= q < p ensures !OccursAt(UrlOpen, s, q) {
      assert s[q] == ' ';
    }
    SearchFindsFirst(s, UrlOpen, UrlClose, p, l.url);
  }

  /** Where `rel="` starts in a rendered part, and the text before it. */
  function RelHead(l: Link, first: bool): string
  {
    (if first then "" else " ") + "<" + l.url + ">; "
  }

  /** The text before `rel="` holds no double quote. */
  lemma RelHeadNoQuote(l: Link, first: bool)
    requires Renderable(l)
    ensures '"' !in RelHead(l, first)
  {
  }

  /** `rel="` cannot start inside a quote-free text it follows, since its closing quote would fall there or on `rel=`. */
  lemma NoRelOpenBefore(head: string, rest: string, q: nat)
    requires '"' !in head && q < |head|
    ensures !OccursAt(RelOpen, head + RelOpen + rest, q)
  {
    var s := head + RelOpen + rest;
    assert s[q + 4] != '"' by {
      if q + 4 < |head| {
        assert s[q + 4] == head[q + 4];
        assert head[q + 4] in head;
      } else {
        assert s[q + 4] == RelOpen[q + 4 - |head|];
      }
    }
    assert s[q..q + 5][4] == s[q + 4];
  }

  /** In a rendered part, `rel="` first occurs right after the address. */
  lemma RelOpenFirstAt(l: Link, first: bool)
    requires Renderable(l)
    ensures forall q :: 0 <= q < |RelHead(l, first)| ==> !OccursAt(RelOpen, RenderPart(l, first), q)
  {
    var head := RelHead(l, first);
    assert RenderPart(l, first) == head + RelOpen + (l.rel + [RelClose]);
    RelHeadNoQuote(l, first);
    forall q | 0 <= q < |head| ensures !OccursAt(RelOpen, head + RelOpen + (l.rel + [RelClose]), q) {
      NoRelOpenBefore(head, l.rel + [RelClose], q);
    }
  }

  /** The relation search reads the relation back: the first `"` is the one that ends `rel="`. */
  lemma RelParses(l: Link, first: bool)
    requires Renderable(l)
    ensures Search(RenderPart(l, first), RelOpen, RelClose) == Some(l.rel)
  {
    var s := RenderPart(l, first);
    var head := RelHead(l, first);
    var r := |head|;
    assert s == head + RelOpen + (l.rel + [RelClose]);
    assert s[r..r + 5] == RelOpen;
    assert s[r + 5..r + 5 + |l.rel| + 1] == l.rel + [RelClose];
    NotInTail(l.rel, RelClose);
    assert IsMatch(s, RelOpen, RelClose, r, l.rel);
    RelOpenFirstAt(l, first);
    SearchFindsFirst(s, RelOpen, RelClose, r, l.rel);
  }

  /** Both searches read a rendered part back. */
  lemma PartParses(l: Link, first: bool)
    requires Renderable(l)
    ensures LinkOf(RenderPart(l, first)) == Some(l)
  {
    UrlParses(l, first);
    RelParses(l, first);
  }

  /** The links of the rendered parts are the links rendered. */
  lemma {:induction false} EntriesOfRendered(links: seq<Link>, parts: seq<string>)
    requires |parts| == |links|
    requires forall k :: 0 <= k < |links| ==> Renderable(links[k]) && LinkOf(parts[k]) == Some(links[k])
    ensures LinkEntries(parts) == links
    decreases |links|
  {
    if |links| > 0 {
      var n := |links| - 1;
      EntriesOfRendered(links[..n], parts[..n]);
      assert links[..n] + [links[n]] == links;
    }
  }

  /**
   Round trip: a header rendered from well-formed links parses back to
   those links, in order, and its next address is the last `next` link.
   */
  lemma HeaderRoundTrip(links: seq<Link>)
    requires |links| >= 1
    requires forall k :: 0 <= k < |links| ==> Renderable(links[k])
    ensures LinkEntries(SplitOn(RenderHeader(links), ',')) == links
    ensures NextUrl(Some(RenderHeader(links))) == LastNext(links)
  {
    var parts := RenderParts(links);
    forall k | 0 <= k < |parts| ensures ',' !in parts[k] && LinkOf(parts[k]) == Some(links[k]) {
      RenderPartNoComma(links[k], k == 0);
      PartParses(links[k], k == 0);
    }
    SplitJoin(parts, ',');
    EntriesOfRendered(links, parts);
    assert RenderHeader(links) != "" by {
      assert |parts[0]| > 0;
      JoinSplit(RenderHeader(links), ',');
    }
    LinkMapNext(links);
  }

  // ---------------------------------------------------------------------------
  // The pages loop

  datatype RunnerInfo = RunnerInfo(id: int, name: string, status: string, busy: bool, labels: seq<string>)

  /**
   One reply of the loop: a page of runners with the `Link` header, a
   request failure (connection error or error status), or any other
   exception.
   */
  datatype GhReply =
    | GhPage(runners: seq<RunnerInfo>, link: Option<string>)
    | RequestFailed(message: string)
    | Unexpected(message: string)

  /** The function's result: the runners, or a one-line message in their place. */
  datatype RunnerListing = Runners(items: seq<RunnerInfo>) | Notice(text: string)

  /** A reader of the `Link` header: the next address, if any. */
  type LinkReader = Option<string> -> Option<string>

  /** The address the loop requests after a reply: the next link of a page, `""` (stop) otherwise. */
  function NextPageUrl(r: GhReply, readNext: LinkReader): string
  {
    if r.GhPage? && readNext(r.link).Some? then readNext(r.link).value else ""
  }

  /** A reply after which no further request is made. */
  predicate EndsPaging(r: GhReply, readNext: LinkReader)
  {
    !r.GhPage? || NextPageUrl(r, readNext) == ""
  }

  /** The test `EndsPaging` with the `Link` reader fixed. */
  function EndsPagingWith(readNext: LinkReader): GhReply -> bool
  {
    r => EndsPaging(r, readNext)
  }

  /** The first reply that ends the loop. */
  function FirstEnd(replies: seq<GhReply>, readNext: LinkReader): (n: nat)
    requires exists n :: 0 <= n < |replies| && EndsPaging(replies[n], readNext)
    ensures n < |replies| && EndsPaging(replies[n], readNext)
    ensures forall k :: 0 <= k < n ==> !EndsPaging(replies[k], readNext)
  {
    FirstFrom(replies, EndsPagingWith(readNext), 0)
  }

  /** The runners of a run of pages, page after page. */
  function AllRunners(replies: seq<GhReply>): seq<RunnerInfo>
  {
    if |replies| == 0 then []
    else AllRunners(replies[..|replies| - 1]) + (if replies[|replies| - 1].GhPage? then replies[|replies| - 1].runners else [])
  }

  /** The address of the `k`-th request: the first-page address, then the next link of the reply before. */
  function UrlAt(replies: seq<GhReply>, readNext: LinkReader, k: nat): string
    requires k <= |replies|
  {
    if k == 0 then FirstPageUrl else NextPageUrl(replies[k - 1], readNext)
  }

  /** The addresses of the first `i` requests, in request order. */
  function UrlsSent(replies: seq<GhReply>, readNext: LinkReader, i: nat): (r: seq<string>)
    requires i <= |replies|
    ensures |r| == i
  {
    if i == 0 then [] else UrlsSent(replies, readNext, i - 1) + [UrlAt(replies, readNext, i - 1)]
  }

  /** The `k`-th address sent is `UrlAt(replies, readNext, k)`. */
  lemma {:induction false} UrlsSentAt(replies: seq<GhReply>, readNext: LinkReader, i: nat, k: nat)
    requires k < i <= |replies|
    ensures UrlsSent(replies, readNext, i)[k] == UrlAt(replies, readNext, k)
  {
    if k < i - 1 {
      UrlsSentAt(replies, readNext, i - 1, k);
    }
  }

  /**
   Up to the reply that ends the loop, every request after the first goes to
   the non-empty next link of a page.
   */
  lemma {:induction false} UrlsSentUpToEnd(replies: seq<GhReply>, readNext: LinkReader)
    requires exists n :: 0 <= n < |replies| && EndsPaging(replies[n], readNext)
    ensures var n := FirstEnd(replies, readNext);
      var urls := UrlsSent(replies, readNext, n + 1);
      && urls[0] == FirstPageUrl
      && forall k :: 0 < k <= n ==>
           replies[k - 1].GhPage? && readNext(replies[k - 1].link) == Some(urls[k]) && urls[k] != ""
  {
    var n := FirstEnd(replies, readNext);
    var urls := UrlsSent(replies, readNext, n + 1);
    UrlsSentAt(replies, readNext, n + 1, 0);
    forall k | 0 < k <= n
      ensures replies[k - 1].GhPage? && readNext(replies[k - 1].link) == Some(urls[k]) && urls[k] != ""
    {
      UrlsSentAt(replies, readNext, n + 1, k);
      assert !EndsPaging(replies[k - 1], readNext);
    }
  }

  /** The loop stops exactly at the first reply that ends it. */
  lemma PagingStopsAtEnd(replies: seq<GhReply>, readNext: LinkReader, i: nat)
    requires exists n :: 0 <= n < |replies| && EndsPaging(replies[n], readNext)
    requires i <= FirstEnd(replies, readNext)
    ensures EndsPaging(replies[i], readNext) <==> i == FirstEnd(replies, readNext)
  {
  }

  /** The runners of one more page follow those of the pages before. */
  lemma AllRunnersStep(replies: seq<GhReply>, i: nat)
    requires i < |replies| && replies[i].GhPage?
    ensures AllRunners(replies[..i + 1]) == AllRunners(replies[..i]) + replies[i].runners
  {
    assert replies[..i + 1][..i] == replies[..i];
  }

  /**
   The pages loop: the first page, then each page the previous `next` link
   names, until a page has no next link. A failed request or any other
   exception replaces the whole result by a message; otherwise the runners
   of all pages, in order.
   */
  method FollowPages(replies: seq<GhReply>, readNext: LinkReader) returns (result: RunnerListing, urls: seq<string>)
    requires exists n :: 0 <= n < |replies| && EndsPaging(replies[n], readNext)
    ensures var n := FirstEnd(replies, readNext);
      && |urls| == n + 1
      && urls[0] == FirstPageUrl
      && (forall k :: 0 < k <= n ==>
            replies[k - 1].GhPage? && readNext(replies[k - 1].link) == Some(urls[k]) && urls[k] != "")
      && (replies[n].RequestFailed? ==> result == Notice(ConnectionErrorPrefix + replies[n].message))
      && (replies[n].Unexpected? ==> result == Notice(UnexpectedErrorPrefix + replies[n].message))
      && (replies[n].GhPage? ==> result == Runners(AllRunners(replies[..n + 1])))
  {
    var n := FirstEnd(replies, readNext);
    UrlsSentUpToEnd(replies, readNext);
    var all: seq<RunnerInfo> := [];
    var current := FirstPageUrl;
    urls := [];
    var i := 0;
    assert replies[..0] == [];
    while current != ""
      invariant 0 <= i <= n + 1
      invariant i <= n ==> current == UrlAt(replies, readNext, i)
      invariant urls == UrlsSent(replies, readNext, i)
      invariant all == AllRunners(replies[..i])
      invariant i == n + 1 <==> current == ""
      invariant i == n + 1 ==> replies[n].GhPage?
      decreases n + 1 - i
    {
      urls := urls + [current];
      match replies[i] {
        case RequestFailed(m) =>
          PagingStopsAtEnd(replies, readNext, i);
          return Notice(ConnectionErrorPrefix + m), urls;
        case Unexpected(m) =>
          PagingStopsAtEnd(replies, readNext, i);
          return Notice(UnexpectedErrorPrefix + m), urls;
        case GhPage(runners, link) =>
          AllRunnersStep(replies, i);
          PagingStopsAtEnd(replies, readNext, i);
          all := all + runners;
          current := NextPageUrl(replies[i], readNext);
          i := i + 1;
      }
    }
    return Runners(all), urls;
  }

  /**
   `_get_all_gh_runners`: without a token, the fixed notice and no request;
   with one, the pages loop reading each `Link` header for its next link.
   */
  method GetAllRunners(token: string, replies: seq<GhReply>) returns (result: RunnerListing, urls: seq<string>)
    requires token != "" ==> exists n :: 0 <= n < |replies| && EndsPaging(replies[n], NextUrl)
    ensures token == "" ==> result == Notice(MissingToken) && urls == []
    ensures token != "" ==>
      var n := FirstEnd(replies, NextUrl);
      && |urls| == n + 1
      && urls[0] == FirstPageUrl
      && (forall k :: 0 < k <= n ==> replies[k - 1].GhPage? && NextUrl(replies[k - 1].link) == Some(urls[k]))
      && (replies[n].RequestFailed? ==> result == Notice(ConnectionErrorPrefix + replies[n].message))
      && (replies[n].Unexpected? ==> result == Notice(UnexpectedErrorPrefix + replies[n].message))
      && (replies[n].GhPage? ==> result == Runners(AllRunners(replies[..n + 1])))
  {
    if token == "" {
      return Notice(MissingToken), [];
    }
    result, urls := FollowPages(replies, NextUrl);
  }
}
