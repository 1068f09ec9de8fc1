/**
 The two compute-inventory tools of fluffys/main.py: `num_ec2_instances`,
 which counts the running instances (optionally of one exact type), and
 `list_ec2_instances_types`, which collects the instance-type names that
 contain a search string over all pages of the type catalogue.

 The inventory query is the parameter `describe`; the catalogue pages are
 given in the order the loop requests them.
 */
module Ec2Tools {
  import opened Common
  import Directory

  const TypeFilterName := "instance-type"

  /** The filters of `num_ec2_instances`: running instances, then the exact type when one is given. */
  function CountFilters(instanceType: string): seq<Directory.Filter>
  {
    [Directory.RunningFilter] + (if instanceType != "" then [Directory.Filter(TypeFilterName, [instanceType])] else [])
  }

  /** What a filter admits, for the two filter names this tool sends: a listed state, or a listed type. */
  predicate Admits(f: Directory.Filter, inst: Directory.RawInstance)
  {
    if f.name == Directory.RunningFilter.name then inst.state in f.values
    else if f.name == TypeFilterName then inst.instanceType in f.values
    else false
  }

  /** An instance passes a filter list when every filter admits it. */
  predicate AdmittedBy(fs: seq<Directory.Filter>, inst: Directory.RawInstance)
  {
    forall k :: 0 <= k < |fs| ==> Admits(fs[k], inst)
  }

  /**
   The count filters select exactly the running instances, and among them
   those of the given type when a type is given.
   */
  lemma CountFiltersMeaning(instanceType: string, inst: Directory.RawInstance)
    ensures AdmittedBy(CountFilters(instanceType), inst) <==>
      inst.state == "running" && (instanceType == "" || inst.instanceType == instanceType)
  {
    var fs := CountFilters(instanceType);
    assert Admits(fs[0], inst) <==> inst.state == "running";
    if instanceType != "" {
      assert Admits(fs[1], inst) <==> inst.instanceType == instanceType;
    }
  }

  /** `num_ec2_instances`: the number of instances over all reservations of the filtered query. */
  method NumEc2Instances(instanceType: string, describe: seq<Directory.Filter> -> seq<Directory.Reservation>)
    returns (count: nat)
    ensures count == |Directory.Flatten(describe(CountFilters(instanceType)))|
  {
    var rs := describe(CountFilters(instanceType));
    count := 0;
    var i := 0;
    while i < |rs|
      invariant 0 <= i <= |rs|
      invariant count == |Directory.Flatten(rs[..i])|
    {
      Directory.FlattenStep(rs, i);
      count := count + |rs[i].instances|;
      i := i + 1;
    }
    assert rs[..i] == rs;
  }

  /** One page of the type catalogue; the continuation token may be missing. */
  datatype TypesPage = TypesPage(instanceTypes: seq<string>, nextToken: Option<string>)

  /** A page whose token is missing or empty ends the loop. */
  predicate LastPage(p: TypesPage)
  {
    p.nextToken.None? || p.nextToken.value == ""
  }

  /** The first page that ends the loop. */
  function FirstLast(pages: seq<TypesPage>): (n: nat)
    requires exists n :: 0 <= n < |pages| && LastPage(pages[n])
    ensures n < |pages| && LastPage(pages[n])
    ensures forall k :: 0 <= k < n ==> !LastPage(pages[k])
  {
    FirstFrom(pages, LastPage, 0)
  }

  /** The search rule: no search string keeps every name, otherwise the name must contain it. */
  function Matcher(search: Option<string>): string -> bool
  {
    t => search.None? || Contains(search.value, t)
  }

  /** The inner loop over one page: the names the search keeps, in page order. */
  method MatchPage(names: seq<string>, search: Option<string>) returns (found: seq<string>)
    ensures found == Select(names, Matcher(search))
  {
    var keep := Matcher(search);
    found := [];
    var j := 0;
    while j < |names|
      invariant 0 <= j <= |names|
      invariant found == Select(names[..j], keep)
    {
      var t := names[j];
      SelectPrefixStep(names, j, keep);
      if keep(t) {
        found := found + [t];
      }
      j := j + 1;
    }
    assert names[..j] == names;
  }

  /** The names of a run of pages that the search keeps, in catalogue order. */
  function Matched(pages: seq<TypesPage>, search: Option<string>): seq<string>
    decreases |pages|
  {
    if |pages| == 0 then []
    else Matched(pages[..|pages| - 1], search) + Select(pages[|pages| - 1].instanceTypes, Matcher(search))
  }

  /** One more page adds its own kept names at the end. */
  lemma MatchedStep(pages: seq<TypesPage>, i: nat, search: Option<string>)
    requires i < |pages|
    ensures Matched(pages[..i + 1], search) == Matched(pages[..i], search) + Select(pages[i].instanceTypes, Matcher(search))
  {
    assert pages[..i + 1][..i] == pages[..i];
  }

  /** The body of the page loop: the kept names of page `i` after those of the pages before it. */
  method AddPage(types: seq<string>, pages: seq<TypesPage>, i: nat, search: Option<string>) returns (more: seq<string>)
    requires i < |pages| && types == Matched(pages[..i], search)
    ensures more == Matched(pages[..i + 1], search)
  {
    var found := MatchPage(pages[i].instanceTypes, search);
    MatchedStep(pages, i, search);
    more := types + found;
  }

  /** The token the loop sends with its `k`-th request: none first, then the token of the page before. */
  function Sent(pages: seq<TypesPage>, k: nat): Option<string>
    requires k <= |pages|
  {
    if k == 0 then None else pages[k - 1].nextToken
  }

  /** Every request after the first carries a non-empty token, since only the last fetched page lacks one. */
  lemma SentNonEmpty(pages: seq<TypesPage>, k: nat)
    requires exists n :: 0 <= n < |pages| && LastPage(pages[n])
    requires 0 < k <= FirstLast(pages)
    ensures Sent(pages, k).Some? && Sent(pages, k).value != ""
  {
    assert !LastPage(pages[k - 1]);
  }

  /** The tokens of the first `i` requests, in request order. */
  function TokensSent(pages: seq<TypesPage>, i: nat): (r: seq<Option<string>>)
    requires i <= |pages|
    ensures |r| == i
  {
    if i == 0 then [] else TokensSent(pages, i - 1) + [Sent(pages, i - 1)]
  }

  /** The `k`-th token sent is `Sent(pages, k)`. */
  lemma {:induction false} TokensSentAt(pages: seq<TypesPage>, i: nat, k: nat)
    requires k < i <= |pages|
    ensures TokensSent(pages, i)[k] == Sent(pages, k)
  {
    if k < i - 1 {
      TokensSentAt(pages, i - 1, k);
    }
  }

  /**
   Up to the first page without a token, the requests are one without a
   token followed by one per earlier page, each with that page's token.
   */
  lemma {:induction false} TokensSentUpToLast(pages: seq<TypesPage>)
    requires exists n :: 0 <= n < |pages| && LastPage(pages[n])
    ensures var n := FirstLast(pages);
      var tokens := TokensSent(pages, n + 1);
      && tokens[0].None?
      && forall k :: 0 < k <= n ==> tokens[k] == pages[k - 1].nextToken && tokens[k].value != ""
  {
    var n := FirstLast(pages);
    var tokens := TokensSent(pages, n + 1);
    TokensSentAt(pages, n + 1, 0);
    forall k | 0 < k <= n
      ensures tokens[k] == pages[k - 1].nextToken && tokens[k].value != ""
    {
      TokensSentAt(pages, n + 1, k);
      SentNonEmpty(pages, k);
    }
  }

  /** A page that does not end the loop comes before the first one that does. */
  lemma BeforeLast(pages: seq<TypesPage>, i: nat)
    requires exists n :: 0 <= n < |pages| && LastPage(pages[n])
    requires i <= FirstLast(pages) && i < |pages| && !LastPage(pages[i])
    ensures i < FirstLast(pages)
  {
  }

  /**
   `list_ec2_instances_types`: the pages up to the first one without a
   token are fetched, the first without a token and each later one with the
   token of the page before; the result is the matching names in catalogue
   order.
   */
  method ListInstanceTypes(search: Option<string>, pages: seq<TypesPage>)
    returns (types: seq<string>, tokens: seq<Option<string>>)
    requires exists n :: 0 <= n < |pages| && LastPage(pages[n])
    ensures var n := FirstLast(pages);
      && types == Matched(pages[..n + 1], search)
      && |tokens| == n + 1
      && tokens[0].None?
      && forall k :: 0 < k <= n ==> tokens[k] == pages[k - 1].nextToken && tokens[k].value != ""
  {
    var n := FirstLast(pages);
    types := [];
    tokens := [];
    assert pages[..0] == [];
    var nextToken: Option<string> := None;
    var i := 0;
    while true
      invariant 0 <= i <= n
      invariant nextToken == Sent(pages, i)
      invariant tokens == TokensSent(pages, i)
      invariant types == Matched(pages[..i], search)
      decreases n - i
    {
      // only a non-empty token is sent
      var sent := if nextToken.Some? && nextToken.value != "" then nextToken else None;
      if i > 0 {
        SentNonEmpty(pages, i);
      }
      tokens := tokens + [sent];
      var page := pages[i];
      types := AddPage(types, pages, i, search);
      nextToken := page.nextToken;
      if LastPage(page) {
        TokensSentUpToLast(pages);
        return;
      }
      BeforeLast(pages, i);
      i := i + 1;
    }
  }

  /** Every name the search keeps has the search string at some position. */
  lemma MatchedNamesContainSearch(search: string, names: seq<string>)
    ensures forall t :: t in Select(names, Matcher(Some(search))) ==> exists i :: OccursAt(search, t, i)
  {
    SelectMembers(names, Matcher(Some(search)));
    forall t | t in Select(names, Matcher(Some(search)))
      ensures exists i :: OccursAt(search, t, i)
    {
      assert Contains(search, t);
      ContainsIff(search, t);
    }
  }

  /** With no search string, or an empty one, no name is dropped. */
  lemma EmptySearchKeepsAll(search: Option<string>, names: seq<string>)
    requires search.None? || search.value == ""
    ensures Select(names, Matcher(search)) == names
  {
    forall x | x in names ensures Matcher(search)(x) {
      if search.Some? {
        assert OccursAt(search.value, x, 0);
        ContainsIff(search.value, x);
      }
    }
    SelectAll(names, Matcher(search));
  }

  /** A name is listed by a run of pages iff the run without its last page lists it or the last page keeps it. */
  lemma MatchedLast(search: Option<string>, pages: seq<TypesPage>, t: string)
    requires |pages| > 0
    ensures t in Matched(pages, search) <==>
      t in Matched(pages[..|pages| - 1], search) || (t in pages[|pages| - 1].instanceTypes && Matcher(search)(t))
  {
    SelectMembers(pages[|pages| - 1].instanceTypes, Matcher(search));
  }

  /** Some page of a run carries the name. */
  predicate Carried(pages: seq<TypesPage>, t: string)
  {
    exists k :: 0 <= k < |pages| && t in pages[k].instanceTypes
  }

  /** Some page of a run carries a name iff a page before the last does or the last one does. */
  lemma CarriedLast(pages: seq<TypesPage>, t: string)
    requires |pages| > 0
    ensures Carried(pages, t) <==> Carried(pages[..|pages| - 1], t) || t in pages[|pages| - 1].instanceTypes
  {
    var n := |pages| - 1;
    if Carried(pages, t) {
      var k :| 0 <= k < |pages| && t in pages[k].instanceTypes;
      if k < n {
        assert pages[..n][k] == pages[k];
      }
    }
    if Carried(pages[..n], t) {
      var k :| 0 <= k < n && t in pages[..n][k].instanceTypes;
      assert pages[k] == pages[..n][k];
    }
  }

  /**
   A name is listed exactly when one of the fetched pages carries it and it
   has the search string at some position.
   */
  lemma {:induction false} ListedIff(search: string, pages: seq<TypesPage>, t: string)
    ensures t in Matched(pages, Some(search)) <==> Carried(pages, t) && exists i :: OccursAt(search, t, i)
    decreases |pages|
  {
    ContainsIff(search, t);
    assert Matcher(Some(search))(t) == Contains(search, t);
    if |pages| > 0 {
      ListedIff(search, pages[..|pages| - 1], t);
      MatchedLast(Some(search), pages, t);
      CarriedLast(pages, t);
    }
  }
}
