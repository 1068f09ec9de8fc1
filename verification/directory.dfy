/**
 The instance directory of `EC2Manager` (claude-mcp.py): the filter list sent
 to the compute inventory query, the display name taken from an instance's
 tags, the three-way reachability check against the remote-execution agent's
 registry, and the listing that keeps only reachable instances on request.

 The inventory query and the registry lookup are remote calls; they appear
 here as function-valued parameters (`describe`, `registry`) whose results
 the model consumes as data.
 */
module Directory {
  import opened Common

  /** One key/value tag of an instance (also one entry of the caller's tag filter). */
  datatype Tag = Tag(key: string, value: string)

  /** One entry of the `Filters` list of the inventory query. */
  datatype Filter = Filter(name: string, values: seq<string>)

  /** The caller's filtering options. Python's falsy `None`, `[]` and `""` are all the empty value here. */
  datatype Query = Query(
    instanceTypes: seq<string>,
    namePrefix: string,
    tags: seq<Tag>,   // the tag dictionary, in its iteration order
    ssmOnly: bool)

  /** An instance as the inventory query describes it; optional fields may be missing. */
  datatype RawInstance = RawInstance(
    id: string,
    instanceType: string,
    state: string,
    privateIp: Option<string>,
    publicIp: Option<string>,
    launchTime: Option<string>,   // already in ISO text form
    platform: Option<string>,
    tags: seq<Tag>)

  /** One reservation of the inventory reply. */
  datatype Reservation = Reservation(instances: seq<RawInstance>)

  /** The registry lookup's reply: the list of matching registrations, or a client error. */
  datatype RegistryReply = Registered(entries: seq<string>) | RegistryClientError(message: string)

  /** Whether the remote-execution agent can reach an instance. */
  datatype Reachability = Available | NotAvailable | Unknown {
    /** The text the source stores in the `SSM_Status` field. */
    function Label(): string
    {
      match this
      case Available => "Available"
      case NotAvailable => "Not Available"
      case Unknown => "Unknown"
    }
  }

  /** One listed instance, as the source's result dictionary. */
  datatype Instance = Instance(
    id: string,
    name: string,
    instanceType: string,
    state: string,
    privateIp: string,
    publicIp: string,
    ssmStatus: Reachability,
    launchTime: string,
    platform: string,
    tags: seq<Tag>)

  const RunningFilter := Filter("instance-state-name", ["running"])
  const Unnamed := "Unnamed"
  const NotApplicable := "N/A"

  function TypeFilters(q: Query): seq<Filter>
  {
    if |q.instanceTypes| > 0 then [Filter("instance-type", q.instanceTypes)] else []
  }

  function NameFilters(q: Query): seq<Filter>
  {
    if q.namePrefix != "" then [Filter("tag:Name", [q.namePrefix + "*"])] else []
  }

  function TagFilter(t: Tag): Filter
  {
    Filter("tag:" + t.key, [t.value])
  }

  /** The filter list of the inventory query, in the order the source builds it. */
  function BuildFilters(q: Query): seq<Filter>
  {
    TypeFilters(q) + NameFilters(q)
    + seq(|q.tags|, i requires 0 <= i < |q.tags| => TagFilter(q.tags[i]))
    + [RunningFilter]
  }

  /** The shape of the filter list: which filters appear, where, and with which values. */
  lemma FilterListShape(q: Query)
    ensures var fs := BuildFilters(q);
      && |fs| == |TypeFilters(q)| + |NameFilters(q)| + |q.tags| + 1
      // the running-state filter is always there, exactly once, at the end
      && fs[|fs| - 1] == RunningFilter
      && (forall k :: 0 <= k < |fs| - 1 ==> fs[k].name != RunningFilter.name)
      // an instance-type filter exists exactly when types were given; it comes first and carries them all
      && ((exists k :: 0 <= k < |fs| && fs[k].name == "instance-type") <==> |q.instanceTypes| > 0)
      && (|q.instanceTypes| > 0 ==> fs[0] == Filter("instance-type", q.instanceTypes))
      // a name filter with the single wildcard value `prefix*` exactly when a prefix was given
      && (q.namePrefix != "" ==> fs[|TypeFilters(q)|] == Filter("tag:Name", [q.namePrefix + "*"]))
      // one filter per tag entry, in the tag dictionary's order
      && (forall i :: 0 <= i < |q.tags| ==>
            fs[|TypeFilters(q)| + |NameFilters(q)| + i] == Filter("tag:" + q.tags[i].key, [q.tags[i].value]))
  {
    var fs := BuildFilters(q);
    var lead := |TypeFilters(q)| + |NameFilters(q)|;
    forall k | |TypeFilters(q)| <= k < |fs| - 1
      ensures fs[k].name != "instance-type" && fs[k].name != RunningFilter.name
    {
      if k < lead {
        TagNamesAreDistinct("Name");
      } else {
        assert fs[k] == TagFilter(q.tags[k - lead]);
        TagNamesAreDistinct(q.tags[k - lead].key);
      }
    }
    assert fs[|fs| - 1].name != "instance-type";
    if |q.instanceTypes| > 0 {
      assert fs[0].name == "instance-type";
    }
  }

  /** A `tag:` filter name never collides with the fixed filter names. */
  lemma TagNamesAreDistinct(key: string)
    ensures "tag:" + key != "instance-type" && "tag:" + key != RunningFilter.name
  {
    assert ("tag:" + key)[0] == 't';
  }

  /** The value of the first tag keyed `Name`, or `Unnamed` when there is none. */
  function InstanceName(tags: seq<Tag>): (name: string)
    ensures (forall i :: 0 <= i < |tags| ==> tags[i].key != "Name") ==> name == Unnamed
    ensures forall i :: (0 <= i < |tags| && tags[i].key == "Name" &&
                         (forall j :: 0 <= j < i ==> tags[j].key != "Name")) ==> name == tags[i].value
  {
    if |tags| == 0 then Unnamed
    else if tags[0].key == "Name" then tags[0].value
    else
      var rest := InstanceName(tags[1..]);
      assert forall i :: 1 <= i < |tags| ==> tags[1..][i - 1] == tags[i];
      rest
  }

  /** The registry cross-check: registered, not registered, or the lookup itself failed. */
  function CheckSsmStatus(reply: RegistryReply): (status: Reachability)
    ensures status == Available <==> reply.Registered? && |reply.entries| > 0
    ensures status == NotAvailable <==> reply.Registered? && |reply.entries| == 0
    ensures status == Unknown <==> reply.RegistryClientError?
  {
    match reply
    case Registered(entries) => if |entries| > 0 then Available else NotAvailable
    case RegistryClientError(_) => Unknown
  }

  function OrNotApplicable(v: Option<string>): string
  {
    match v
    case Some(s) => s
    case None => NotApplicable
  }

  /** The result record built for one described instance. */
  function Describe(raw: RawInstance, registry: string -> RegistryReply): Instance
  {
    Instance(raw.id, InstanceName(raw.tags), raw.instanceType, raw.state,
             OrNotApplicable(raw.privateIp), OrNotApplicable(raw.publicIp),
             CheckSsmStatus(registry(raw.id)), OrNotApplicable(raw.launchTime),
             OrNotApplicable(raw.platform), raw.tags)
  }

  function DescribeAll(raws: seq<RawInstance>, registry: string -> RegistryReply): (r: seq<Instance>)
  {
    seq(|raws|, i requires 0 <= i < |raws| => Describe(raws[i], registry))
  }

  /** All instances of all reservations, reservation by reservation. */
  function Flatten(rs: seq<Reservation>): seq<RawInstance>
  {
    if |rs| == 0 then [] else Flatten(rs[..|rs| - 1]) + rs[|rs| - 1].instances
  }

  /** The drop rule of `ssm_only`. */
  function Keeper(ssmOnly: bool): Instance -> bool
  {
    (inst: Instance) => !ssmOnly || inst.ssmStatus == Available
  }

  /** Reference listing: describe every instance in order, then apply the drop rule. */
  function Listing(rs: seq<Reservation>, registry: string -> RegistryReply, ssmOnly: bool): (r: seq<Instance>)
    ensures ssmOnly ==> forall k :: 0 <= k < |r| ==> r[k].ssmStatus == Available
    ensures IsSubsequence(r, DescribeAll(Flatten(rs), registry))
    ensures !ssmOnly ==> r == DescribeAll(Flatten(rs), registry)
    ensures forall x :: x in r <==>
      x in DescribeAll(Flatten(rs), registry) && (!ssmOnly || x.ssmStatus == Available)
  {
    var all := DescribeAll(Flatten(rs), registry);
    SelectIsSubsequence(all, Keeper(ssmOnly));
    SelectMembers(all, Keeper(ssmOnly));
    var r := Select(all, Keeper(ssmOnly));
    if ssmOnly then r else SelectAll(all, Keeper(ssmOnly)); r
  }

  /** The listing records of the already described instances `seen`. */
  function Kept(seen: seq<RawInstance>, registry: string -> RegistryReply, ssmOnly: bool): seq<Instance>
  {
    Select(DescribeAll(seen, registry), Keeper(ssmOnly))
  }

  /** Reservations contribute their instances one reservation after another. */
  lemma FlattenStep(rs: seq<Reservation>, i: nat)
    requires i < |rs|
    ensures Flatten(rs[..i + 1]) == Flatten(rs[..i]) + rs[i].instances
  {
    assert rs[..i + 1][..i] == rs[..i];
  }

  /** Describing one more instance extends the listing by that instance, unless the drop rule removes it. */
  lemma ListingStep(seen: seq<RawInstance>, raw: RawInstance, registry: string -> RegistryReply, ssmOnly: bool)
    ensures Kept(seen + [raw], registry, ssmOnly) ==
      Kept(seen, registry, ssmOnly) +
      (if !ssmOnly || CheckSsmStatus(registry(raw.id)) == Available then [Describe(raw, registry)] else [])
  {
    assert DescribeAll(seen + [raw], registry) == DescribeAll(seen, registry) + [Describe(raw, registry)];
  }

  /** Listing distributes over concatenation of described instances. */
  lemma KeptAppend(a: seq<RawInstance>, b: seq<RawInstance>, registry: string -> RegistryReply, ssmOnly: bool)
    ensures Kept(a + b, registry, ssmOnly) == Kept(a, registry, ssmOnly) + Kept(b, registry, ssmOnly)
  {
    assert DescribeAll(a + b, registry) == DescribeAll(a, registry) + DescribeAll(b, registry);
    SelectAppend(DescribeAll(a, registry), DescribeAll(b, registry), Keeper(ssmOnly));
  }

  /** Describing instance `j` of a batch extends the listing of the instances before it. */
  lemma KeptPrefixStep(batch: seq<RawInstance>, j: nat, registry: string -> RegistryReply, ssmOnly: bool)
    requires j < |batch|
    ensures Kept(batch[..j + 1], registry, ssmOnly) ==
      Kept(batch[..j], registry, ssmOnly) +
      (if !ssmOnly || CheckSsmStatus(registry(batch[j].id)) == Available then [Describe(batch[j], registry)] else [])
  {
    assert batch[..j + 1] == batch[..j] + [batch[j]];
    ListingStep(batch[..j], batch[j], registry, ssmOnly);
  }

  /** The body of the inner loop: describe instance `j` and keep it unless the drop rule removes it. */
  method KeepNext(kept: seq<Instance>, batch: seq<RawInstance>, j: nat, registry: string -> RegistryReply, ssmOnly: bool)
    returns (more: seq<Instance>)
    requires j < |batch| && kept == Kept(batch[..j], registry, ssmOnly)
    ensures more == Kept(batch[..j + 1], registry, ssmOnly)
  {
    var record := Describe(batch[j], registry);
    KeptPrefixStep(batch, j, registry, ssmOnly);
    more := kept;
    if !(ssmOnly && record.ssmStatus != Available) {
      more := kept + [record];
    }
  }

  /** The inner loop of `list_instances`: name, classify and keep or drop each instance of one reservation. */
  method ListReservation(batch: seq<RawInstance>, registry: string -> RegistryReply, ssmOnly: bool)
    returns (kept: seq<Instance>)
    ensures kept == Kept(batch, registry, ssmOnly)
  {
    kept := [];
    var j := 0;
    while j < |batch|
      invariant 0 <= j <= |batch|
      invariant kept == Kept(batch[..j], registry, ssmOnly)
    {
      kept := KeepNext(kept, batch, j, registry, ssmOnly);
      j := j + 1;
    }
    assert batch[..j] == batch;
  }

  /**
   `list_instances`: build the filters, ask the inventory, then walk the
   reservations in order, keeping what the inner loop keeps.
   */
  method ListInstances(q: Query, describe: seq<Filter> -> seq<Reservation>, registry: string -> RegistryReply)
    returns (instances: seq<Instance>)
    ensures instances == Listing(describe(BuildFilters(q)), registry, q.ssmOnly)
  {
    var filters := BuildFilters(q);
    var response := describe(filters);
    instances := [];
    var i := 0;
    while i < |response|
      invariant 0 <= i <= |response|
      invariant instances == Kept(Flatten(response[..i]), registry, q.ssmOnly)
    {
      var kept := ListReservation(response[i].instances, registry, q.ssmOnly);
      FlattenStep(response, i);
      KeptAppend(Flatten(response[..i]), response[i].instances, registry, q.ssmOnly);
      instances := instances + kept;
      i := i + 1;
    }
    assert response[..i] == response;
  }
}
