/**
 The CloudTrail event tool `get_cloudtrail_events` (fluffys/main.py): the
 lookup attributes and request parameters, and the summary of the events
 the lookup returns. The lookup call is the parameter `lookup`; the ISO
 timestamps are kept as text after the `Z` to `+00:00` rewrite the source
 applies before parsing them.
 */
module Trail {
  import opened Common

  datatype LookupAttribute = LookupAttribute(key: string, value: string)

  /** The keyword arguments of the lookup call. */
  datatype LookupParams = LookupParams(
    attributes: seq<LookupAttribute>,
    maxResults: int,
    startTime: Option<string>,
    endTime: Option<string>)

  /** One event as the lookup returns it; every field may be missing. */
  datatype RawEvent = RawEvent(
    eventId: Option<string>,
    eventName: Option<string>,
    eventTime: Option<string>,
    username: Option<string>,
    resources: Option<seq<string>>,
    accessKeyId: Option<string>,
    cloudTrailEvent: Option<string>)

  /** The fields the tool keeps of one event. */
  datatype EventSummary = EventSummary(
    eventId: Option<string>,
    eventName: Option<string>,
    eventTime: Option<string>,
    username: Option<string>,
    resources: Option<seq<string>>)

  /** The lookup's reply, or the exception it raised. */
  datatype LookupReply = LookupOk(events: seq<RawEvent>, nextToken: Option<string>) | LookupRaised(message: string)

  /** The tool's result dictionary: the events with their count, or the failure shape. */
  datatype TrailResult =
    | TrailEvents(totalEvents: int, events: seq<EventSummary>, nextToken: Option<string>)
    | TrailFailed(error: string, status: string)

  const UtcOffset := "+00:00"

  /** `s.replace("Z", "+00:00")`. */
  function ZuluToOffset(s: string): (r: string)
    ensures 'Z' !in r
    ensures 'Z' !in s ==> r == s
    ensures |r| >= |s|
  {
    if |s| == 0 then ""
    else (if s[0] == 'Z' then UtcOffset else [s[0]]) + ZuluToOffset(s[1..])
  }

  /** A single character: `Z` becomes the offset, anything else stays. */
  lemma ZuluOnOneChar(c: char)
    ensures ZuluToOffset([c]) == if c == 'Z' then UtcOffset else [c]
  {
    assert [c][1..] == [];
  }

  /**
   The rewrite works character by character: rewriting a concatenation
   rewrites each part. Together with `ZuluOnOneChar` this fixes the result
   for every input.
   */
  lemma {:induction false} ZuluToOffsetAppend(a: string, b: string)
    ensures ZuluToOffset(a + b) == ZuluToOffset(a) + ZuluToOffset(b)
    decreases |a|
  {
    if |a| == 0 {
      assert a + b == b;
    } else {
      assert (a + b)[0] == a[0];
      assert (a + b)[1..] == a[1..] + b;
      ZuluToOffsetAppend(a[1..], b);
    }
  }

  /** An optional time argument: absent when empty, otherwise its rewritten text. */
  function TimeParam(t: string): Option<string>
  {
    if t != "" then Some(ZuluToOffset(t)) else None
  }

  /**
   The lookup parameters. `ResourceName` always comes first; a given
   `ResourceType` and then a given `EventName` follow. The event-name
   attribute is appended after the parameters are built, and still reaches
   them because they share the same list.
   */
  function BuildLookupParams(resourceName: string, resourceType: string, eventName: string,
                             startTime: string, endTime: string, maxResults: int): LookupParams
  {
    var attributes := [LookupAttribute("ResourceName", resourceName)]
      + (if resourceType != "" then [LookupAttribute("ResourceType", resourceType)] else [])
      + (if eventName != "" then [LookupAttribute("EventName", eventName)] else []);
    LookupParams(attributes, maxResults, TimeParam(startTime), TimeParam(endTime))
  }

  /** The value of the first attribute with key `key`. */
  function AttributeValue(attrs: seq<LookupAttribute>, key: string): Option<string>
  {
    if |attrs| == 0 then None
    else if attrs[0].key == key then Some(attrs[0].value)
    else AttributeValue(attrs[1..], key)
  }

  /**
   The attributes carry exactly the given filters and nothing else: each key
   at most once, in the fixed order name, type, event; every filter can be
   read back from them.
   */
  lemma LookupParamsCarryFilters(resourceName: string, resourceType: string, eventName: string,
                                 startTime: string, endTime: string, maxResults: int)
    ensures var p := BuildLookupParams(resourceName, resourceType, eventName, startTime, endTime, maxResults);
      && p.maxResults == maxResults
      && |p.attributes| == 1 + (if resourceType != "" then 1 else 0) + (if eventName != "" then 1 else 0)
      && p.attributes[0] == LookupAttribute("ResourceName", resourceName)
      && AttributeValue(p.attributes, "ResourceName") == Some(resourceName)
      && AttributeValue(p.attributes, "ResourceType") == (if resourceType != "" then Some(resourceType) else None)
      && AttributeValue(p.attributes, "EventName") == (if eventName != "" then Some(eventName) else None)
      && (eventName != "" ==> p.attributes[|p.attributes| - 1] == LookupAttribute("EventName", eventName))
      && (startTime != "" <==> p.startTime.Some?)
      && (endTime != "" <==> p.endTime.Some?)
  {
    var a := BuildLookupParams(resourceName, resourceType, eventName, startTime, endTime, maxResults).attributes;
    var name := LookupAttribute("ResourceName", resourceName);
    var kind := LookupAttribute("ResourceType", resourceType);
    var event := LookupAttribute("EventName", eventName);
    if resourceType != "" && eventName != "" {
      assert a == [name, kind, event];
      assert AttributeValue([event], "EventName") == Some(eventName);
      assert AttributeValue([kind, event], "ResourceType") == Some(resourceType);
    } else if resourceType != "" {
      assert a == [name, kind];
      assert AttributeValue([kind], "EventName") == None;
    } else if eventName != "" {
      assert a == [name, event];
      assert AttributeValue([event], "ResourceType") == None;
    } else {
      assert a == [name];
    }
  }

  function Summarize(e: RawEvent): EventSummary
  {
    EventSummary(e.eventId, e.eventName, e.eventTime, e.username, e.resources)
  }

  /**
   `get_cloudtrail_events`: any exception of the lookup becomes the failure
   shape; otherwise the events are summarised in order and counted.
   */
  function GetCloudTrailEvents(resourceName: string, resourceType: string, eventName: string,
                               startTime: string, endTime: string, maxResults: int,
                               lookup: LookupParams -> LookupReply): (r: TrailResult)
    ensures var reply := lookup(BuildLookupParams(resourceName, resourceType, eventName, startTime, endTime, maxResults));
      && (reply.LookupRaised? ==> r == TrailFailed(reply.message, "failed"))
      && (reply.LookupOk? ==>
            && r.TrailEvents?
            && r.totalEvents == |r.events| == |reply.events|
            && r.nextToken == reply.nextToken
            && forall k :: 0 <= k < |r.events| ==>
                 var e := reply.events[k];
                 && r.events[k].eventId == e.eventId && r.events[k].eventName == e.eventName
                 && r.events[k].eventTime == e.eventTime && r.events[k].username == e.username
                 && r.events[k].resources == e.resources)
  {
    match lookup(BuildLookupParams(resourceName, resourceType, eventName, startTime, endTime, maxResults))
    case LookupRaised(message) => TrailFailed(message, "failed")
    case LookupOk(raw, nextToken) =>
      var events := seq(|raw|, k requires 0 <= k < |raw| => Summarize(raw[k]));
      TrailEvents(|events|, events, nextToken)
  }
}
