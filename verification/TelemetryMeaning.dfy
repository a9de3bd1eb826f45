/** What the telemetry stores and summarises, in terms of the events alone (`telemetry.py`). */
module TelemetryMeaning {
  import opened Wire
  import opened OrderedMap
  import opened Telemetry

  /** The start of the request under way that the telemetry still remembers. */
  function Remembered(events: seq<NetEvent>, id: string, maxEvents: nat, maxMap: nat): (start: Option<NetEvent>)
    ensures start.Some? ==> start.value.RequestWillBeSent?
  {
    if id != "" && Intact(events, id, maxEvents, maxMap) then Started(events, id) else None
  }

  /** The last event that ended the request, and what came before it. */
  function Ending(events: seq<NetEvent>, id: string): (r: Option<(seq<NetEvent>, NetEvent)>)
    ensures r.Some? ==> Ends(r.value.1)
  {
    if events == [] then None
    else
      var front, e := events[..|events| - 1], events[|events| - 1];
      if e.id == id && Ends(e) then Some((front, e)) else Ending(front, id)
  }

  /** What is to be known of a request with this start and these responses. */
  function MetaOf(start: Option<NetEvent>, status: Option<int>, mime: Option<string>): Option<Meta>
    requires start.Some? ==> start.value.RequestWillBeSent?
  {
    if start.None? then None
    else Some(Meta(start.value.ts, start.value.name, start.value.url, start.value.kind, status, mime))
  }

  lemma KnownMeans(events: seq<NetEvent>, id: string, maxEvents: nat, maxMap: nat)
    requires id != ""
    ensures Get(IngestAll(events, maxEvents, maxMap).req, id)
         == MetaOf(Remembered(events, id, maxEvents, maxMap), LastStatus(events, id), LastMime(events, id))
  {
    RunningRefinesLife(events, id, maxEvents, maxMap);
    MetaMeans(events, id);
  }

  lemma EndRecorded(start: Option<NetEvent>, status: Option<int>, mime: Option<string>, e: NetEvent)
    requires Ends(e) && (start.Some? ==> start.value.RequestWillBeSent?)
    ensures Records(DoneOf(MetaOf(start, status, mime), e), start, status, mime, e)
  {
  }

  /** Every completed record in the table, whatever was pushed out before: it is of the request's last
      ending, with what was remembered of the request then. */
  lemma {:induction false} CompletedMeans(events: seq<NetEvent>, id: string, maxEvents: nat, maxMap: nat)
    requires id != ""
    ensures var done, end := Get(IngestAll(events, maxEvents, maxMap).done, id), Ending(events, id);
            done.Some? ==>
              && end.Some?
              && var (before, e) := end.value;
                 Records(done.value, Remembered(before, id, maxEvents, maxMap), LastStatus(before, id), LastMime(before, id), e)
  {
    if events != [] {
      var front, e := events[..|events| - 1], events[|events| - 1];
      CompletedMeans(front, id, maxEvents, maxMap);
      TablesStayOk(front, maxEvents, maxMap);
      KnownMeans(front, id, maxEvents, maxMap);
      DoneAfter(IngestAll(front, maxEvents, maxMap), e, maxEvents, maxMap, id);
      if Ends(e) {
        EndRecorded(Remembered(front, id, maxEvents, maxMap), LastStatus(front, id), LastMime(front, id), e);
      }
    }
  }

  // ---- The buffers ----

  function UrlAsked(start: Option<NetEvent>): string
    requires start.Some? ==> start.value.RequestWillBeSent?
  {
    if start.Some? && start.value.url.Some? then start.value.url.value else ""
  }

  function NameAsked(start: Option<NetEvent>): Option<string>
    requires start.Some? ==> start.value.RequestWillBeSent?
  {
    if start.Some? then start.value.name else None
  }

  function KindAsked(start: Option<NetEvent>): Option<string>
    requires start.Some? ==> start.value.RequestWillBeSent?
  {
    if start.Some? then start.value.kind else None
  }

  function Took(start: Option<NetEvent>, ts: int): Option<int>
    requires start.Some? ==> start.value.RequestWillBeSent?
  {
    if start.Some? && 0 < start.value.ts <= ts then Some(ts - start.value.ts) else None
  }

  /** Error statuses and failed loads, with the address and the name the request was started with. */
  function NetworkSaid(start: Option<NetEvent>, e: NetEvent): seq<NetworkItem>
    requires start.Some? ==> start.value.RequestWillBeSent?
  {
    match e
    case ResponseReceived(_, ts, Some(status), _, url, kind) =>
      if status < 400 then []
      else [NetworkItem(ts, if url.Some? then url.value else UrlAsked(start), NameAsked(start), Some(status), None, None, kind)]
    case LoadingFailed(_, ts, errorText, blockedReason) =>
      [NetworkItem(ts, UrlAsked(start), NameAsked(start), None, Some(errorText), blockedReason, None)]
    case _ => []
  }

  /** Failed loads, and finished ones with an error status, of a primary kind, slow or large. */
  function HarSaid(start: Option<NetEvent>, status: Option<int>, e: NetEvent): seq<HarItem>
    requires start.Some? ==> start.value.RequestWillBeSent?
  {
    match e
    case LoadingFailed(_, ts, errorText, _) =>
      [HarItem(ts, UrlAsked(start), NameAsked(start), None, None, None, false, Took(start, ts), Some(errorText), None)]
    case LoadingFinished(_, ts, len) =>
      var seen := if start.Some? then status else None;
      var bad := seen.Some? && seen.value >= 400;
      if bad || KindAsked(start) in {Some("Document"), Some("XHR"), Some("Fetch"), Some("Script"), Some("Stylesheet")}
         || (Took(start, ts).Some? && Took(start, ts).value >= 300) || (len.Some? && len.value >= 20_000.0)
      then [HarItem(ts, UrlAsked(start), NameAsked(start), seen, KindAsked(start),
                    if start.Some? && start.value.ts > 0 then Some(start.value.ts) else None,
                    !bad, Took(start, ts), None, len)]
      else []
    case _ => []
  }

  lemma EventSays(events: seq<NetEvent>, e: NetEvent, maxEvents: nat, maxMap: nat)
    ensures var start := Remembered(events, e.id, maxEvents, maxMap);
            var known := Known(IngestAll(events, maxEvents, maxMap), e);
            && NetworkItemOf(known, e) == NetworkSaid(start, e)
            && HarItemOf(known, e) == HarSaid(start, LastStatus(events, e.id), e)
  {
    var t, start := IngestAll(events, maxEvents, maxMap), Remembered(events, e.id, maxEvents, maxMap);
    var status, mime := LastStatus(events, e.id), LastMime(events, e.id);
    if e.id != "" {
      KnownMeans(events, e.id, maxEvents, maxMap);
    }
    assert e.ResponseReceived? || Known(t, e) == MetaOf(start, status, mime);
    if e.ResponseReceived? {
      AskedAlike(t, e, start, status, mime);
      ResponseSays(Known(t, e), start, e);
    } else {
      OtherSays(start, status, mime, e);
    }
  }

  /** A response changes nothing of what was asked. */
  lemma AskedAlike(t: Tier0, e: NetEvent, start: Option<NetEvent>, status: Option<int>, mime: Option<string>)
    requires e.ResponseReceived? && (start.Some? ==> start.value.RequestWillBeSent?)
    requires if e.id == "" then start == None else Get(t.req, e.id) == MetaOf(start, status, mime)
    ensures UrlOf(Known(t, e)) == UrlAsked(start) && NameOf(Known(t, e)) == NameAsked(start)
  {
  }

  lemma ResponseSays(meta: Option<Meta>, start: Option<NetEvent>, e: NetEvent)
    requires e.ResponseReceived? && (start.Some? ==> start.value.RequestWillBeSent?)
    requires UrlOf(meta) == UrlAsked(start) && NameOf(meta) == NameAsked(start)
    ensures NetworkItemOf(meta, e) == NetworkSaid(start, e) && HarItemOf(meta, e) == []
  {
  }

  lemma OtherSays(start: Option<NetEvent>, status: Option<int>, mime: Option<string>, e: NetEvent)
    requires !e.ResponseReceived? && (start.Some? ==> start.value.RequestWillBeSent?)
    ensures NetworkItemOf(MetaOf(start, status, mime), e) == NetworkSaid(start, e)
    ensures HarItemOf(MetaOf(start, status, mime), e) == HarSaid(start, status, e)
  {
  }

  /** Everything ever said to the two buffers, read off the events. */
  function AllNetworkSaid(events: seq<NetEvent>, maxEvents: nat, maxMap: nat): seq<NetworkItem> {
    if events == [] then []
    else
      var front, e := events[..|events| - 1], events[|events| - 1];
      AllNetworkSaid(front, maxEvents, maxMap) + NetworkSaid(Remembered(front, e.id, maxEvents, maxMap), e)
  }

  function AllHarSaid(events: seq<NetEvent>, maxEvents: nat, maxMap: nat): seq<HarItem> {
    if events == [] then []
    else
      var front, e := events[..|events| - 1], events[|events| - 1];
      AllHarSaid(front, maxEvents, maxMap) + HarSaid(Remembered(front, e.id, maxEvents, maxMap), LastStatus(front, e.id), e)
  }

  lemma {:induction false} ItemsAreSaid(events: seq<NetEvent>, maxEvents: nat, maxMap: nat)
    ensures NetworkItems(events, maxEvents, maxMap) == AllNetworkSaid(events, maxEvents, maxMap)
    ensures HarItems(events, maxEvents, maxMap) == AllHarSaid(events, maxEvents, maxMap)
  {
    if events != [] {
      ItemsAreSaid(events[..|events| - 1], maxEvents, maxMap);
      EventSays(events[..|events| - 1], events[|events| - 1], maxEvents, maxMap);
    }
  }

  function LatestTime(events: seq<NetEvent>): int {
    if events == [] then 0
    else
      var before, ts := LatestTime(events[..|events| - 1]), events[|events| - 1].ts;
      if ts > before then ts else before
  }

  lemma {:induction false} CursorIsLatest(events: seq<NetEvent>, maxEvents: nat, maxMap: nat)
    ensures IngestAll(events, maxEvents, maxMap).cursor == LatestTime(events)
  {
    if events != [] {
      CursorIsLatest(events[..|events| - 1], maxEvents, maxMap);
    }
  }

  /** Each buffer holds the newest part of what the events say, and the cursor is the latest of their times. */
  lemma BuffersMean(events: seq<NetEvent>, maxEvents: nat, maxMap: nat)
    ensures var t := IngestAll(events, maxEvents, maxMap);
            && t.network == Newest(AllNetworkSaid(events, maxEvents, maxMap), maxEvents)
            && t.harLite == Newest(AllHarSaid(events, maxEvents, maxMap), maxEvents)
            && 0 <= t.cursor && (forall e :: e in events ==> e.ts <= t.cursor)
            && (t.cursor > 0 ==> exists e :: e in events && e.ts == t.cursor)
  {
    BuffersHoldNewest(events, maxEvents, maxMap);
    ItemsAreSaid(events, maxEvents, maxMap);
    CursorIsLatest(events, maxEvents, maxMap);
    LatestIs(events);
  }

  lemma {:induction false} LatestIs(events: seq<NetEvent>)
    ensures 0 <= LatestTime(events) && (forall e :: e in events ==> e.ts <= LatestTime(events))
    ensures LatestTime(events) > 0 ==> exists e :: e in events && e.ts == LatestTime(events)
  {
    if events != [] {
      var front, last := events[..|events| - 1], events[|events| - 1];
      LatestIs(front);
      assert events == front + [last];
    }
  }
}
