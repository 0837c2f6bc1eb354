/** The storefront's order-status client (apps/storefront/src/lib/sse-client.ts): the
    `SSEOrderTracker` state machine around one browser EventSource, with exponential-backoff
    reconnects, and the state the `useOrderTracking` hook derives from the tracker's callbacks.

    The browser's callbacks and the tracker's `setTimeout`s are explicit events on the tracker
    object: `OnOpen`, `OnError`, `OnMessage`, and `FireTimer` for a pending timeout. The callbacks
    the tracker invokes (`onUpdate`, `onError`, `onComplete`) are recorded, in order, in `notices`. */
module SseClient {
  import opened Wrappers
  import opened Records
  import opened EventStream

  const MaxReconnectAttempts := 5
  const ReconnectDelay := 1000
  /** The delay before `disconnect()` and `onComplete` after a DELIVERED update, in ms. */
  const CompleteDelay := 2000
  /** `connect`'s default `apiBaseUrl`. */
  const DefaultApiBase := "http://localhost:3000"
  /** The message the hook shows after a connection error. */
  const ReconnectMessage := "Connection lost. Attempting to reconnect..."

  const StreamPrefix := "/api/orders/"
  const StreamSuffix := "/stream"

  /** `${apiBaseUrl}/api/orders/${orderId}/stream` */
  function StreamUrl(apiBaseUrl: string, orderId: string): string {
    apiBaseUrl + StreamPrefix + orderId + StreamSuffix
  }

  /** The server's route `/api/orders/:id/stream`: the id segment of a matching path, which is
      non-empty and holds no `/`. */
  function StreamRouteParam(path: string): (r: Option<string>)
    ensures r.Some? ==> r.value != [] && '/' !in r.value && path == StreamPrefix + r.value + StreamSuffix
  {
    if |path| > |StreamPrefix| + |StreamSuffix| && StreamPrefix <= path && path[|path| - |StreamSuffix|..] == StreamSuffix then
      var id := path[|StreamPrefix|..|path| - |StreamSuffix|];
      assert path == path[..|StreamPrefix|] + id + path[|path| - |StreamSuffix|..];
      if '/' in id then None else Some(id)
    else None
  }

  /** The path the tracker requests reaches the stream endpoint with the tracker's order id, for
      any id that is one path segment. */
  lemma StreamUrlRoutes(apiBaseUrl: string, orderId: string)
    requires orderId != [] && '/' !in orderId
    ensures StreamUrl(apiBaseUrl, orderId) == apiBaseUrl + (StreamPrefix + orderId + StreamSuffix)
    ensures StreamRouteParam(StreamPrefix + orderId + StreamSuffix) == Some(orderId)
  {
    var path := StreamPrefix + orderId + StreamSuffix;
    assert path[..|StreamPrefix|] == StreamPrefix;
    assert path[|path| - |StreamSuffix|..] == StreamSuffix;
    assert path[|StreamPrefix|..|path| - |StreamSuffix|] == orderId;
  }

  function Pow2(n: nat): (r: nat)
    ensures r >= 1
  {
    if n == 0 then 1 else 2 * Pow2(n - 1)
  }

  /** The delays of the first `n` reconnects scheduled after an open: 1000·2^(k-1) for attempt k. */
  function Backoff(n: nat): (r: seq<nat>)
    ensures |r| == n && forall k :: 0 <= k < n ==> r[k] == ReconnectDelay * Pow2(k)
  {
    if n == 0 then [] else Backoff(n - 1) + [ReconnectDelay * Pow2(n - 1)]
  }

  /** The whole backoff schedule: 1000, 2000, 4000, 8000 and 16000 ms. */
  lemma BackoffSchedule()
    ensures Backoff(MaxReconnectAttempts) == [1000, 2000, 4000, 8000, 16000]
  {}

  /** `EventSource.readyState` */
  datatype ReadyState = Connecting | Open | Closed

  /** One EventSource the tracker constructed, with the `apiBaseUrl` of the `connect` call that
      constructed it, which that call's `onerror` handler closes over. */
  datatype Source = Source(serial: nat, apiBaseUrl: string, url: string, readyState: ReadyState)

  /** A pending `setTimeout` of the tracker. */
  datatype Timer =
    | Reconnect(delay: nat, apiBaseUrl: string)  // `disconnect(); connect(apiBaseUrl)`
    | Complete                                   // `disconnect(); onComplete?.()`

  /** A callback invocation: `onUpdate(update)`, `onError(event)`, `onComplete()`. The update is
      whatever `JSON.parse` produced from the event data; for this server that is a payload. */
  datatype Notice = Updated(update: Payload) | Errored | Completed

  /** An update whose `status` property is `'DELIVERED'`; an `{ error }` object has none. */
  predicate IsDelivered(p: Payload) {
    p.SnapshotPayload? && p.snapshot.status == DELIVERED
  }

  class SseOrderTracker {
    const orderId: string
    /** `eventSource`, null as `None`. */
    var eventSource: Option<Source>
    var reconnectAttempts: nat
    /** The serial number the next EventSource gets. */
    var nextSerial: nat
    /** The serials of the sources `close()` was called on. */
    var closed: set<nat>
    /** The timeouts scheduled and not yet fired, in scheduling order. */
    var timers: seq<Timer>
    /** The callbacks invoked so far. */
    var notices: seq<Notice>
    /** The delays of the reconnects scheduled since the last open. */
    ghost var delaysSinceOpen: seq<nat>

    /** The counter never exceeds its cap, and it counts exactly the reconnects scheduled since the
        last open, which followed the backoff schedule. The current source is one that has not been
        closed, opened on the stream URL of its own base. */
    ghost predicate Valid()
      reads this
    {
      && reconnectAttempts <= MaxReconnectAttempts
      && delaysSinceOpen == Backoff(reconnectAttempts)
      && (eventSource.Some? ==> eventSource.value.serial < nextSerial && eventSource.value.serial !in closed)
      && (eventSource.Some? ==> eventSource.value.url == StreamUrl(eventSource.value.apiBaseUrl, orderId))
      && (forall n :: n in closed ==> n < nextSerial)
    }

    constructor (orderId: string)
      ensures Valid() && this.orderId == orderId
      ensures eventSource == None && reconnectAttempts == 0 && nextSerial == 0
      ensures timers == [] && notices == [] && closed == {}
    {
      this.orderId := orderId;
      eventSource := None;
      reconnectAttempts := 0;
      nextSerial := 0;
      closed := {};
      timers := [];
      notices := [];
      delaysSinceOpen := [];
    }

    /** `isConnected()`: a source exists and is OPEN. */
    function IsConnected(): (b: bool)
      reads this
      ensures b <==> eventSource.Some? && eventSource.value.readyState == Open
    {
      match eventSource
      case None => false
      case Some(s) => s.readyState == Open
    }

    /** `disconnect()`: closes and drops the source if there is one; a second call does nothing. */
    method Disconnect()
      requires Valid()
      modifies this`eventSource, this`closed
      ensures Valid()
      ensures eventSource == None
      ensures closed == if old(eventSource).Some? then old(closed) + {old(eventSource).value.serial} else old(closed)
    {
      if eventSource.Some? {
        closed := closed + {eventSource.value.serial};
        eventSource := None;
      }
    }

    /** `connect(apiBaseUrl)`: closes the current source, if any, and opens a new one on the
        order's stream URL. The attempt counter is kept. */
    method Connect(apiBaseUrl: string)
      requires Valid()
      modifies this`eventSource, this`closed, this`nextSerial
      ensures Valid()
      ensures eventSource == Some(Source(old(nextSerial), apiBaseUrl, StreamUrl(apiBaseUrl, orderId), Connecting))
      ensures nextSerial == old(nextSerial) + 1
      ensures closed == if old(eventSource).Some? then old(closed) + {old(eventSource).value.serial} else old(closed)
    {
      if eventSource.Some? {
        Disconnect();
      }
      eventSource := Some(Source(nextSerial, apiBaseUrl, StreamUrl(apiBaseUrl, orderId), Connecting));
      nextSerial := nextSerial + 1;
    }

    /** `handleReconnect(apiBaseUrl)`: at the cap it schedules nothing; otherwise it counts the
        attempt and schedules a reconnect after 1000·2^(attempts-1) ms. */
    method HandleReconnect(apiBaseUrl: string)
      requires Valid()
      modifies this`reconnectAttempts, this`timers, this`delaysSinceOpen
      ensures Valid()
      ensures old(reconnectAttempts) >= MaxReconnectAttempts ==>
        reconnectAttempts == old(reconnectAttempts) && timers == old(timers)
      ensures old(reconnectAttempts) < MaxReconnectAttempts ==>
        && reconnectAttempts == old(reconnectAttempts) + 1
        && timers == old(timers) + [Reconnect(ReconnectDelay * Pow2(reconnectAttempts - 1), apiBaseUrl)]
    {
      if reconnectAttempts >= MaxReconnectAttempts {
        return;
      }
      reconnectAttempts := reconnectAttempts + 1;
      var delay := ReconnectDelay * Pow2(reconnectAttempts - 1);
      timers := timers + [Reconnect(delay, apiBaseUrl)];
      delaysSinceOpen := delaysSinceOpen + [delay];
    }

    /** The source's `onopen`: the attempt counter starts over. */
    method OnOpen()
      requires Valid() && eventSource.Some?
      modifies this`eventSource, this`reconnectAttempts, this`delaysSinceOpen
      ensures Valid()
      ensures reconnectAttempts == 0
      ensures eventSource == Some(old(eventSource).value.(readyState := Open))
    {
      eventSource := Some(eventSource.value.(readyState := Open));
      reconnectAttempts := 0;
      delaysSinceOpen := [];
    }

    /** The source's `onerror`, after the browser has moved the source to `stateAfter`
        (CONNECTING while it retries by itself, CLOSED when it gives up): `onError` is invoked and
        a reconnect is requested on the base of the `connect` call that opened the source, so the
        reconnect reopens the same URL. */
    method OnError(stateAfter: ReadyState)
      requires Valid() && eventSource.Some? && stateAfter != Open
      modifies this`eventSource, this`notices, this`reconnectAttempts, this`timers, this`delaysSinceOpen
      ensures Valid()
      ensures eventSource == Some(old(eventSource).value.(readyState := stateAfter))
      ensures notices == old(notices) + [Errored]
      ensures old(reconnectAttempts) >= MaxReconnectAttempts ==>
        reconnectAttempts == old(reconnectAttempts) && timers == old(timers)
      ensures old(reconnectAttempts) < MaxReconnectAttempts ==>
        && reconnectAttempts == old(reconnectAttempts) + 1
        && timers == old(timers) + [Reconnect(ReconnectDelay * Pow2(reconnectAttempts - 1), old(eventSource).value.apiBaseUrl)]
        && StreamUrl(timers[|timers| - 1].apiBaseUrl, orderId) == old(eventSource).value.url
    {
      eventSource := Some(eventSource.value.(readyState := stateAfter));
      notices := notices + [Errored];
      HandleReconnect(eventSource.value.apiBaseUrl);
    }

    /** The source's `onmessage`. `parsed` is `JSON.parse(event.data)`, `None` when it throws: the
        error is caught and nothing else happens. Otherwise the value goes to `onUpdate` unchanged,
        and a DELIVERED update schedules the completion timeout. */
    method OnMessage(parsed: Option<Payload>)
      requires Valid() && eventSource.Some?
      modifies this`notices, this`timers
      ensures Valid()
      ensures parsed.None? ==> notices == old(notices) && timers == old(timers)
      ensures parsed.Some? ==>
        && notices == old(notices) + [Updated(parsed.value)]
        && timers == old(timers) + (if IsDelivered(parsed.value) then [Complete] else [])
    {
      match parsed
      case None =>
      case Some(update) =>
        notices := notices + [Updated(update)];
        if IsDelivered(update) {
          timers := timers + [Complete];
        }
    }

    /** The pending timeout `timers[i]` fires. */
    method FireTimer(i: nat)
      requires Valid() && i < |timers|
      modifies this`eventSource, this`closed, this`nextSerial, this`timers, this`notices
      ensures Valid()
      ensures timers == old(timers[..i] + timers[i + 1..])
      ensures closed == if old(eventSource).Some? then old(closed) + {old(eventSource).value.serial} else old(closed)
      ensures match old(timers[i])
        case Reconnect(_, base) =>
          eventSource == Some(Source(old(nextSerial), base, StreamUrl(base, orderId), Connecting)) && notices == old(notices)
        case Complete =>
          eventSource == None && notices == old(notices) + [Completed]
    {
      var t := timers[i];
      timers := timers[..i] + timers[i + 1..];
      match t
      case Reconnect(_, base) =>
        Disconnect();
        Connect(base);
      case Complete =>
        Disconnect();
        notices := notices + [Completed];
    }
  }

  /** `useOrderTracking(orderId)` on mount: no tracker for a null or empty id; otherwise a fresh
      tracker connected to the default API base. */
  method MountOrderTracking(orderId: Option<string>) returns (tracker: Option<SseOrderTracker>)
    ensures tracker.None? <==> !Truthy(orderId)
    ensures tracker.Some? ==>
      && fresh(tracker.value) && tracker.value.Valid() && tracker.value.orderId == orderId.value
      && tracker.value.eventSource == Some(Source(0, DefaultApiBase, StreamUrl(DefaultApiBase, orderId.value), Connecting))
      && tracker.value.notices == [] && tracker.value.timers == []
  {
    if !Truthy(orderId) {
      return None;
    }
    var t := new SseOrderTracker(orderId.value);
    t.Connect(DefaultApiBase);
    tracker := Some(t);
  }

  // ---------------------------------------------------------------------------
  // The hook's state

  /** The hook's `status`, `isConnected` and `error` state variables. */
  datatype HookState = HookState(status: Option<Payload>, isConnected: bool, error: Option<string>)

  /** What one callback does to the hook's state. */
  function HookStep(h: HookState, n: Notice): HookState {
    match n
    case Updated(u) => HookState(Some(u), true, None)
    case Errored => h.(error := Some(ReconnectMessage), isConnected := false)
    case Completed => h.(isConnected := false)
  }

  /** The hook's state after the callbacks `ns`, starting from its initial state. */
  function HookAfter(ns: seq<Notice>): HookState {
    if ns == [] then HookState(None, false, None)
    else HookStep(HookAfter(ns[..|ns| - 1]), ns[|ns| - 1])
  }

  /** `isConnected` holds exactly when the last callback was an update. */
  lemma HookConnected(ns: seq<Notice>)
    ensures HookAfter(ns).isConnected <==> ns != [] && ns[|ns| - 1].Updated?
  {}

  /** `status` is the last update received, and null before any. */
  lemma {:induction false} HookStatus(ns: seq<Notice>)
    ensures HookAfter(ns).status.None? <==> forall k :: 0 <= k < |ns| ==> !ns[k].Updated?
    ensures HookAfter(ns).status.Some? ==>
      exists k :: 0 <= k < |ns| && ns[k] == Updated(HookAfter(ns).status.value)
                  && forall j :: k < j < |ns| ==> !ns[j].Updated?
  {
    if ns != [] {
      var init := ns[..|ns| - 1];
      HookStatus(init);
      assert forall k :: 0 <= k < |init| ==> init[k] == ns[k];
      if !ns[|ns| - 1].Updated? && HookAfter(init).status.Some? {
        var k :| 0 <= k < |init| && init[k] == Updated(HookAfter(init).status.value)
                  && forall j :: k < j < |init| ==> !init[j].Updated?;
        assert ns[k] == Updated(HookAfter(ns).status.value);
      }
    }
  }

  /** The reconnect message is shown exactly when an error came after the last update; it is the
      only error text the hook sets. */
  lemma {:induction false} HookError(ns: seq<Notice>)
    ensures HookAfter(ns).error.Some? ==> HookAfter(ns).error.value == ReconnectMessage
    ensures HookAfter(ns).error.Some? <==>
      exists k :: 0 <= k < |ns| && ns[k].Errored? && forall j :: k < j < |ns| ==> !ns[j].Updated?
  {
    if ns != [] {
      var init := ns[..|ns| - 1];
      HookError(init);
      assert forall k :: 0 <= k < |init| ==> init[k] == ns[k];
      var last := ns[|ns| - 1];
      if last.Errored? {
        assert ns[|ns| - 1].Errored?;
      } else if last.Updated? {
        assert forall k :: 0 <= k < |ns| ==> !(ns[k].Errored? && forall j :: k < j < |ns| ==> !ns[j].Updated?) by {
          forall k | 0 <= k < |ns| && ns[k].Errored? ensures !(forall j :: k < j < |ns| ==> !ns[j].Updated?) {
            assert k < |ns| - 1;
          }
        }
      } else {
        if HookAfter(init).error.Some? {
          var k :| 0 <= k < |init| && init[k].Errored? && forall j :: k < j < |init| ==> !init[j].Updated?;
          assert ns[k].Errored? && forall j :: k < j < |ns| ==> !ns[j].Updated?;
        }
        if exists k :: 0 <= k < |ns| && ns[k].Errored? && forall j :: k < j < |ns| ==> !ns[j].Updated? {
          var k :| 0 <= k < |ns| && ns[k].Errored? && forall j :: k < j < |ns| ==> !ns[j].Updated?;
          assert k < |init|;
          assert init[k].Errored? && forall j :: k < j < |init| ==> !init[j].Updated?;
        }
      }
    }
  }
}
