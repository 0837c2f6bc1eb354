/** The storefront's live order-status card (apps/storefront/src/components/OrderTracking.tsx):
    what it shows for the state the tracking hook holds. */
module OrderTracking {
  import opened Wrappers
  import opened Records
  import opened EventStream
  import opened SseClient

  /** One entry of `statusConfig`. */
  datatype Badge = Badge(color: string, icon: string, caption: string)

  /** `statusConfig`, in its key order, which is the lifecycle order. */
  const Badges: seq<Badge> := [
    Badge("bg-yellow-100 text-yellow-800", "\U{23F3}", "Pending"),
    Badge("bg-blue-100 text-blue-800", "\U{1F504}", "Processing"),
    Badge("bg-purple-100 text-purple-800", "\U{1F4E6}", "Shipped"),
    Badge("bg-green-100 text-green-800", "\U{2705}", "Delivered")
  ]

  const CheckMark: string := "\U{2713}"
  const LiveText: string := "Live tracking active"
  const LostText: string := "Connection lost"

  /** `array.indexOf(x)`: the first position of `x`, or -1. */
  function IndexOf(s: seq<string>, x: string): (r: int)
    ensures -1 <= r < |s|
    ensures r >= 0 ==> s[r] == x && forall k :: 0 <= k < r ==> s[k] != x
    ensures r == -1 <==> x !in s
  {
    if s == [] then -1
    else if s[0] == x then 0
    else
      var r := IndexOf(s[1..], x);
      if r == -1 then -1 else r + 1
  }

  /** One row of the progress timeline. */
  datatype Step = Step(key: string, caption: string, active: bool, completed: bool, mark: string)

  /** The timeline rows for a known status (lines 77-80). */
  function Steps(status: string): (r: seq<Step>)
    ensures |r| == |Lifecycle|
  {
    seq(|Lifecycle|, k requires 0 <= k < |Lifecycle| =>
      var completed := IndexOf(Lifecycle, status) >= IndexOf(Lifecycle, Lifecycle[k]);
      Step(Lifecycle[k], Badges[k].caption, status == Lifecycle[k], completed,
           if completed then CheckMark else Badges[k].icon))
  }

  /** The card around a snapshot. */
  datatype Card = Card(
    connection: string,
    error: Option<string>,
    badge: Badge,
    carrierAndTracking: Option<(string, string)>,
    estimatedDelivery: Option<Date>,
    steps: seq<Step>)

  /** What renders: the spinner, the card, or a render that fails —
      `statusConfig[status.status]` is undefined for an `{ error }` payload or a status outside
      the enumeration, and reading `.color` from it throws. A status naming an `Object.prototype`
      member would find an inherited value instead; such statuses count as outside the enumeration
      here. */
  datatype View = Loading | Failed | Shown(card: Card)

  /** The component (lines 9-96) for the hook's state. */
  function Render(h: HookState): View {
    match h.status
    case None => Loading
    case Some(ErrorPayload(_)) => Failed
    case Some(SnapshotPayload(s)) =>
      var i := IndexOf(Lifecycle, s.status);
      if i < 0 then Failed
      else
        Shown(Card(
          if h.isConnected then LiveText else LostText,
          if h.error.Some? && h.error.value != "" then h.error else None,
          Badges[i],
          if Truthy(s.carrier) && Truthy(s.trackingNumber) then Some((s.carrier.value, s.trackingNumber.value)) else None,
          s.estimatedDelivery,
          Steps(s.status)))
  }

  /** The timeline of a known status: the steps up to and including the current one are
      completed and carry the check mark, the later ones are not, and exactly the current step
      is active. */
  lemma StepsProgress(c: nat)
    requires c < |Lifecycle|
    ensures var r := Steps(Lifecycle[c]);
      && (forall k :: 0 <= k < |r| ==> r[k].key == Lifecycle[k] && r[k].caption == Badges[k].caption)
      && (forall k :: 0 <= k < |r| ==> (r[k].completed <==> k <= c))
      && (forall k :: 0 <= k < |r| ==> (r[k].active <==> k == c))
      && (forall k :: 0 <= k < |r| ==> r[k].mark == if k <= c then CheckMark else Badges[k].icon)
  {
    var r := Steps(Lifecycle[c]);
    LifecycleIndex(c);
    forall k | 0 <= k < |r| ensures r[k].completed <==> k <= c {
      LifecycleIndex(k);
    }
  }

  /** The statuses of the lifecycle are different, so each is found at its own position. */
  lemma LifecycleIndex(k: nat)
    requires k < |Lifecycle|
    ensures IndexOf(Lifecycle, Lifecycle[k]) == k
  {
    assert forall i, j :: 0 <= i < j < |Lifecycle| ==> Lifecycle[i] != Lifecycle[j];
  }

  /** The spinner shows exactly until the first update arrives; the render fails exactly for an
      `{ error }` payload or an unknown status; otherwise the badge is the status's own. */
  lemma RenderCases(h: HookState)
    ensures Render(h) == Loading <==> h.status == None
    ensures Render(h) == Failed <==>
      h.status.Some? && (h.status.value.ErrorPayload? || h.status.value.snapshot.status !in Lifecycle)
    ensures Render(h).Shown? ==>
      (exists c :: 0 <= c < |Lifecycle| && h.status.value.snapshot.status == Lifecycle[c] && Render(h).card.badge == Badges[c])
  {
    if h.status.Some? && h.status.value.SnapshotPayload? {
      var i := IndexOf(Lifecycle, h.status.value.snapshot.status);
      if i >= 0 {
        assert h.status.value.snapshot.status == Lifecycle[i];
      }
    }
  }

  /** What the card shows besides the badge: the live indicator follows `isConnected`, the error
      box appears for a non-empty error, carrier and tracking number appear only together and only
      when both are non-empty, and the delivery estimate appears when the snapshot has one. */
  lemma CardShows(h: HookState)
    requires Render(h).Shown?
    ensures var c := Render(h).card; var s := h.status.value.snapshot;
      && (c.connection == LiveText <==> h.isConnected)
      && (c.error.Some? <==> h.error.Some? && h.error.value != "")
      && (c.error.Some? ==> c.error == h.error)
      && (c.carrierAndTracking.Some? <==> Truthy(s.carrier) && Truthy(s.trackingNumber))
      && (c.carrierAndTracking.Some? ==> c.carrierAndTracking.value == (s.carrier.value, s.trackingNumber.value))
      && c.estimatedDelivery == s.estimatedDelivery
  {}

  /** Once the hook's last callback was an update with a known status, the card shows live
      tracking, no error, and that status's badge. */
  lemma AfterUpdateLive(ns: seq<Notice>, s: Snapshot, c: nat)
    requires ns != [] && ns[|ns| - 1] == Updated(SnapshotPayload(s))
    requires c < |Lifecycle| && s.status == Lifecycle[c]
    ensures Render(HookAfter(ns)).Shown?
    ensures Render(HookAfter(ns)).card.connection == LiveText
    ensures Render(HookAfter(ns)).card.error == None
    ensures Render(HookAfter(ns)).card.badge == Badges[c]
  {
    HookAfterUpdate(ns, SnapshotPayload(s));
    RenderLive(HookAfter(ns), s, c);
  }

  /** An update leaves the hook connected, without an error, holding that update. */
  lemma HookAfterUpdate(ns: seq<Notice>, u: Payload)
    requires ns != [] && ns[|ns| - 1] == Updated(u)
    ensures HookAfter(ns) == HookState(Some(u), true, None)
  {}

  lemma RenderLive(h: HookState, s: Snapshot, c: nat)
    requires h == HookState(Some(SnapshotPayload(s)), true, None)
    requires c < |Lifecycle| && s.status == Lifecycle[c]
    ensures Render(h).Shown? && Render(h).card.badge == Badges[c]
    ensures Render(h).card.connection == LiveText && Render(h).card.error == None
  {
    LifecycleIndex(c);
  }
}
