/**
  The snackbar service: a FIFO of pending messages and a lock that is set
  while one is open. Queueing shows the head at once when unlocked (or when
  the message overwrites the queue); a dismissal, reported by the widget,
  drops the head and unlocks, and the unlock shows the next head.
 */
module Snackbar {
  import opened Wrappers

  /** The CSS classes a message may carry. */
  datatype PanelClass =
    | SnackbarSuccess | SnackbarError | SnackbarInfo | SnackbarWarning
    | MatToolbar | MatPrimary | MatAccent | MatWarn

  /** `snackbarValue`: only `message` is required. */
  datatype SnackData = SnackData(
    message: string,
    action: Option<string>,
    duration: Option<int>,
    overwrite: Option<bool>,
    panelClass: Option<seq<PanelClass>>)

  /** What is handed to the widget when a message is opened. */
  datatype Opened = Opened(message: string, action: Option<string>, duration: int, panelClass: seq<PanelClass>)

  /**
    The service: the pending queue (its head is the message on screen while
    locked), the lock (`null` until first set) and every message opened so far.
   */
  datatype Service = Service(queue: seq<SnackData>, locked: Option<bool>, shown: seq<Opened>)

  /** Default display time in milliseconds. */
  const DefaultDuration: int := 6000

  /** Label given to a message queued without an action. */
  const DefaultAction: string := "Dismiss"

  /**
    The service as constructed; the lock's initial `null` emission tries to
    show the head of the empty queue, which does nothing.
   */
  const Initial: Service := Service([], None, [])

  /** The widget configuration: `duration ?? 6000`, `panelClass ?? []`. */
  function Config(data: SnackData): (o: Opened)
    ensures o.message == data.message && o.action == data.action
    ensures data.duration.None? ==> o.duration == DefaultDuration
    ensures data.duration.Some? ==> o.duration == data.duration.value
    ensures data.panelClass.None? ==> o.panelClass == []
    ensures data.panelClass.Some? ==> o.panelClass == data.panelClass.value
  {
    Opened(data.message, data.action, data.duration.GetOr(DefaultDuration), data.panelClass.GetOr([]))
  }

  /** `queue[0]`, which is `undefined` for an empty queue. */
  function Head(queue: seq<SnackData>): Option<SnackData> {
    if |queue| == 0 then None else Some(queue[0])
  }

  predicate IsLocked(s: Service) { s.locked == Some(true) }

  /** `showSnackbar`: nothing for `undefined`; otherwise lock and open the message. */
  function Show(s: Service, data: Option<SnackData>): (r: Service)
    ensures data.None? ==> r == s
    ensures data.Some? ==> r.locked == Some(true) && r.shown == s.shown + [Config(data.value)]
    ensures r.queue == s.queue
  {
    match data
    case None => s
    case Some(d) => s.(locked := Some(true), shown := s.shown + [Config(d)])
  }

  /** A missing or empty action becomes `'Dismiss'`. */
  function WithDefaultAction(data: SnackData): (d: SnackData)
    ensures d.action == if data.action.None? || data.action == Some("") then Some(DefaultAction) else data.action
    ensures d.message == data.message && d.duration == data.duration
    ensures d.overwrite == data.overwrite && d.panelClass == data.panelClass
  {
    if data.action.None? || data.action == Some("") then data.(action := Some(DefaultAction)) else data
  }

  /**
    `queueSnackbar`: nothing for `undefined`; otherwise default the action,
    replace the queue (overwrite) or append, and show the head when the
    service is not locked or the message overwrites.
   */
  function Queue(s: Service, data: Option<SnackData>): (r: Service)
    ensures data.None? ==> r == s
    ensures data.Some? && data.value.overwrite == Some(true) ==> r.queue == [WithDefaultAction(data.value)]
    ensures data.Some? && data.value.overwrite != Some(true) ==> r.queue == s.queue + [WithDefaultAction(data.value)]
    ensures data.Some? ==>
      (|r.shown| == |s.shown| + 1 <==> !IsLocked(s) || data.value.overwrite == Some(true))
    ensures data.Some? && (!IsLocked(s) || data.value.overwrite == Some(true)) ==>
      r.shown == s.shown + [Config(r.queue[0])] && IsLocked(r)
    ensures data.Some? && !(!IsLocked(s) || data.value.overwrite == Some(true)) ==> r.shown == s.shown && r.locked == s.locked
  {
    match data
    case None => s
    case Some(d0) =>
      var d := WithDefaultAction(d0);
      var queued := s.(queue := if d.overwrite == Some(true) then [d] else s.queue + [d]);
      if !IsLocked(s) || d.overwrite == Some(true) then Show(queued, Head(queued.queue)) else queued
  }

  /**
    The open message was dismissed: drop the head (`shift` on an empty queue
    does nothing), unlock, and the unlock shows the new head if there is one.
   */
  function Dismissed(s: Service): (r: Service)
    ensures r.queue == if |s.queue| == 0 then [] else s.queue[1..]
    ensures |r.queue| > 0 ==> IsLocked(r) && r.shown == s.shown + [Config(r.queue[0])]
    ensures |r.queue| == 0 ==> r.locked == Some(false) && r.shown == s.shown
  {
    var shifted := s.(queue := if |s.queue| == 0 then [] else s.queue[1..], locked := Some(false));
    Show(shifted, Head(shifted.queue))
  }

  /** A message is pending only behind an open one: a non-empty queue means locked. */
  predicate NoneStranded(s: Service) {
    |s.queue| > 0 ==> IsLocked(s)
  }

  /** The service starts, and stays under every event, with no message stranded. */
  lemma NoneStrandedPreserved(s: Service, data: Option<SnackData>)
    ensures NoneStranded(Initial)
    ensures NoneStranded(s) ==> NoneStranded(Queue(s, data)) && NoneStranded(Dismissed(s))
  {
  }

  /** Queueing each of `xs` in turn. */
  function QueueAll(s: Service, xs: seq<SnackData>): Service
    decreases |xs|
  {
    if |xs| == 0 then s else QueueAll(Queue(s, Some(xs[0])), xs[1..])
  }

  /** `n` dismissals in a row. */
  function DismissTimes(s: Service, n: nat): Service
    decreases n
  {
    if n == 0 then s else DismissTimes(Dismissed(s), n - 1)
  }

  /** The configurations of `xs` as they would be opened, message by message. */
  function Configs(xs: seq<SnackData>): (cs: seq<Opened>)
    ensures |cs| == |xs|
    ensures forall i :: 0 <= i < |xs| ==> cs[i] == Config(xs[i])
  {
    if |xs| == 0 then [] else [Config(xs[0])] + Configs(xs[1..])
  }

  /** Each message of `xs` with its default action filled in, in order. */
  function WithDefaultActions(xs: seq<SnackData>): (ds: seq<SnackData>)
    ensures |ds| == |xs|
    ensures forall i :: 0 <= i < |xs| ==> ds[i] == WithDefaultAction(xs[i])
  {
    if |xs| == 0 then [] else [WithDefaultAction(xs[0])] + WithDefaultActions(xs[1..])
  }

  predicate NoOverwrite(xs: seq<SnackData>) {
    forall i :: 0 <= i < |xs| ==> xs[i].overwrite != Some(true)
  }

  /** While locked, queueing without overwrite only appends: nothing is opened. */
  lemma {:induction false} QueueWhileLocked(s: Service, xs: seq<SnackData>)
    requires IsLocked(s) && NoOverwrite(xs)
    ensures QueueAll(s, xs) == s.(queue := s.queue + WithDefaultActions(xs))
    decreases |xs|
  {
    if |xs| > 0 {
      var s1 := Queue(s, Some(xs[0]));
      assert s1 == s.(queue := s.queue + [WithDefaultAction(xs[0])]);
      assert QueueAll(s, xs) == QueueAll(s1, xs[1..]);
      assert NoOverwrite(xs[1..]) by {
        forall i | 0 <= i < |xs[1..]| ensures xs[1..][i].overwrite != Some(true) {
          assert xs[1..][i] == xs[i + 1];
        }
      }
      QueueWhileLocked(s1, xs[1..]);
      WithDefaultActionsCons(s.queue, xs);
    }
  }

  /** Appending the defaulted head of `xs` after `queue`, then the rest of `xs`. */
  lemma WithDefaultActionsCons(queue: seq<SnackData>, xs: seq<SnackData>)
    requires |xs| > 0
    ensures queue + [WithDefaultAction(xs[0])] + WithDefaultActions(xs[1..]) == queue + WithDefaultActions(xs)
  {
    assert WithDefaultActions(xs) == [WithDefaultAction(xs[0])] + WithDefaultActions(xs[1..]);
  }

  /** Dismissing as many times as there are queued messages opens the rest of the queue in order. */
  lemma {:induction false} DismissAll(s: Service)
    requires |s.queue| > 0
    ensures var r := DismissTimes(s, |s.queue|);
      r.queue == [] && r.locked == Some(false) && r.shown == s.shown + Configs(s.queue[1..])
    decreases |s.queue|
  {
    var n := |s.queue|;
    var s1 := Dismissed(s);
    var tail := s.queue[1..];
    assert DismissTimes(s, n) == DismissTimes(s1, n - 1);
    assert s1.queue == tail;
    if n == 1 {
      assert s1.locked == Some(false) && s1.shown == s.shown;
      assert Configs(tail) == [];
    } else {
      assert s1.shown == s.shown + [Config(tail[0])];
      var r := DismissTimes(s1, n - 1);
      assert r.queue == [] && r.locked == Some(false) && r.shown == s1.shown + Configs(tail[1..]) by {
        DismissAll(s1);
      }
      ConfigsCons(s.shown, tail);
    }
  }

  /** Queueing on an idle service without overwrite opens the message at once. */
  lemma QueueOnIdle(s: Service, x: SnackData)
    requires s.queue == [] && !IsLocked(s) && x.overwrite != Some(true)
    ensures Queue(s, Some(x)) == Service([WithDefaultAction(x)], Some(true), s.shown + [Config(WithDefaultAction(x))])
  {
  }

  /** Opening the head of `xs` after `shown`, then the rest of `xs`. */
  lemma ConfigsCons(shown: seq<Opened>, xs: seq<SnackData>)
    requires |xs| > 0
    ensures shown + [Config(xs[0])] + Configs(xs[1..]) == shown + Configs(xs)
  {
    assert Configs(xs) == [Config(xs[0])] + Configs(xs[1..]);
  }

  /**
    Queueing messages without overwrite on an idle service opens the first
    and queues all of them, behind it, in order.
   */
  lemma QueueAllOnIdle(s: Service, xs: seq<SnackData>)
    requires s.queue == [] && !IsLocked(s)
    requires |xs| > 0 && NoOverwrite(xs)
    ensures |WithDefaultActions(xs)| == |xs|
    ensures QueueAll(s, xs) == Service(WithDefaultActions(xs), Some(true), s.shown + [Config(WithDefaultActions(xs)[0])])
  {
    var rest := xs[1..];
    var s1 := Queue(s, Some(xs[0]));
    QueueOnIdle(s, xs[0]);
    assert NoOverwrite(rest) by {
      forall i | 0 <= i < |rest| ensures rest[i].overwrite != Some(true) {
        assert rest[i] == xs[i + 1];
      }
    }
    assert QueueAll(s, xs) == QueueAll(s1, rest);
    QueueWhileLocked(s1, rest);
    assert WithDefaultActions(xs) == [WithDefaultAction(xs[0])] + WithDefaultActions(rest);
  }

  /**
    First in, first out: on an idle service, queueing messages without
    overwrite and then dismissing each opens exactly those messages, in the
    order queued, and leaves the service idle and unlocked.
   */
  lemma {:induction false} FirstInFirstOut(s: Service, xs: seq<SnackData>)
    requires s.queue == [] && !IsLocked(s)
    requires |xs| > 0 && NoOverwrite(xs)
    ensures var r := DismissTimes(QueueAll(s, xs), |xs|);
      r.queue == [] && r.locked == Some(false) && r.shown == s.shown + Configs(WithDefaultActions(xs))
  {
    var ds := WithDefaultActions(xs);
    var q := QueueAll(s, xs);
    QueueAllOnIdle(s, xs);
    DismissAll(q);
    ConfigsCons(s.shown, ds);
  }
}
