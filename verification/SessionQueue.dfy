/**
 The authentication request queue of one session core, together with the two
 plugin proxy flags that gate what the plugin may tell it.

 The module first gives the queue as a state machine over values (State, Event,
 Step), then proves what holds over whole runs of it, and finally the class
 SessionCore, whose methods change their fields in place and are each proved
 to make exactly one of these steps.
 */
module SessionQueue {

  /** One queued D-Bus call. The serial stands for the message itself: it is
      unique, and the calls arrive in serial order. */
  datatype Request = Request(serial: nat, key: string)

  datatype ReplyKind = Canceled | Result | Failure | StartFailed

  /** A reply sent on the message with this serial. */
  datatype Reply = Reply(serial: nat, kind: ReplyKind)

  /** The watcher of the current UI call: absent, waiting, or answered with the
      slot invocation still on its way. */
  datatype Watcher = NoUi | UiPending | UiAnswered

  /** What the plugin process writes back. */
  datatype Response = RespResult | RespError | RespUi(allowed: bool) | RespRefresh | RespStore | RespSignal

  datatype Event =
    | Arrive(key: string, ready: bool)
    | Cancel(key: string)
    | StartNew(processOk: bool)
    | SystemReady
    | Respond(response: Response)
    | Broken                         // an error reported outside the gate (crash, I/O)
    | UiReplied
    | UiDelivered
    | Collect                        // destroy(), called for an idle core

  datatype State = State(
    queue: seq<Request>,
    active: bool,
    canceled: bool,
    watcher: Watcher,
    autoDestruct: bool,
    obtained: bool,                  // the proxy has its terminal response
    engaged: bool,                   // the plugin was given work at least once
    postedStarts: nat,               // startNewRequest calls waiting in the event loop
    arrivals: nat,
    replies: seq<Reply>,
    handed: seq<nat>,                // serials given to the plugin, oldest first
    dropped: set<nat>,               // serials that left without being given to it
    stores: nat,                     // store operations the plugin got through
    gone: bool                       // the core was destroyed
  )

  const INITIAL := State([], false, false, NoUi, true, false, false, 0, 0, [], [], {}, 0, false)

  // ---------------------------------------------------------------- steps

  /** The position of the first request with this key, or the queue's length. */
  function FindKey(queue: seq<Request>, key: string): (i: nat)
    ensures i <= |queue|
    ensures i < |queue| ==> queue[i].key == key
    ensures forall k :: 0 <= k < i ==> queue[k].key != key
  {
    if queue == [] then 0
    else if queue[0].key == key then 0
    else 1 + FindKey(queue[1..], key)
  }

  function RemoveAt(queue: seq<Request>, i: nat): seq<Request>
    requires i < |queue|
  {
    queue[..i] + queue[i + 1..]
  }

  function ArriveStep(s: State, key: string, ready: bool): State {
    s.(queue := s.queue + [Request(s.arrivals, key)],
       arrivals := s.arrivals + 1,
       postedStarts := if ready then s.postedStarts + 1 else s.postedStarts)
  }

  function CancelStep(s: State, key: string): State {
    var i := FindKey(s.queue, key);
    if i == |s.queue| then s
    else
      var answered := s.(replies := s.replies + [Reply(s.queue[i].serial, Canceled)]);
      if i == 0 && s.active then
        answered.(canceled := true, watcher := if s.watcher == UiPending then NoUi else s.watcher)
      else
        answered.(queue := RemoveAt(s.queue, i), dropped := s.dropped + {s.queue[i].serial})
  }

  function RequestDoneStep(s: State): State
    requires s.queue != []
  {
    s.(queue := s.queue[1..],
       active := false,
       postedStarts := s.postedStarts + 1,
       dropped := if s.active then s.dropped else s.dropped + {s.queue[0].serial})
  }

  function StartProcessStep(s: State, processOk: bool): State
    requires s.queue != []
  {
    var head := s.queue[0].serial;
    var started := s.(active := true, handed := s.handed + [head]);
    if processOk then started.(obtained := false, engaged := true)
    else RequestDoneStep(started.(replies := s.replies + [Reply(head, StartFailed)]))
  }

  function StartNewStep(s: State, processOk: bool): State {
    var cleared := s.(canceled := false);
    if s.queue == [] then cleared.(autoDestruct := true)
    else if s.active || s.watcher == UiPending then cleared
    else StartProcessStep(cleared.(autoDestruct := false), processOk)
  }

  /** processResultReply and processError: the head is answered unless it was
      cancelled, and in either case it leaves the queue. */
  function TerminalStep(s: State, kind: ReplyKind): State {
    if s.queue == [] then s
    else if s.canceled then RequestDoneStep(s)
    else RequestDoneStep(s.(replies := s.replies + [Reply(s.queue[0].serial, kind)],
                            watcher := if s.watcher == UiPending then NoUi else s.watcher))
  }

  function UiRequestStep(s: State): State {
    if s.canceled || s.queue == [] then s else s.(watcher := UiPending)
  }

  /** The proxy's gate: nothing is passed on after a terminal response. */
  function RespondStep(s: State, response: Response): State {
    match response
    case RespResult => (if s.obtained then s else TerminalStep(s, Result)).(obtained := true)
    case RespError => (if s.obtained then s else TerminalStep(s, Failure)).(obtained := true)
    case RespUi(allowed) => if s.obtained || !allowed then s else UiRequestStep(s)
    case RespRefresh => if s.obtained then s else UiRequestStep(s)
    case RespStore => if s.obtained then s else s.(stores := s.stores + 1)
    case RespSignal => s
  }

  /** destroy() is refused while a request is active or a dialog is watched. Requests
      that wait go with the core, unanswered. */
  function CollectStep(s: State): State {
    if Refuses(s) then s else s.(gone := true)
  }

  predicate Refuses(s: State) {
    s.active || s.watcher != NoUi
  }

  /** One posted startNewRequest call is consumed. */
  function TakePosted(s: State): State {
    if s.postedStarts > 0 then s.(postedStarts := s.postedStarts - 1) else s
  }

  /** A destroyed core does nothing any more: what is still posted to it is
      discarded with it. */
  function Step(s: State, e: Event): State {
    if s.gone then s else LiveStep(s, e)
  }

  function LiveStep(s: State, e: Event): State {
    match e
    case Arrive(key, ready) => ArriveStep(s, key, ready)
    case Cancel(key) => CancelStep(s, key)
    case StartNew(processOk) => StartNewStep(TakePosted(s), processOk)
    case SystemReady => s.(postedStarts := s.postedStarts + 1)
    case Respond(response) => RespondStep(s, response)
    case Broken => TerminalStep(s, Failure)
    case UiReplied => if s.watcher == UiPending then s.(watcher := UiAnswered) else s
    case UiDelivered => if s.watcher == UiAnswered then s.(watcher := NoUi) else s
    case Collect => CollectStep(s)
  }

  function Run(s: State, es: seq<Event>): State {
    if es == [] then s else Step(Run(s, es[..|es| - 1]), es[|es| - 1])
  }

  /** The events the environment can produce: a posted call runs only if one is
      posted, a plugin that was never given work says nothing, and only a core that
      may be collected is. */
  predicate Enabled(s: State, e: Event) {
    && (e.StartNew? ==> s.postedStarts > 0)
    && (e.Respond? ==> s.engaged)
    && (e.Collect? ==> s.autoDestruct)
  }

  predicate EnabledRun(es: seq<Event>) {
    es == [] || (EnabledRun(es[..|es| - 1]) && Enabled(Run(INITIAL, es[..|es| - 1]), es[|es| - 1]))
  }

  // ------------------------------------------- order: single active, FIFO

  function Serials(queue: seq<Request>): seq<nat> {
    if queue == [] then [] else [queue[0].serial] + Serials(queue[1..])
  }

  /** The requests still waiting to be given to the plugin. */
  function Waiting(s: State): seq<Request> {
    if s.active && s.queue != [] then s.queue[1..] else s.queue
  }

  /** The serials below n, in order, without the dropped ones. */
  function Kept(n: nat, dropped: set<nat>): seq<nat> {
    if n == 0 then []
    else
      var shorter := Kept(n - 1, dropped);
      if n - 1 in dropped then shorter else shorter + [n - 1]
  }

  /** An active request is in the queue, and serials grow along the queue. */
  ghost predicate WellFormed(s: State) {
    && (s.active ==> s.queue != [])
    && (forall i, j :: 0 <= i < j < |s.queue| ==> s.queue[i].serial < s.queue[j].serial)
    && (forall i :: 0 <= i < |s.queue| ==> s.queue[i].serial < s.arrivals)
  }

  /** At most one request is active; it is the head, it is the one last given to
      the plugin, and while it is active the core cannot be collected. What the
      plugin was given, followed by what still waits, is every arrival in order,
      without those that left before being given to it. */
  ghost predicate OrderInv(s: State) {
    && WellFormed(s)
    && (s.active ==> s.handed != []
                     && s.handed[|s.handed| - 1] == s.queue[0].serial && !s.autoDestruct)
    && (forall x :: x in s.dropped ==> x < s.arrivals)
    && s.handed + Serials(Waiting(s)) == Kept(s.arrivals, s.dropped)
  }

  lemma {:induction false} SerialsAppend(a: seq<Request>, b: seq<Request>)
    ensures Serials(a + b) == Serials(a) + Serials(b)
  {
    if a == [] {
      assert a + b == b;
    } else {
      assert (a + b)[1..] == a[1..] + b;
      SerialsAppend(a[1..], b);
    }
  }

  lemma {:induction false} KeptBelow(n: nat, dropped: set<nat>, i: nat)
    requires i < |Kept(n, dropped)|
    ensures Kept(n, dropped)[i] < n
  {
    if i < |Kept(n - 1, dropped)| {
      KeptBelow(n - 1, dropped, i);
    }
  }

  lemma {:induction false} KeptIgnoresLarge(n: nat, dropped: set<nat>, x: nat)
    requires n <= x
    ensures Kept(n, dropped + {x}) == Kept(n, dropped)
  {
    if n > 0 {
      KeptIgnoresLarge(n - 1, dropped, x);
    }
  }

  lemma {:induction false} KeptDrop(n: nat, dropped: set<nat>, a: seq<nat>, x: nat, b: seq<nat>)
    requires Kept(n, dropped) == a + [x] + b
    ensures Kept(n, dropped + {x}) == a + b
  {
    var kept := Kept(n, dropped);
    assert |kept| == |a| + 1 + |b|;
    if n - 1 in dropped {
      KeptDrop(n - 1, dropped, a, x, b);
    } else {
      var shorter := Kept(n - 1, dropped);
      assert shorter == kept[..|kept| - 1];
      if b == [] {
        assert x == kept[|kept| - 1] && a == shorter;
        KeptIgnoresLarge(n - 1, dropped, x);
      } else {
        var b' := b[..|b| - 1];
        assert b == b' + [b[|b| - 1]];
        assert kept[|kept| - 1] == b[|b| - 1];
        assert shorter == a + [x] + b';
        KeptDrop(n - 1, dropped, a, x, b');
        KeptBelow(n - 1, dropped, |a|);
        assert a + b == a + b' + [n - 1];
      }
    }
  }

  lemma ArriveKeepsOrder(s: State, key: string, ready: bool)
    requires OrderInv(s)
    ensures OrderInv(ArriveStep(s, key, ready))
  {
    ArriveWaits(s, key, ready);
    ArriveWellFormed(s, key, ready);
    assert s.arrivals !in s.dropped;
  }

  lemma ArriveWellFormed(s: State, key: string, ready: bool)
    requires WellFormed(s)
    ensures WellFormed(ArriveStep(s, key, ready))
    ensures s.active ==> ArriveStep(s, key, ready).queue[0] == s.queue[0]
  {
  }

  lemma ArriveWaits(s: State, key: string, ready: bool)
    requires WellFormed(s)
    ensures s.handed + Serials(Waiting(ArriveStep(s, key, ready)))
         == (s.handed + Serials(Waiting(s))) + [s.arrivals]
  {
    var r := Request(s.arrivals, key);
    assert Waiting(ArriveStep(s, key, ready)) == Waiting(s) + [r];
    SerialsAppend(Waiting(s), [r]);
    assert Serials([r]) == [s.arrivals];
  }

  /** Taking the k-th waiting request out drops just its serial. */
  lemma RemovalKeepsFifo(handed: seq<nat>, w: seq<Request>, k: nat, n: nat, dropped: set<nat>)
    requires k < |w|
    requires handed + Serials(w) == Kept(n, dropped)
    ensures handed + Serials(RemoveAt(w, k)) == Kept(n, dropped + {w[k].serial})
  {
    var a, b, x := w[..k], w[k + 1..], w[k].serial;
    assert w == a + ([w[k]] + b);
    SerialsAppend(a, [w[k]] + b);
    assert Serials([w[k]] + b) == [x] + Serials(b) by {
      assert ([w[k]] + b)[1..] == b;
    }
    SerialsAppend(a, b);
    assert handed + (Serials(a) + ([x] + Serials(b))) == (handed + Serials(a)) + [x] + Serials(b);
    KeptDrop(n, dropped, handed + Serials(a), x, Serials(b));
    assert handed + (Serials(a) + Serials(b)) == (handed + Serials(a)) + Serials(b);
  }

  lemma RemovalKeepsSerials(s: State, s': State, i: nat)
    requires WellFormed(s) && i < |s.queue| && !(i == 0 && s'.active)
    requires s'.queue == RemoveAt(s.queue, i) && s'.arrivals == s.arrivals
    ensures WellFormed(s')
  {
    assert forall j :: 0 <= j < i ==> s'.queue[j] == s.queue[j];
    assert forall j :: i <= j < |s'.queue| ==> s'.queue[j] == s.queue[j + 1];
  }

  lemma RemovalKeepsOrder(s: State, s': State, i: nat)
    requires OrderInv(s) && i < |s.queue| && !(i == 0 && s.active)
    requires s'.queue == RemoveAt(s.queue, i) && s'.dropped == s.dropped + {s.queue[i].serial}
    requires s'.active == s.active && s'.arrivals == s.arrivals
    requires s'.handed == s.handed && s'.autoDestruct == s.autoDestruct
    ensures OrderInv(s')
  {
    RemovalKeepsSerials(s, s', i);
    var k := if s.active then i - 1 else i;
    RemovalKeepsFifo(s.handed, Waiting(s), k, s.arrivals, s.dropped);
    assert Waiting(s)[k] == s.queue[i];
    assert Waiting(s') == RemoveAt(Waiting(s), k);
  }

  lemma CancelKeepsOrder(s: State, key: string)
    requires OrderInv(s)
    ensures OrderInv(CancelStep(s, key))
  {
    var i := FindKey(s.queue, key);
    if i < |s.queue| && !(i == 0 && s.active) {
      RemovalKeepsOrder(s, CancelStep(s, key), i);
    }
  }

  lemma RequestDoneKeepsOrder(s: State)
    requires OrderInv(s) && s.queue != []
    ensures OrderInv(RequestDoneStep(s))
  {
    if s.active {
      assert Waiting(RequestDoneStep(s)) == Waiting(s);
    } else {
      assert RemoveAt(s.queue, 0) == s.queue[1..];
      RemovalKeepsOrder(s, RequestDoneStep(s), 0);
    }
  }

  lemma StartProcessKeepsOrder(s: State, processOk: bool)
    requires OrderInv(s) && s.queue != [] && !s.active && !s.autoDestruct
    ensures OrderInv(StartProcessStep(s, processOk))
  {
    var head := s.queue[0].serial;
    var started := s.(active := true, handed := s.handed + [head]);
    assert s.handed + ([head] + Serials(s.queue[1..])) == (s.handed + [head]) + Serials(s.queue[1..]);
    assert OrderInv(started);
    if !processOk {
      RequestDoneKeepsOrder(started.(replies := s.replies + [Reply(head, StartFailed)]));
    }
  }

  lemma TerminalKeepsOrder(s: State, kind: ReplyKind)
    requires OrderInv(s)
    ensures OrderInv(TerminalStep(s, kind))
  {
    if s.queue != [] {
      RequestDoneKeepsOrder(s);
      RequestDoneKeepsOrder(s.(replies := s.replies + [Reply(s.queue[0].serial, kind)],
                               watcher := if s.watcher == UiPending then NoUi else s.watcher));
    }
  }

  lemma SameOrder(s: State, s': State)
    requires OrderInv(s)
    requires s'.queue == s.queue && s'.active == s.active && s'.autoDestruct == s.autoDestruct
    requires s'.arrivals == s.arrivals && s'.handed == s.handed && s'.dropped == s.dropped
    ensures OrderInv(s')
  {
  }

  lemma StartNewKeepsOrder(s: State, processOk: bool)
    requires OrderInv(s)
    ensures OrderInv(StartNewStep(s, processOk))
  {
    if s.queue != [] && !s.active && s.watcher != UiPending {
      StartProcessKeepsOrder(s.(canceled := false, autoDestruct := false), processOk);
    }
  }

  lemma RespondKeepsOrder(s: State, response: Response)
    requires OrderInv(s)
    ensures OrderInv(RespondStep(s, response))
  {
    if Terminal(s, Respond(response)) {
      var t := TerminalStep(s, if response.RespResult? then Result else Failure);
      TerminalKeepsOrder(s, if response.RespResult? then Result else Failure);
      SameOrder(t, t.(obtained := true));
    } else {
      SameOrder(s, RespondStep(s, response));
    }
  }

  /** The events that leave the queue alone. */
  lemma AsideKeepsOrder(s: State, e: Event)
    requires OrderInv(s) && (e.SystemReady? || e.UiReplied? || e.UiDelivered? || e.Collect?)
    ensures OrderInv(LiveStep(s, e))
  {
    SameOrder(s, LiveStep(s, e));
  }

  lemma StartNewEventKeepsOrder(s: State, processOk: bool)
    requires OrderInv(s)
    ensures OrderInv(LiveStep(s, StartNew(processOk)))
  {
    var taken := TakePosted(s);
    SameOrder(s, taken);
    StartNewKeepsOrder(taken, processOk);
  }

  /** Every event keeps the order invariant. */
  lemma StepKeepsOrder(s: State, e: Event)
    requires OrderInv(s)
    ensures OrderInv(Step(s, e))
  {
    if !s.gone {
      LiveStepKeepsOrder(s, e);
    }
  }

  lemma LiveStepKeepsOrder(s: State, e: Event)
    requires OrderInv(s)
    ensures OrderInv(LiveStep(s, e))
  {
    match e
    case Arrive(key, ready) => ArriveKeepsOrder(s, key, ready);
    case Cancel(key) => CancelKeepsOrder(s, key);
    case StartNew(processOk) => StartNewEventKeepsOrder(s, processOk);
    case Respond(response) => RespondKeepsOrder(s, response);
    case Broken => TerminalKeepsOrder(s, Failure);
    case _ => AsideKeepsOrder(s, e);
  }

  /** Whatever happens: one active request at most, first in first out, and no
      collection while a request is active. */
  lemma {:induction false} RunsAreOrdered(es: seq<Event>)
    ensures OrderInv(Run(INITIAL, es))
  {
    if es != [] {
      RunsAreOrdered(es[..|es| - 1]);
      StepKeepsOrder(Run(INITIAL, es[..|es| - 1]), es[|es| - 1]);
    }
  }

  // -------------------------------------------------- reply accounting

  /** The replies sent on message x, in order. */
  function Kinds(replies: seq<Reply>, x: nat): seq<ReplyKind> {
    if replies == [] then []
    else
      Kinds(replies[..|replies| - 1], x) +
      if replies[|replies| - 1].serial == x then [replies[|replies| - 1].kind] else []
  }

  lemma KindsAppend(replies: seq<Reply>, r: Reply, x: nat)
    ensures Kinds(replies + [r], x) == Kinds(replies, x) + if r.serial == x then [r.kind] else []
  {
    assert (replies + [r])[..|replies|] == replies;
  }

  /** Where message x is: still to come, waiting in the queue, active, or gone. A
      queue goes with its core. */
  datatype Place = ToCome | Waits | Active | Gone

  predicate InQueue(queue: seq<Request>, x: nat) {
    queue != [] && (queue[0].serial == x || InQueue(queue[1..], x))
  }

  lemma {:induction false} InQueueAt(queue: seq<Request>, x: nat)
    ensures InQueue(queue, x) <==> exists i :: 0 <= i < |queue| && queue[i].serial == x
  {
    if queue != [] {
      InQueueAt(queue[1..], x);
      if i :| 0 <= i < |queue| && queue[i].serial == x && i > 0 {
        assert queue[1..][i - 1].serial == x;
      }
    }
  }

  function PlaceOf(s: State, x: nat): Place {
    if x >= s.arrivals then ToCome
    else if s.gone then Gone
    else if s.active && s.queue != [] && s.queue[0].serial == x then Active
    else if InQueue(s.queue, x) then Waits
    else Gone
  }

  /** A terminal event finds the cancellation mark of the previous request still
      set and no request active: it takes the head out without any reply. */
  predicate Orphaning(s: State, e: Event) {
    && !s.gone && s.queue != [] && s.canceled && !s.active
    && (e.Broken? || (e.Respond? && (e.response.RespResult? || e.response.RespError?) && !s.obtained))
  }

  /** The active request is cancelled although it already was. */
  predicate SecondCancel(s: State, e: Event) {
    !s.gone && s.active && s.canceled && e.Cancel? && s.queue != [] && s.queue[0].key == e.key
  }

  /** A posted startNewRequest clears the mark of the active, cancelled request. */
  predicate LateRestart(s: State, e: Event) {
    !s.gone && s.active && s.canceled && e.StartNew?
  }

  /** The core is destroyed with requests waiting. */
  predicate Abandons(s: State, e: Event) {
    !s.gone && e.Collect? && !Refuses(s) && s.queue != []
  }

  /** Requests went with their core. */
  predicate LeftBehind(s: State) {
    s.gone && s.queue != []
  }

  predicate Misstep(s: State, e: Event) {
    Orphaning(s, e) || SecondCancel(s, e) || LateRestart(s, e)
  }

  predicate NoOrphaning(es: seq<Event>) {
    es == [] || (NoOrphaning(es[..|es| - 1]) && !Orphaning(Run(INITIAL, es[..|es| - 1]), es[|es| - 1]))
  }

  predicate NoMisstep(es: seq<Event>) {
    es == [] || (NoMisstep(es[..|es| - 1]) && !Misstep(Run(INITIAL, es[..|es| - 1]), es[|es| - 1]))
  }

  /** One message seen through the whole machine: its place, the replies sent on
      it, and whether it is active and marked cancelled. */
  datatype Message = Message(place: Place, kinds: seq<ReplyKind>, marked: bool)

  function MessageOf(s: State, x: nat): Message {
    Message(PlaceOf(s, x), Kinds(s.replies, x), PlaceOf(s, x) == Active && s.canceled)
  }

  /** What one event means for one message. */
  datatype Impact =
    | Nothing
    | Enter
    | CancelIt
    | Unmark
    | Begin(processOk: bool)
    | Finish(silent: bool, kind: ReplyKind)
    | Abandon

  function ImpactOn(s: State, e: Event, x: nat): Impact {
    if s.gone then Nothing else LiveImpact(s, e, x)
  }

  function LiveImpact(s: State, e: Event, x: nat): Impact {
    match e
    case Arrive(_, _) => if x == s.arrivals then Enter else Nothing
    case Cancel(key) =>
      var i := FindKey(s.queue, key);
      if i < |s.queue| && s.queue[i].serial == x then CancelIt else Nothing
    case StartNew(processOk) =>
      if PlaceOf(s, x) == Active then Unmark
      else if Starts(s) && s.queue[0].serial == x then Begin(processOk)
      else Nothing
    case Collect => if Abandons(s, e) && PlaceOf(s, x) == Waits then Abandon else Nothing
    case _ =>
      if Terminal(s, e) && s.queue != [] && s.queue[0].serial == x then Finish(s.canceled, KindOf(e)) else Nothing
  }

  /** What a terminal event tells the client. */
  function KindOf(e: Event): ReplyKind {
    if e.Respond? && e.response.RespResult? then Result else Failure
  }

  function Next(m: Message, impact: Impact): Message {
    match impact
    case Nothing => m
    case Enter => m.(place := Waits)
    case CancelIt =>
      if m.place == Active then m.(kinds := m.kinds + [Canceled], marked := true)
      else m.(place := Gone, kinds := m.kinds + [Canceled])
    case Unmark => m.(marked := false)
    case Begin(ok) => if ok then m.(place := Active) else m.(place := Gone, kinds := m.kinds + [StartFailed])
    case Finish(silent, kind) => Message(Gone, if silent then m.kinds else m.kinds + [kind], false)
    case Abandon => m.(place := Gone)
  }

  /** Whether startNewRequest gets to start the head of the queue. */
  predicate Starts(s: State) {
    s.queue != [] && !s.active && s.watcher != UiPending
  }

  /** The events that end the head's turn. */
  predicate Terminal(s: State, e: Event) {
    e.Broken? || (e.Respond? && (e.response.RespResult? || e.response.RespError?) && !s.obtained)
  }

  lemma ArrivePlaces(s: State, key: string, ready: bool, x: nat)
    requires WellFormed(s) && !s.gone
    ensures PlaceOf(ArriveStep(s, key, ready), x)
         == if x == s.arrivals then Waits else PlaceOf(s, x)
  {
    var s' := ArriveStep(s, key, ready);
    InQueueAt(s.queue, x);
    InQueueAt(s'.queue, x);
    assert s'.queue[|s.queue|].serial == s.arrivals;
    assert forall i :: 0 <= i < |s.queue| ==> s'.queue[i] == s.queue[i];
  }

  lemma RemovalPlaces(queue: seq<Request>, i: nat, x: nat)
    requires i < |queue|
    requires forall j, k :: 0 <= j < k < |queue| ==> queue[j].serial < queue[k].serial
    ensures InQueue(RemoveAt(queue, i), x) <==> InQueue(queue, x) && x != queue[i].serial
  {
    var rest := RemoveAt(queue, i);
    InQueueAt(queue, x);
    InQueueAt(rest, x);
    assert forall j :: 0 <= j < i ==> rest[j] == queue[j];
    assert forall j :: i <= j < |rest| ==> rest[j] == queue[j + 1];
    if InQueue(queue, x) && x != queue[i].serial {
      var j :| 0 <= j < |queue| && queue[j].serial == x;
      assert rest[if j < i then j else j - 1].serial == x;
    }
  }

  /** When the head leaves, all others wait. */
  lemma HeadLeaves(s: State, x: nat)
    requires !s.gone && WellFormed(s) && s.queue != []
    ensures PlaceOf(s.(queue := s.queue[1..], active := false), x)
         == if x == s.queue[0].serial then Gone else PlaceOf(s, x)
  {
    assert RemoveAt(s.queue, 0) == s.queue[1..];
    RemovalPlaces(s.queue, 0, x);
  }

  lemma TerminalPlaces(s: State, kind: ReplyKind, x: nat)
    requires WellFormed(s) && !s.gone
    ensures PlaceOf(TerminalStep(s, kind), x)
         == if s.queue != [] && s.queue[0].serial == x then Gone else PlaceOf(s, x)
  {
    if s.queue != [] {
      HeadLeaves(s, x);
    }
  }

  lemma TerminalKinds(s: State, kind: ReplyKind, x: nat)
    ensures Kinds(TerminalStep(s, kind).replies, x) == Kinds(s.replies, x)
          + if s.queue != [] && !s.canceled && s.queue[0].serial == x then [kind] else []
  {
    if s.queue != [] {
      KindsAppend(s.replies, Reply(s.queue[0].serial, kind), x);
    }
  }

  lemma StartNewPlaces(s: State, processOk: bool, x: nat)
    requires WellFormed(s) && !s.gone
    ensures PlaceOf(StartNewStep(s, processOk), x)
         == if Starts(s) && s.queue[0].serial == x then (if processOk then Active else Gone)
            else PlaceOf(s, x)
  {
    if Starts(s) {
      HeadLeaves(s, x);
    }
  }

  lemma StartNewKinds(s: State, processOk: bool, x: nat)
    ensures Kinds(StartNewStep(s, processOk).replies, x) == Kinds(s.replies, x)
          + if Starts(s) && !processOk && s.queue[0].serial == x then [StartFailed] else []
  {
    if Starts(s) {
      KindsAppend(s.replies, Reply(s.queue[0].serial, StartFailed), x);
    }
  }

  lemma TerminalSimulates(s: State, kind: ReplyKind, x: nat)
    requires WellFormed(s) && !s.gone
    ensures MessageOf(TerminalStep(s, kind), x) ==
            if s.queue != [] && s.queue[0].serial == x then Next(MessageOf(s, x), Finish(s.canceled, kind))
            else MessageOf(s, x)
  {
    TerminalPlaces(s, kind, x);
    TerminalKinds(s, kind, x);
    TerminalKeepsMark(s, kind);
    TerminalMessage(s, TerminalStep(s, kind), kind, x);
  }

  lemma TerminalKeepsMark(s: State, kind: ReplyKind)
    ensures TerminalStep(s, kind).canceled == s.canceled
  {
  }

  lemma TerminalMessage(s: State, t: State, kind: ReplyKind, x: nat)
    requires PlaceOf(t, x) == if s.queue != [] && s.queue[0].serial == x then Gone else PlaceOf(s, x)
    requires Kinds(t.replies, x)
          == Kinds(s.replies, x) + if s.queue != [] && !s.canceled && s.queue[0].serial == x then [kind] else []
    requires t.canceled == s.canceled
    ensures MessageOf(t, x) ==
            if s.queue != [] && s.queue[0].serial == x then Next(MessageOf(s, x), Finish(s.canceled, kind))
            else MessageOf(s, x)
  {
  }

  lemma SameMessage(s: State, s': State, x: nat)
    requires s'.queue == s.queue && s'.active == s.active && s'.arrivals == s.arrivals
    requires s'.replies == s.replies && s'.canceled == s.canceled && s'.gone == s.gone
    ensures MessageOf(s', x) == MessageOf(s, x)
  {
  }

  lemma RespondSimulates(s: State, response: Response, x: nat)
    requires WellFormed(s) && !s.gone
    ensures MessageOf(RespondStep(s, response), x)
         == Next(MessageOf(s, x), LiveImpact(s, Respond(response), x))
  {
    if Terminal(s, Respond(response)) {
      var kind := KindOf(Respond(response));
      var t := TerminalStep(s, kind);
      assert MessageOf(t, x)
          == if s.queue != [] && s.queue[0].serial == x then Next(MessageOf(s, x), Finish(s.canceled, kind))
             else MessageOf(s, x) by {
        TerminalSimulates(s, kind, x);
      }
      assert RespondStep(s, response) == t.(obtained := true);
      SameMessage(t, t.(obtained := true), x);
    } else {
      SameMessage(s, RespondStep(s, response), x);
    }
  }

  lemma StartNewSimulates(s: State, processOk: bool, x: nat)
    requires WellFormed(s) && !s.gone
    ensures MessageOf(StartNewStep(s, processOk), x)
         == Next(MessageOf(s, x), LiveImpact(s, StartNew(processOk), x))
  {
    StartNewPlaces(s, processOk, x);
    StartNewKinds(s, processOk, x);
    StartNewUnmarks(s, processOk);
    StartNewMessage(s, StartNewStep(s, processOk), processOk, x);
  }

  lemma StartNewUnmarks(s: State, processOk: bool)
    ensures !StartNewStep(s, processOk).canceled
  {
  }

  lemma StartNewMessage(s: State, t: State, processOk: bool, x: nat)
    requires PlaceOf(t, x) == if Starts(s) && s.queue[0].serial == x then (if processOk then Active else Gone)
                              else PlaceOf(s, x)
    requires Kinds(t.replies, x)
          == Kinds(s.replies, x) + if Starts(s) && !processOk && s.queue[0].serial == x then [StartFailed] else []
    requires !t.canceled
    ensures MessageOf(t, x) == Next(MessageOf(s, x), LiveImpact(s, StartNew(processOk), x))
  {
  }

  lemma MarkSimulates(s: State, s': State, x: nat)
    requires !s.gone && WellFormed(s) && s.active
    requires s'.queue == s.queue && s'.active && s'.arrivals == s.arrivals && s'.canceled && !s'.gone
    requires s'.replies == s.replies + [Reply(s.queue[0].serial, Canceled)]
    ensures MessageOf(s', x)
         == if s.queue[0].serial == x then Next(MessageOf(s, x), CancelIt) else MessageOf(s, x)
  {
    KindsAppend(s.replies, Reply(s.queue[0].serial, Canceled), x);
  }

  lemma RemoveSimulates(s: State, s': State, i: nat, x: nat)
    requires !s.gone && WellFormed(s) && i < |s.queue| && !(i == 0 && s.active)
    requires s'.queue == RemoveAt(s.queue, i) && s'.active == s.active
    requires s'.arrivals == s.arrivals && s'.canceled == s.canceled && !s'.gone
    requires s'.replies == s.replies + [Reply(s.queue[i].serial, Canceled)]
    ensures MessageOf(s', x)
         == if s.queue[i].serial == x then Next(MessageOf(s, x), CancelIt) else MessageOf(s, x)
  {
    KindsAppend(s.replies, Reply(s.queue[i].serial, Canceled), x);
    RemovalPlaces(s.queue, i, x);
    InQueueAt(s.queue, x);
    assert s.active ==> s'.queue[0] == s.queue[0];
  }

  lemma CancelSimulates(s: State, key: string, x: nat)
    requires WellFormed(s) && !s.gone
    ensures MessageOf(CancelStep(s, key), x) == Next(MessageOf(s, x), LiveImpact(s, Cancel(key), x))
  {
    var i := FindKey(s.queue, key);
    if i < |s.queue| {
      if i == 0 && s.active {
        MarkSimulates(s, CancelStep(s, key), x);
      } else {
        RemoveSimulates(s, CancelStep(s, key), i, x);
      }
    }
  }

  lemma StartNewEventSimulates(s: State, processOk: bool, x: nat)
    requires WellFormed(s) && !s.gone
    ensures MessageOf(LiveStep(s, StartNew(processOk)), x)
         == Next(MessageOf(s, x), LiveImpact(s, StartNew(processOk), x))
  {
    var taken := TakePosted(s);
    SameMessage(s, taken, x);
    SameStartImpact(s, processOk, x);
    StartNewSimulates(taken, processOk, x);
  }

  lemma SameStartImpact(s: State, processOk: bool, x: nat)
    ensures LiveImpact(TakePosted(s), StartNew(processOk), x) == LiveImpact(s, StartNew(processOk), x)
  {
  }

  /** Destroying the core takes along what waits. */
  lemma CollectSimulates(s: State, x: nat)
    requires WellFormed(s) && !s.gone
    ensures MessageOf(CollectStep(s), x) == Next(MessageOf(s, x), LiveImpact(s, Collect, x))
  {
  }

  lemma LiveStepSimulates(s: State, e: Event, x: nat)
    requires WellFormed(s) && !s.gone
    ensures MessageOf(LiveStep(s, e), x) == Next(MessageOf(s, x), LiveImpact(s, e, x))
  {
    match e
    case Arrive(key, ready) => ArrivePlaces(s, key, ready, x);
    case Cancel(key) => CancelSimulates(s, key, x);
    case StartNew(processOk) => StartNewEventSimulates(s, processOk, x);
    case Respond(response) => RespondSimulates(s, response, x);
    case Broken => TerminalSimulates(s, Failure, x);
    case Collect => CollectSimulates(s, x);
    case _ => SameMessage(s, LiveStep(s, e), x);
  }

  /** Every event acts on every single message as the message's own small
      machine says. */
  lemma StepSimulates(s: State, e: Event, x: nat)
    requires WellFormed(s)
    ensures MessageOf(Step(s, e), x) == Next(MessageOf(s, x), ImpactOn(s, e, x))
  {
    if !s.gone {
      LiveStepSimulates(s, e, x);
    }
  }

  /** Every message that left the queue was answered. */
  ghost predicate DeparturesAnswered(s: State) {
    forall x: nat :: PlaceOf(s, x) == Gone ==> Kinds(s.replies, x) != []
  }

  /** Every message that left was answered once, every other one not at all. */
  ghost predicate AnsweredOnce(s: State) {
    forall x: nat :: |Kinds(s.replies, x)| == if PlaceOf(s, x) == Gone then 1 else 0
  }

  /** The key invariant, message by message: only messages that left, or that
      are active and marked cancelled, were answered, and all of those were. */
  predicate Accounted(m: Message) {
    match m.place
    case ToCome => |m.kinds| == 0
    case Waits => |m.kinds| == 0
    case Active => m.marked ==> |m.kinds| >= 1
    case Gone => |m.kinds| >= 1
  }

  predicate Exact(m: Message) {
    |m.kinds| == if m.place == Gone || m.marked then 1 else 0
  }

  /** The message has, or is bound to get, a wrong number of replies. */
  predicate Spoiled(m: Message) {
    |m.kinds| >= 2 || (m.place == Active && !m.marked && |m.kinds| >= 1) || (m.place == Gone && |m.kinds| == 0)
  }

  lemma OrphaningIs(s: State, e: Event, x: nat)
    requires OrderInv(s) && !Orphaning(s, e)
    ensures ImpactOn(s, e, x).Finish? && ImpactOn(s, e, x).silent ==> MessageOf(s, x).marked
  {
  }

  lemma MisstepIs(s: State, e: Event, x: nat)
    requires OrderInv(s) && !Misstep(s, e)
    ensures MessageOf(s, x).marked ==> ImpactOn(s, e, x) != CancelIt && ImpactOn(s, e, x) != Unmark
    ensures ImpactOn(s, e, x).Finish? && ImpactOn(s, e, x).silent ==> MessageOf(s, x).marked
  {
  }

  /** Nothing repairs a wrong number of replies. */
  lemma SpoiledForGood(s: State, e: Event, x: nat)
    requires OrderInv(s) && Spoiled(MessageOf(s, x))
    ensures Spoiled(MessageOf(Step(s, e), x))
  {
    StepSimulates(s, e, x);
    ImpactFits(s, e, x);
    NextStaysSpoiled(MessageOf(s, x), ImpactOn(s, e, x));
  }

  lemma LostForGood(s: State, e: Event, x: nat)
    requires OrderInv(s) && MessageOf(s, x).place == Gone && MessageOf(s, x).kinds == []
    ensures MessageOf(Step(s, e), x) == MessageOf(s, x)
  {
    StepSimulates(s, e, x);
    ImpactFits(s, e, x);
  }

  /** Where a message can be touched in this way. */
  predicate Fitting(place: Place, impact: Impact) {
    match impact
    case Nothing => true
    case Enter => place == ToCome
    case CancelIt => place == Waits || place == Active
    case Unmark => place == Active
    case Begin(_) => place == Waits
    case Finish(_, _) => place == Waits || place == Active
    case Abandon => place == Waits
  }

  /** An event touches a message only where it is. */
  lemma ImpactFits(s: State, e: Event, x: nat)
    requires OrderInv(s)
    ensures Fitting(PlaceOf(s, x), ImpactOn(s, e, x))
    ensures ImpactOn(s, e, x) == Abandon ==> Abandons(s, e)
  {
    InQueueAt(s.queue, x);
  }

  lemma NextStaysSpoiled(m: Message, impact: Impact)
    requires Spoiled(m) && Fitting(m.place, impact)
    requires m.place == Active && impact.Finish? ==> impact.silent == m.marked
    ensures Spoiled(Next(m, impact))
  {
  }

  lemma ExactStep(s: State, e: Event, x: nat)
    requires OrderInv(s) && Exact(MessageOf(s, x)) && !Misstep(s, e) && !Abandons(s, e)
    ensures Exact(MessageOf(Step(s, e), x))
  {
    StepSimulates(s, e, x);
    ImpactFits(s, e, x);
    MisstepIs(s, e, x);
  }

  lemma AccountStep(s: State, e: Event, x: nat)
    requires OrderInv(s) && Accounted(MessageOf(s, x)) && !Orphaning(s, e) && !Abandons(s, e)
    ensures Accounted(MessageOf(Step(s, e), x))
  {
    StepSimulates(s, e, x);
    ImpactFits(s, e, x);
    OrphaningIs(s, e, x);
  }

  lemma MisstepSpoils(s: State, e: Event)
    requires OrderInv(s) && Misstep(s, e) && AllExact(s)
    ensures SomeSpoiled(Step(s, e))
  {
    var x := s.queue[0].serial;
    assert Exact(MessageOf(s, x));
    StepSimulates(s, e, x);
    MisstepImpact(s, e);
    assert Spoiled(MessageOf(Step(s, e), x));
  }

  /** Which of the three missteps it is, seen from the head of the queue. */
  lemma MisstepImpact(s: State, e: Event)
    requires OrderInv(s) && Misstep(s, e)
    ensures var (m, impact) := (MessageOf(s, s.queue[0].serial), ImpactOn(s, e, s.queue[0].serial));
            || (m.place == Waits && impact.Finish? && impact.silent)
            || (m.place == Active && m.marked && (impact == CancelIt || impact == Unmark))
  {
    InQueueAt(s.queue, s.queue[0].serial);
  }

  lemma OrphaningLoses(s: State, e: Event)
    requires OrderInv(s) && Orphaning(s, e)
    requires Accounted(MessageOf(s, s.queue[0].serial))
    ensures MessageOf(Step(s, e), s.queue[0].serial) == Message(Gone, [], false)
  {
    StepSimulates(s, e, s.queue[0].serial);
  }

  /** A core destroyed with requests waiting loses its head, for one. */
  lemma AbandonLoses(s: State, e: Event)
    requires OrderInv(s) && Abandons(s, e) && Accounted(MessageOf(s, s.queue[0].serial))
    ensures MessageOf(Step(s, e), s.queue[0].serial) == Message(Gone, [], false)
  {
    StepSimulates(s, e, s.queue[0].serial);
    assert PlaceOf(s, s.queue[0].serial) == Waits;
  }

  ghost predicate AllExact(s: State) {
    forall x: nat :: Exact(MessageOf(s, x))
  }

  ghost predicate SomeSpoiled(s: State) {
    exists x: nat :: Spoiled(MessageOf(s, x))
  }

  lemma SpoiledRemains(s: State, e: Event)
    requires OrderInv(s) && SomeSpoiled(s)
    ensures SomeSpoiled(Step(s, e))
  {
    var x: nat :| Spoiled(MessageOf(s, x));
    SpoiledForGood(s, e, x);
  }

  lemma ExactRemains(s: State, e: Event)
    requires OrderInv(s) && AllExact(s) && !Misstep(s, e) && !Abandons(s, e)
    ensures AllExact(Step(s, e))
  {
    forall x: nat ensures Exact(MessageOf(Step(s, e), x)) {
      ExactStep(s, e, x);
    }
  }

  lemma AbandonSpoils(s: State, e: Event)
    requires OrderInv(s) && Abandons(s, e) && AllExact(s)
    ensures SomeSpoiled(Step(s, e))
  {
    var x := s.queue[0].serial;
    assert Exact(MessageOf(s, x));
    AbandonLoses(s, e);
    assert Spoiled(MessageOf(Step(s, e), x));
  }

  predicate NoAbandon(es: seq<Event>) {
    es == [] || (NoAbandon(es[..|es| - 1]) && !Abandons(Run(INITIAL, es[..|es| - 1]), es[|es| - 1]))
  }

  lemma QueueStaysBehind(s: State, e: Event)
    ensures LeftBehind(Step(s, e)) <==> LeftBehind(s) || Abandons(s, e)
  {
    if !s.gone {
      StepFlags(s, e);
    }
  }

  /** Whether requests went with their core can be seen at the end of the run. */
  lemma {:induction false} AbandonLeavesBehind(es: seq<Event>)
    ensures NoAbandon(es) <==> !LeftBehind(Run(INITIAL, es))
  {
    if es != [] {
      AbandonLeavesBehind(es[..|es| - 1]);
      QueueStaysBehind(Run(INITIAL, es[..|es| - 1]), es[|es| - 1]);
    }
  }

  lemma {:induction false} RunExact(es: seq<Event>)
    ensures if NoMisstep(es) && NoAbandon(es) then AllExact(Run(INITIAL, es)) else SomeSpoiled(Run(INITIAL, es))
  {
    if es != [] {
      var es', e := es[..|es| - 1], es[|es| - 1];
      var s := Run(INITIAL, es');
      RunExact(es');
      RunsAreOrdered(es');
      if !NoMisstep(es') || !NoAbandon(es') {
        SpoiledRemains(s, e);
      } else if Misstep(s, e) {
        MisstepSpoils(s, e);
      } else if Abandons(s, e) {
        AbandonSpoils(s, e);
      } else {
        ExactRemains(s, e);
      }
    }
  }

  /** Reply accounting, exactly. At the end of a run with no request active, every
      message that left was answered once and no other message was answered, if
      and only if no requests went with their core and the run had no misstep: no
      terminal event took an inactive head under a stale mark, no active request
      was cancelled twice, and no posted restart ran between a cancel and the
      plugin's answer. */
  lemma ExactlyOneReply(es: seq<Event>)
    requires !Run(INITIAL, es).active
    ensures AnsweredOnce(Run(INITIAL, es)) <==> NoMisstep(es) && !LeftBehind(Run(INITIAL, es))
  {
    RunExact(es);
    AbandonLeavesBehind(es);
    var s := Run(INITIAL, es);
    if NoMisstep(es) && NoAbandon(es) {
      forall x: nat ensures |Kinds(s.replies, x)| == if PlaceOf(s, x) == Gone then 1 else 0 {
        assert Exact(MessageOf(s, x));
      }
    } else {
      var x: nat :| Spoiled(MessageOf(s, x));
      assert |Kinds(s.replies, x)| != if PlaceOf(s, x) == Gone then 1 else 0;
    }
  }

  lemma {:induction false} RunAccounts(es: seq<Event>)
    ensures NoOrphaning(es) && NoAbandon(es) ==> forall x: nat :: Accounted(MessageOf(Run(INITIAL, es), x))
    ensures !NoOrphaning(es) || !NoAbandon(es)
        ==> exists x: nat :: MessageOf(Run(INITIAL, es), x) == Message(Gone, [], false)
  {
    if es != [] {
      var es', e := es[..|es| - 1], es[|es| - 1];
      var s := Run(INITIAL, es');
      RunAccounts(es');
      RunsAreOrdered(es');
      if !NoOrphaning(es') || !NoAbandon(es') {
        var x: nat :| MessageOf(s, x) == Message(Gone, [], false);
        LostForGood(s, e, x);
        assert MessageOf(Run(INITIAL, es), x) == Message(Gone, [], false);
      } else if Orphaning(s, e) {
        OrphaningLoses(s, e);
        assert MessageOf(Run(INITIAL, es), s.queue[0].serial) == Message(Gone, [], false);
      } else if Abandons(s, e) {
        AbandonLoses(s, e);
        assert MessageOf(Run(INITIAL, es), s.queue[0].serial) == Message(Gone, [], false);
      } else {
        forall x: nat ensures Accounted(MessageOf(Step(s, e), x)) {
          AccountStep(s, e, x);
        }
      }
    }
  }

  /** No request leaves unanswered, if and only if no terminal event finds a stale
      cancellation mark with no request active, and none went with its core. */
  lemma AtLeastOneReply(es: seq<Event>)
    ensures DeparturesAnswered(Run(INITIAL, es)) <==> NoOrphaning(es) && !LeftBehind(Run(INITIAL, es))
  {
    RunAccounts(es);
    AbandonLeavesBehind(es);
    var s := Run(INITIAL, es);
    if NoOrphaning(es) && NoAbandon(es) {
      forall x: nat | PlaceOf(s, x) == Gone ensures Kinds(s.replies, x) != [] {
        assert Accounted(MessageOf(s, x));
      }
    } else {
      var x: nat :| MessageOf(s, x) == Message(Gone, [], false);
      assert PlaceOf(s, x) == Gone;
    }
  }

  // ------------------------------------------------- which reply is sent

  /** The reply an impact sends. */
  function Answer(m: Message, impact: Impact): seq<ReplyKind> {
    match impact
    case CancelIt => [Canceled]
    case Begin(ok) => if ok then [] else [StartFailed]
    case Finish(silent, kind) => if silent then [] else [kind]
    case _ => []
  }

  lemma NextAnswers(m: Message, impact: Impact)
    ensures Next(m, impact).kinds == m.kinds + Answer(m, impact)
  {
  }

  /** The i-th event of the run sends this reply on the message: a client cancels it,
      it cannot be started, or it is the head, unmarked, when the plugin's result or
      an error ends its turn. */
  ghost predicate Sends(es: seq<Event>, i: nat, x: nat, kind: ReplyKind) {
    && i < |es|
    && var (s, e) := (Run(INITIAL, es[..i]), es[i]);
       && !s.gone
       && match kind
          case Canceled => e.Cancel? && exists k :: FirstWithKey(s.queue, k, e.key) && s.queue[k].serial == x
          case StartFailed => e == StartNew(false) && Starts(s) && s.queue[0].serial == x
          case Result => e == Respond(RespResult) && !s.obtained && HeadUnmarked(s, x)
          case Failure => (e == Broken || (e == Respond(RespError) && !s.obtained)) && HeadUnmarked(s, x)
  }

  predicate FirstWithKey(queue: seq<Request>, k: int, key: string) {
    0 <= k < |queue| && queue[k].key == key && forall j :: 0 <= j < k ==> queue[j].key != key
  }

  predicate HeadUnmarked(s: State, x: nat) {
    s.queue != [] && s.queue[0].serial == x && !s.canceled
  }

  lemma SendsIs(es: seq<Event>, i: nat, x: nat, kind: ReplyKind)
    requires i < |es|
    ensures var s := Run(INITIAL, es[..i]);
            Sends(es, i, x, kind) <==> Answer(MessageOf(s, x), ImpactOn(s, es[i], x)) == [kind]
  {
    RunsAreOrdered(es[..i]);
    var s, e := Run(INITIAL, es[..i]), es[i];
    if e.Cancel? {
      var k := FindKey(s.queue, e.key);
      assert k < |s.queue| ==> FirstWithKey(s.queue, k, e.key);
    }
    if e.StartNew? && Starts(s) && s.queue[0].serial == x {
      assert PlaceOf(s, x) != Active;
    }
  }

  /** The replies on a message are those its events send, no more and no others: a
      cancellation is answered as cancelled, the plugin's result as a result, its
      error or crash as a failure, and a request that cannot be started as such. */
  lemma {:induction false} RepliesExactly(es: seq<Event>, x: nat, kind: ReplyKind)
    ensures kind in Kinds(Run(INITIAL, es).replies, x) <==> exists i: nat :: Sends(es, i, x, kind)
  {
    if es != [] {
      var n := |es| - 1;
      var s, e := Run(INITIAL, es[..n]), es[n];
      assert es == es[..n] + [e];
      RepliesExactly(es[..n], x, kind);
      RunsAreOrdered(es[..n]);
      StepSimulates(s, e, x);
      NextAnswers(MessageOf(s, x), ImpactOn(s, e, x));
      SendsIs(es, n, x, kind);
      assert Kinds(Run(INITIAL, es).replies, x)
          == Kinds(s.replies, x) + Answer(MessageOf(s, x), ImpactOn(s, e, x));
      forall i: nat | i < n ensures Sends(es, i, x, kind) <==> Sends(es[..n], i, x, kind) {
        assert es[..n][..i] == es[..i];
      }
    }
  }

  /** So without missteps the one reply of a message that left tells what became of
      it. */
  lemma OneReplyTells(es: seq<Event>, x: nat)
    requires NoMisstep(es) && !LeftBehind(Run(INITIAL, es)) && !Run(INITIAL, es).active
    requires PlaceOf(Run(INITIAL, es), x) == Gone
    ensures exists kind, i: nat :: Kinds(Run(INITIAL, es).replies, x) == [kind] && Sends(es, i, x, kind)
  {
    ExactlyOneReply(es);
    var kinds := Kinds(Run(INITIAL, es).replies, x);
    assert |kinds| == 1 && kinds == [kinds[0]] && kinds[0] in kinds;
    RepliesExactly(es, x, kinds[0]);
    var i: nat :| Sends(es, i, x, kinds[0]);
  }

  // ------------------------------------------------------------- the gate

  /** In a run without broken pipes the gate is shut whenever no request is
      active, a dialog is only open for the active, uncancelled request, and
      what the plugin answers is an answer to something it was given. */
  ghost predicate GateInv(s: State) {
    && (s.active ==> s.engaged && !s.obtained)
    && (!s.active && s.engaged ==> s.obtained)
    && (s.watcher == UiPending ==> s.active && !s.canceled)
    && (forall r :: r in s.replies && (r.kind == Result || r.kind == Failure) ==> r.serial in s.handed)
  }

  predicate GatedRun(es: seq<Event>) {
    EnabledRun(es) && Broken !in es
  }

  lemma GateTerminal(s: State, kind: ReplyKind)
    requires OrderInv(s) && GateInv(s) && s.active
    ensures GateInv(TerminalStep(s, kind).(obtained := true))
  {
    var t := TerminalStep(s, kind).(obtained := true);
    assert s.queue[0].serial == s.handed[|s.handed| - 1];
    assert t.handed == s.handed && !t.active && t.engaged == s.engaged;
    forall r | r in t.replies && (r.kind == Result || r.kind == Failure) ensures r.serial in t.handed {
      assert r in s.replies || r.serial == s.queue[0].serial;
    }
  }

  lemma GateRespond(s: State, response: Response)
    requires OrderInv(s) && GateInv(s) && s.engaged
    ensures GateInv(RespondStep(s, response))
  {
    if !s.obtained {
      GateTerminal(s, Result);
      GateTerminal(s, Failure);
    }
  }

  lemma GateCancel(s: State, key: string)
    requires OrderInv(s) && GateInv(s)
    ensures GateInv(CancelStep(s, key))
  {
  }

  lemma GateStartNew(s: State, processOk: bool)
    requires OrderInv(s) && GateInv(s)
    ensures GateInv(StartNewStep(s, processOk))
  {
    var t := StartNewStep(s, processOk);
    forall r | r in t.replies && (r.kind == Result || r.kind == Failure) ensures r.serial in t.handed {
      assert r in s.replies;
    }
  }

  lemma GateStep(s: State, e: Event)
    requires OrderInv(s) && GateInv(s) && Enabled(s, e) && !e.Broken?
    ensures GateInv(Step(s, e))
  {
    if !s.gone {
      LiveGateStep(s, e);
    }
  }

  lemma LiveGateStep(s: State, e: Event)
    requires OrderInv(s) && GateInv(s) && Enabled(s, e) && !e.Broken?
    ensures GateInv(LiveStep(s, e))
  {
    match e
    case Cancel(key) => GateCancel(s, key);
    case StartNew(processOk) =>
      var taken := TakePosted(s);
      SameOrder(s, taken);
      GateStartNew(taken, processOk);
    case Respond(response) => GateRespond(s, response);
    case _ =>
  }

  lemma {:induction false} GatedRunsAreSafe(es: seq<Event>)
    requires GatedRun(es)
    ensures GateInv(Run(INITIAL, es)) && NoOrphaning(es)
  {
    if es != [] {
      var es' := es[..|es| - 1];
      assert es == es' + [es[|es| - 1]];
      GatedRunsAreSafe(es');
      RunsAreOrdered(es');
      GateStep(Run(INITIAL, es'), es[|es| - 1]);
    }
  }

  /** As long as the plugin's pipe holds, every departing request gets a reply, if
      and only if none went with its core. */
  lemma GatedRunsAnswer(es: seq<Event>)
    requires GatedRun(es)
    ensures DeparturesAnswered(Run(INITIAL, es)) <==> !LeftBehind(Run(INITIAL, es))
  {
    GatedRunsAreSafe(es);
    AtLeastOneReply(es);
  }

  lemma RunSnoc(es: seq<Event>, e: Event)
    ensures Run(INITIAL, es + [e]) == Step(Run(INITIAL, es), e)
    ensures NoMisstep(es + [e]) == (NoMisstep(es) && !Misstep(Run(INITIAL, es), e))
    ensures NoOrphaning(es + [e]) == (NoOrphaning(es) && !Orphaning(Run(INITIAL, es), e))
    ensures EnabledRun(es + [e]) == (EnabledRun(es) && Enabled(Run(INITIAL, es), e))
  {
    assert (es + [e])[..|es|] == es;
  }

  /** Extending a run by an event, with everything said about the longer run. */
  lemma Extend(es: seq<Event>, s: State, e: Event) returns (es': seq<Event>)
    requires EnabledRun(es) && Run(INITIAL, es) == s && Enabled(s, e)
    requires Broken !in es && NoMisstep(es) && NoOrphaning(es)
    ensures es' == es + [e]
    ensures EnabledRun(es') && Run(INITIAL, es') == Step(s, e)
    ensures !e.Broken? ==> Broken !in es'
    ensures NoMisstep(es') == !Misstep(s, e) && NoOrphaning(es') == !Orphaning(s, e)
  {
    RunSnoc(es, e);
    es' := es + [e];
  }

  /** Two arrivals, each posting a restart; the first request starts and is
      cancelled by its client. */
  const AFTER_CANCEL := State([Request(0, "a"), Request(1, "b")], true, true, NoUi, false, false, true,
                              1, 2, [Reply(0, Canceled)], [0], {}, 0, false)

  lemma ReachAfterCancel() returns (es: seq<Event>)
    ensures GatedRun(es) && NoMisstep(es) && NoOrphaning(es) && Run(INITIAL, es) == AFTER_CANCEL
  {
    var s1 := State([Request(0, "a")], false, false, NoUi, true, false, false, 1, 1, [], [], {}, 0, false);
    var q := [Request(0, "a"), Request(1, "b")];
    var s2 := State(q, false, false, NoUi, true, false, false, 2, 2, [], [], {}, 0, false);
    var s3 := State(q, true, false, NoUi, false, false, true, 1, 2, [], [0], {}, 0, false);
    es := Extend([], INITIAL, Arrive("a", true));
    assert Step(INITIAL, Arrive("a", true)) == s1;
    es := Extend(es, s1, Arrive("b", true));
    assert Step(s1, Arrive("b", true)) == s2;
    es := Extend(es, s2, StartNew(true));
    assert Step(s2, StartNew(true)) == s3;
    es := Extend(es, s3, Cancel("a"));
    assert Step(s3, Cancel("a")) == AFTER_CANCEL;
  }

  /** The second posted restart, run after the cancel, makes the plugin's answer
      a second reply. Nothing in this run is out of the ordinary. */
  lemma RestartAnswersTwice() returns (es: seq<Event>)
    ensures GatedRun(es) && !Run(INITIAL, es).active && !AnsweredOnce(Run(INITIAL, es))
  {
    es := ReachAfterCancel();
    var s := AFTER_CANCEL;
    RunSnoc(es, StartNew(true));
    var s5 := s.(canceled := false, postedStarts := 0);
    assert Step(s, StartNew(true)) == s5;
    var es5 := es + [StartNew(true)];
    RunSnoc(es5, Respond(RespError));
    es := es5 + [Respond(RespError)];
    ExactlyOneReply(es);
  }

  /** After the cancelled request is gone and before the posted restart runs, a
      crash report takes the next request out without answering it. */
  lemma BrokenPipeLosesRequest() returns (es: seq<Event>)
    ensures EnabledRun(es) && !DeparturesAnswered(Run(INITIAL, es))
  {
    es := ReachAfterCancel();
    var s := AFTER_CANCEL;
    es := Extend(es, s, Respond(RespError));
    var s5 := Step(s, Respond(RespError));
    es := Extend(es, s5, Broken);
    AtLeastOneReply(es);
  }

  /** As long as the pipe holds, what the plugin stores it stores for an active request. */
  lemma OnlyActiveStores(es: seq<Event>)
    requires GatedRun(es) && Enabled(Run(INITIAL, es), Respond(RespStore))
    ensures Step(Run(INITIAL, es), Respond(RespStore)).stores > Run(INITIAL, es).stores ==> Run(INITIAL, es).active
  {
    GatedRunsAreSafe(es);
  }

  // ---------------------------------------------------------- no stalling

  /** No request arrived at a system that was not ready, or the system became ready
      since. */
  predicate ReadyRun(es: seq<Event>) {
    es == [] ||
    match es[|es| - 1]
    case Arrive(_, ready) => ready && ReadyRun(es[..|es| - 1])
    case SystemReady => true
    case _ => ReadyRun(es[..|es| - 1])
  }

  predicate Stalled(s: State) {
    !s.gone && s.queue != [] && !s.active && s.postedStarts == 0
  }

  /** No wake-up is lost: as long as the pipe holds and the system is ready, whenever
      requests wait and none is active a restart is on its way. */
  lemma {:induction false} NeverStalls(es: seq<Event>)
    requires GatedRun(es) && ReadyRun(es)
    ensures !Stalled(Run(INITIAL, es))
  {
    if es != [] {
      var n := |es| - 1;
      assert es == es[..n] + [es[n]];
      GatedRunsAreSafe(es[..n]);
      RunsAreOrdered(es[..n]);
      if ReadyRun(es[..n]) {
        NeverStalls(es[..n]);
      }
      if !Run(INITIAL, es[..n]).gone {
        StepNeverStalls(Run(INITIAL, es[..n]), es[n]);
      }
    }
  }

  lemma StepNeverStalls(s: State, e: Event)
    requires OrderInv(s) && GateInv(s) && Enabled(s, e) && !e.Broken? && !s.gone
    requires Stalled(s) ==> e.SystemReady?
    requires e.Arrive? ==> e.ready
    ensures !Stalled(LiveStep(s, e))
  {
    match e
    case StartNew(processOk) => RestartNeverStalls(TakePosted(s), processOk);
    case Respond(response) => RespondNeverStalls(s, response);
    case _ =>
  }

  lemma RestartNeverStalls(s: State, processOk: bool)
    requires s.watcher == UiPending ==> s.active
    ensures !Stalled(StartNewStep(s, processOk))
  {
  }

  lemma RespondNeverStalls(s: State, response: Response)
    requires OrderInv(s) && GateInv(s) && s.engaged && !Stalled(s)
    ensures !Stalled(RespondStep(s, response))
  {
  }

  // ------------------------------------------ what the plugin says, exactly

  /** A result, an error or a crash ends the head's turn: unless it is marked it is
      told, by the kind that fits, and its dialog is closed; in either case it
      leaves, and a restart is posted. */
  lemma TerminalExactly(s: State, e: Event)
    requires !s.gone && Terminal(s, e)
    ensures var t := Step(s, e);
            && t.obtained == (s.obtained || e.Respond?)
            && (s.queue == [] ==> t == s.(obtained := t.obtained))
            && (s.queue != [] ==>
                  && t.queue == s.queue[1..] && !t.active && t.postedStarts == s.postedStarts + 1
                  && t.canceled == s.canceled
                  && t.replies == s.replies + (if s.canceled then []
                                               else [Reply(s.queue[0].serial, if e == Respond(RespResult) then Result else Failure)])
                  && t.watcher == (if !s.canceled && s.watcher == UiPending then NoUi else s.watcher))
  {
  }

  /** While the gate is shut nothing the plugin says reaches the core. While it is open,
      a store gets through, an allowed dialog or a refresh opens one for the head
      unless that is cancelled, and a forbidden dialog and a signal change nothing. */
  lemma ResponseExactly(s: State, response: Response)
    requires !s.gone && !response.RespResult? && !response.RespError?
    ensures Step(s, Respond(response)) ==
            if s.obtained then s
            else if response == RespStore then s.(stores := s.stores + 1)
            else if response in {RespUi(true), RespRefresh} && !s.canceled && s.queue != [] then s.(watcher := UiPending)
            else s
  {
  }

  /** A dialog that was opened and answered is out of the way again, and nothing else
      has changed. */
  lemma DialogCloses(s: State)
    requires !s.gone && s.watcher == UiPending
    ensures Step(Step(s, UiReplied), UiDelivered) == s.(watcher := NoUi)
  {
  }

  // ------------------------------------------- collecting with requests waiting

  /** The core may be collected now, and requests would go with it. */
  predicate TakesAlong(s: State) {
    Enabled(s, Collect) && Abandons(s, Collect)
  }

  /** startNewRequest runs, on a core that is still there. */
  predicate Restarts(s: State, e: Event) {
    !s.gone && e.StartNew?
  }

  /** The i-th event started a request; it found the queue empty. */
  predicate Started(es: seq<Event>, i: nat) {
    i < |es| && Restarts(Run(INITIAL, es[..i]), es[i]) && Starts(Run(INITIAL, es[..i]))
  }

  predicate FoundEmpty(es: seq<Event>, i: nat) {
    i < |es| && Restarts(Run(INITIAL, es[..i]), es[i]) && Run(INITIAL, es[..i]).queue == []
  }

  predicate NeverEmptySince(es: seq<Event>, i: nat) {
    forall j :: i < j < |es| ==> !FoundEmpty(es, j)
  }

  /** Some request was started, and no restart found the queue empty since. */
  predicate CollectionOff(es: seq<Event>) {
    exists i :: 0 <= i < |es| && Started(es, i) && NeverEmptySince(es, i)
  }

  lemma CollectionOffSnoc(es: seq<Event>, e: Event)
    ensures var s := Run(INITIAL, es);
            (CollectionOff(es + [e])
       <==> (Restarts(s, e) && Starts(s)) || (CollectionOff(es) && !(Restarts(s, e) && s.queue == [])))
  {
    var es', n, s := es + [e], |es|, Run(INITIAL, es);
    assert es'[..n] == es && es'[n] == e;
    forall j | 0 <= j < n
      ensures (Started(es', j) <==> Started(es, j)) && (FoundEmpty(es', j) <==> FoundEmpty(es, j))
    {
      assert es'[..j] == es[..j];
    }
    if Restarts(s, e) && Starts(s) {
      assert Started(es', n) && NeverEmptySince(es', n);
    } else if CollectionOff(es) && !(Restarts(s, e) && s.queue == []) {
      var i :| 0 <= i < |es| && Started(es, i) && NeverEmptySince(es, i);
      assert Started(es', i) && NeverEmptySince(es', i);
    }
    if i :| 0 <= i < |es'| && Started(es', i) && NeverEmptySince(es', i) && i < n {
      assert Started(es, i) && NeverEmptySince(es, i) && !FoundEmpty(es', n);
    }
  }

  lemma {:induction false} AutoDestructExactly(es: seq<Event>)
    ensures Run(INITIAL, es).autoDestruct <==> !CollectionOff(es)
  {
    if es != [] {
      var n := |es| - 1;
      assert es == es[..n] + [es[n]];
      AutoDestructExactly(es[..n]);
      CollectionOffSnoc(es[..n], es[n]);
      AutoDestructStep(Run(INITIAL, es[..n]), es[n]);
    }
  }

  lemma AutoDestructStep(s: State, e: Event)
    ensures Step(s, e).autoDestruct
       <==> !(Restarts(s, e) && Starts(s)) && (s.autoDestruct || (Restarts(s, e) && s.queue == []))
  {
    if !s.gone {
      StepFlags(s, e);
    }
  }

  // Which steps change whether the core may be collected, and whether it is gone.

  lemma StepFlags(s: State, e: Event)
    requires !s.gone
    ensures LiveStep(s, e).autoDestruct
       <==> !(e.StartNew? && Starts(s)) && (s.autoDestruct || (e.StartNew? && s.queue == []))
    ensures LiveStep(s, e).gone <==> e.Collect? && !Refuses(s)
    ensures e.Collect? ==> LiveStep(s, e).queue == s.queue
  {
    match e
    case StartNew(processOk) => StartNewFlags(TakePosted(s), processOk);
    case Respond(response) => RespondFlags(s, response);
    case Cancel(key) => CancelFlags(s, key);
    case Broken => TerminalFlags(s, Failure);
    case _ => AsideFlags(s, e);
  }

  lemma AsideFlags(s: State, e: Event)
    requires !s.gone && (e.Arrive? || e.SystemReady? || e.UiReplied? || e.UiDelivered? || e.Collect?)
    ensures LiveStep(s, e).autoDestruct == s.autoDestruct
    ensures LiveStep(s, e).gone <==> e.Collect? && !Refuses(s)
    ensures e.Collect? ==> LiveStep(s, e).queue == s.queue
  {
  }

  lemma CancelFlags(s: State, key: string)
    ensures CancelStep(s, key).autoDestruct == s.autoDestruct && CancelStep(s, key).gone == s.gone
  {
  }

  lemma TerminalFlags(s: State, kind: ReplyKind)
    ensures TerminalStep(s, kind).autoDestruct == s.autoDestruct && TerminalStep(s, kind).gone == s.gone
  {
  }

  lemma StartNewFlags(s: State, processOk: bool)
    ensures StartNewStep(s, processOk).autoDestruct <==> !Starts(s) && (s.autoDestruct || s.queue == [])
    ensures StartNewStep(s, processOk).gone == s.gone
  {
  }

  lemma RespondFlags(s: State, response: Response)
    ensures RespondStep(s, response).autoDestruct == s.autoDestruct && RespondStep(s, response).gone == s.gone
  {
    TerminalFlags(s, Result);
    TerminalFlags(s, Failure);
  }

  /** At any point of any run, collecting the core takes waiting requests along,
      unanswered, if and only if it is there, some wait, none is active, no dialog is
      watched, and no request was started since a restart last found the queue
      empty. */
  lemma TakesAlongExactly(es: seq<Event>)
    ensures var s := Run(INITIAL, es);
            (TakesAlong(s) <==> !s.gone && s.queue != [] && !s.active && s.watcher == NoUi && !CollectionOff(es))
  {
    AutoDestructExactly(es);
  }

  /** How many requests had arrived when startNewRequest last ran. */
  function LastStart(es: seq<Event>): nat {
    if es == [] then 0
    else if es[|es| - 1].StartNew? then Run(INITIAL, es[..|es| - 1]).arrivals
    else LastStart(es[..|es| - 1])
  }

  /** How often the system was ready for a request, or became ready, since. */
  function ReadySince(es: seq<Event>): nat {
    if es == [] then 0
    else
      var e, before := es[|es| - 1], ReadySince(es[..|es| - 1]);
      if e.StartNew? then 0
      else if (e.Arrive? && e.ready) || e.SystemReady? then before + 1
      else before
  }

  lemma {:induction false} LateArrivals(es: seq<Event>)
    requires GatedRun(es) && !Run(INITIAL, es).gone
    ensures var s := Run(INITIAL, es);
            && LastStart(es) <= s.arrivals
            && ReadySince(es) <= s.postedStarts
            && (s.autoDestruct && s.queue != [] ==> LastStart(es) <= s.queue[0].serial)
  {
    if es != [] {
      var n := |es| - 1;
      assert es == es[..n] + [es[n]];
      LateArrivals(es[..n]);
      RunsAreOrdered(es[..n]);
      GatedRunsAreSafe(es[..n]);
      LateStep(Run(INITIAL, es[..n]), es[n], LastStart(es[..n]));
    }
  }

  lemma LateStep(s: State, e: Event, last: nat)
    requires OrderInv(s) && GateInv(s) && Enabled(s, e) && !e.Broken? && last <= s.arrivals && !s.gone
    requires s.autoDestruct && s.queue != [] ==> last <= s.queue[0].serial
    ensures var s' := Step(s, e);
            && s.arrivals <= s'.arrivals
            && (s'.autoDestruct && s'.queue != [] ==>
                  !e.StartNew? && last <= s'.queue[0].serial)
            && s'.postedStarts >= (if e.StartNew? then 0
                                   else if (e.Arrive? && e.ready) || e.SystemReady? then s.postedStarts + 1
                                   else s.postedStarts)
  {
    match e
    case Cancel(key) => LateCancel(s, key, last);
    case StartNew(processOk) => LateStartNew(s, processOk);
    case Respond(response) => LateRespond(s, response);
    case _ =>
  }

  lemma LateStartNew(s: State, processOk: bool)
    requires OrderInv(s) && GateInv(s)
    ensures var s' := LiveStep(s, StartNew(processOk));
            s'.arrivals == s.arrivals && (s'.autoDestruct ==> s'.queue == [])
  {
    var taken := TakePosted(s);
    StartNewFlags(taken, processOk);
    assert LiveStep(s, StartNew(processOk)) == StartNewStep(taken, processOk);
  }

  /** An idle core hears nothing through the gate that changes its queue. */
  lemma LateRespond(s: State, response: Response)
    requires OrderInv(s) && GateInv(s) && s.engaged
    ensures var s' := RespondStep(s, response);
            && s'.arrivals == s.arrivals && s'.postedStarts >= s.postedStarts
            && s'.autoDestruct == s.autoDestruct && (s.autoDestruct ==> s'.queue == s.queue)
  {
    RespondFlags(s, response);
  }

  lemma LateCancel(s: State, key: string, last: nat)
    requires OrderInv(s) && last <= s.arrivals
    requires s.autoDestruct && s.queue != [] ==> last <= s.queue[0].serial
    ensures var s' := CancelStep(s, key);
            s'.autoDestruct && s'.queue != [] ==> last <= s'.queue[0].serial
  {
    var i := FindKey(s.queue, key);
    if i == 0 && |s.queue| > 1 && !s.active {
      assert CancelStep(s, key).queue[0] == s.queue[1];
    }
  }

  /** As long as the pipe holds, the requests a collection takes along arrived after
      startNewRequest last ran. If no restart is posted either, none of them found
      the credentials system ready, and it has not become ready since. */
  lemma TakenAlongArrivedLate(es: seq<Event>)
    requires GatedRun(es) && TakesAlong(Run(INITIAL, es))
    ensures forall i :: 0 <= i < |Run(INITIAL, es).queue| ==> LastStart(es) <= Run(INITIAL, es).queue[i].serial
    ensures Run(INITIAL, es).postedStarts == 0 ==> ReadySince(es) == 0
  {
    LateArrivals(es);
    RunsAreOrdered(es);
  }

  /** A request made before the credentials system is ready is collected with its
      core once the core has been idle for long enough. */
  lemma CollectedUnanswered(key: string) returns (es: seq<Event>)
    ensures es == [Arrive(key, false), Collect] && GatedRun(es)
    ensures var s := Run(INITIAL, es);
            LeftBehind(s) && PlaceOf(s, 0) == Gone && Kinds(s.replies, 0) == [] && !DeparturesAnswered(s)
  {
    var waiting := INITIAL.(queue := [Request(0, key)], arrivals := 1);
    assert Step(INITIAL, Arrive(key, false)) == waiting;
    es := Extend([], INITIAL, Arrive(key, false));
    assert es == [Arrive(key, false)];
    es := Extend(es, waiting, Collect);
  }

  // ------------------------------------------------- collecting a busy core

  /** As long as the pipe holds, a core that may be collected refuses to be destroyed
      if and only if the answer to a dialog is still on its way to it. */
  lemma RefusesExactly(es: seq<Event>)
    requires GatedRun(es) && Run(INITIAL, es).autoDestruct
    ensures Refuses(Run(INITIAL, es)) <==> Run(INITIAL, es).watcher == UiAnswered
  {
    GatedRunsAreSafe(es);
    RunsAreOrdered(es);
  }

  /** The result overtakes the answered dialog, and the restart after it turns
      collection on: the idle core refuses to be destroyed. */
  lemma IdleCoreRefuses(key: string) returns (es: seq<Event>)
    ensures GatedRun(es)
    ensures var s := Run(INITIAL, es);
            Enabled(s, Collect) && Refuses(s) && !Step(s, Collect).gone && s.queue == []
  {
    es := DialogOvertaken(key);
    es := Extend(es, OvertakenState(key), StartNew(true));
  }

  function OvertakenState(key: string): State {
    DialogOf(key).(watcher := UiAnswered, queue := [], active := false, obtained := true, postedStarts := 1,
                   replies := [Reply(0, Result)])
  }

  lemma DialogOvertaken(key: string) returns (es: seq<Event>)
    ensures GatedRun(es) && NoMisstep(es) && NoOrphaning(es) && Run(INITIAL, es) == OvertakenState(key)
  {
    es := DialogOpens(key);
    es := Extend(es, DialogOf(key), UiReplied);
    es := Extend(es, DialogOf(key).(watcher := UiAnswered), Respond(RespResult));
  }

  /** The only request is active, with a dialog open. */
  function DialogOf(key: string): State {
    INITIAL.(queue := [Request(0, key)], arrivals := 1, active := true, autoDestruct := false, engaged := true,
             handed := [0], watcher := UiPending)
  }

  lemma DialogOpens(key: string) returns (es: seq<Event>)
    ensures GatedRun(es) && NoMisstep(es) && NoOrphaning(es) && Run(INITIAL, es) == DialogOf(key)
  {
    var s := INITIAL.(queue := [Request(0, key)], arrivals := 1, postedStarts := 1);
    es := Extend([], INITIAL, Arrive(key, true));
    es := Extend(es, s, StartNew(true));
    s := DialogOf(key).(watcher := NoUi);
    es := Extend(es, s, Respond(RespUi(true)));
  }

  // ------------------------------------------------------------ the classes

  /** The flags of the plugin proxy; the pipes behind it are outside the model. */
  class PluginProxy {
    var isProcessing: bool
    var isResultObtained: bool
    ghost var engaged: bool

    constructor ()
      ensures !isProcessing && !isResultObtained && !engaged
    {
      isProcessing, isResultObtained, engaged := false, false, false;
    }

    /** started: whether the plugin process runs or could be restarted. */
    method Process(started: bool) returns (ok: bool)
      modifies this
      ensures ok == started
      ensures isResultObtained == (if started then false else old(isResultObtained))
      ensures engaged == (started || old(engaged))
      ensures isProcessing == (started || old(isProcessing))
    {
      if !started { return false; }
      isResultObtained := false;
      isProcessing := true;
      engaged := true;
      return true;
    }

    /** Hands the answer of a dialog, or its refusal, to the plugin. */
    method ProcessUi(started: bool) returns (ok: bool)
      modifies `isProcessing
      ensures ok == started && isProcessing == (started || old(isProcessing))
    {
      if !started { return false; }
      isProcessing := true;
      return true;
    }

    /** The signals are direct connections to the core that owns this proxy. started:
        whether the process runs or could be restarted, to be told that its dialog
        is forbidden. */
    method HandlePluginResponse(core: SessionCore, response: Response, started: bool)
      requires core.plugin == this
      modifies this, core
      ensures core.View() == RespondStep(old(core.View()), response)
      ensures isProcessing ==
              if response.RespResult? || response.RespError? then false
              else old(isProcessing) || (response == RespUi(false) && !old(isResultObtained) && started)
    {
      if response.RespResult? {
        isProcessing := false;
        if !isResultObtained {
          core.ProcessResultReply();
        }
        isResultObtained := true;
      } else if response.RespError? {
        isProcessing := false;
        if !isResultObtained {
          core.ProcessError();
        }
        isResultObtained := true;
      } else if response.RespUi? {
        if !isResultObtained {
          if !response.allowed {
            var _ := ProcessUi(started);
          } else {
            core.ProcessUiRequest();
          }
        }
      } else if response.RespRefresh? {
        if !isResultObtained {
          core.ProcessRefreshRequest();
        }
      } else if response.RespStore? {
        if !isResultObtained {
          core.ProcessStore();
        }
      }
    }
  }

  class SessionCore {
    const plugin: PluginProxy
    var listOfRequests: seq<Request>
    var requestIsActive: bool
    var canceled: bool
    var watcher: Watcher
    var autoDestruct: bool
    var postedStarts: nat
    var arrivals: nat              // serial of the next message
    ghost var replies: seq<Reply>
    ghost var handed: seq<nat>
    ghost var dropped: set<nat>
    ghost var stores: nat
    var gone: bool

    ghost function View(): State
      reads this, plugin
    {
      State(listOfRequests, requestIsActive, canceled, watcher, autoDestruct,
            plugin.isResultObtained, plugin.engaged, postedStarts, arrivals, replies, handed, dropped,
            stores, gone)
    }

    constructor ()
      ensures View() == INITIAL && fresh(plugin)
    {
      plugin := new PluginProxy();
      listOfRequests := [];
      requestIsActive, canceled, watcher, autoDestruct := false, false, NoUi, true;
      postedStarts, arrivals, replies, handed, dropped, stores, gone := 0, 0, [], [], {}, 0, false;
    }

    method Process(key: string, ready: bool)
      modifies this
      ensures View() == ArriveStep(old(View()), key, ready)
    {
      listOfRequests := listOfRequests + [Request(arrivals, key)];
      arrivals := arrivals + 1;
      if ready {
        postedStarts := postedStarts + 1;
      }
    }

    method CancelRequest(cancelKey: string)
      modifies this
      ensures View() == CancelStep(old(View()), cancelKey)
    {
      var requestIndex := 0;
      while requestIndex < |listOfRequests|
        invariant requestIndex <= |listOfRequests|
        invariant forall k :: 0 <= k < requestIndex ==> listOfRequests[k].key != cancelKey
        invariant View() == old(View())
      {
        if listOfRequests[requestIndex].key == cancelKey { break; }
        requestIndex := requestIndex + 1;
      }
      assert requestIndex == FindKey(listOfRequests, cancelKey);

      if requestIndex < |listOfRequests| {
        var isActive := requestIndex == 0 && requestIsActive;
        if isActive {
          canceled := true;
          if watcher == UiPending {
            watcher := NoUi;
          }
        }
        var rd := listOfRequests[requestIndex];
        if !isActive {
          listOfRequests := RemoveAt(listOfRequests, requestIndex);
          dropped := dropped + {rd.serial};
        }
        replies := replies + [Reply(rd.serial, Canceled)];
      }
    }

    method RequestDone()
      requires listOfRequests != []
      modifies this
      ensures View() == RequestDoneStep(old(View()))
    {
      dropped := if requestIsActive then dropped else dropped + {listOfRequests[0].serial};
      listOfRequests := listOfRequests[1..];
      requestIsActive := false;
      postedStarts := postedStarts + 1;
    }

    method StartProcess(processOk: bool)
      requires listOfRequests != []
      modifies this, plugin
      ensures View() == StartProcessStep(old(View()), processOk)
    {
      requestIsActive := true;
      var data := listOfRequests[0];
      handed := handed + [data.serial];
      var ok := plugin.Process(processOk);
      if !ok {
        replies := replies + [Reply(data.serial, StartFailed)];
        RequestDone();
      }
    }

    method StartNewRequest(processOk: bool)
      modifies this, plugin
      ensures View() == StartNewStep(old(View()), processOk)
    {
      canceled := false;
      if listOfRequests == [] {
        autoDestruct := true;
        return;
      }
      if requestIsActive { return; }
      if watcher == UiPending { return; }
      autoDestruct := false;
      StartProcess(processOk);
    }

    /** The event loop delivering one posted startNewRequest call. */
    method DeliverStart(processOk: bool)
      requires postedStarts > 0
      modifies this, plugin
      ensures View() == LiveStep(old(View()), StartNew(processOk))
    {
      postedStarts := postedStarts - 1;
      StartNewRequest(processOk);
    }

    method CredentialsSystemReady()
      modifies this
      ensures View() == LiveStep(old(View()), SystemReady)
    {
      postedStarts := postedStarts + 1;
    }

    method ProcessResultReply()
      modifies this
      ensures View() == TerminalStep(old(View()), Result)
    {
      if listOfRequests == [] { return; }
      var rd := listOfRequests[0];
      if !canceled {
        replies := replies + [Reply(rd.serial, Result)];
        if watcher == UiPending {
          watcher := NoUi;
        }
      }
      RequestDone();
    }

    method ProcessError()
      modifies this
      ensures View() == TerminalStep(old(View()), Failure)
    {
      if listOfRequests == [] { return; }
      var rd := listOfRequests[0];
      if !canceled {
        replies := replies + [Reply(rd.serial, Failure)];
        if watcher == UiPending {
          watcher := NoUi;
        }
      }
      RequestDone();
    }

    method ProcessUiRequest()
      modifies this
      ensures View() == UiRequestStep(old(View()))
    {
      if !canceled && listOfRequests != [] {
        watcher := NoUi;
        watcher := UiPending;
      }
    }

    method ProcessRefreshRequest()
      modifies this
      ensures View() == UiRequestStep(old(View()))
    {
      if !canceled && listOfRequests != [] {
        watcher := NoUi;
        watcher := UiPending;
      }
    }

    /** The source asserts that the queue is not empty. */
    method QueryUiSlot()
      requires watcher == UiAnswered && listOfRequests != []
      modifies this
      ensures View() == LiveStep(old(View()), UiDelivered)
    {
      watcher := NoUi;
    }

    /** What is stored goes to the credentials database. */
    method ProcessStore()
      modifies this
      ensures View() == old(View()).(stores := old(stores) + 1)
    {
      stores := stores + 1;
    }

    /** Called for an idle core; it is refused while a request is active. */
    method Destroy()
      modifies this
      ensures View() == CollectStep(old(View()))
    {
      if requestIsActive || watcher != NoUi { return; }
      gone := true;
    }
  }
}
