/**
 The client's proxy for a daemon object: method calls wait in a queue until there
 is a connection and an object path, go out, and are queued again when the
 object went away under them; signal subscriptions are played again to every new
 interface.
 */
module AsyncProxy {
  import opened Common
  import opened Lists

  datatype Status = Incomplete | Ready | Invalid

  /** One pending call: whether it was ever sent, over which interface last, and
      whether that one is gone; and how often it has emitted finished. */
  datatype Call = Call(watching: bool, via: nat, viaDestroyed: bool, finished: nat)

  datatype Proxy = Proxy(
    status: Status,
    connected: bool,              // there is a connection object
    path: string,
    iface: Option<nat>,           // the current interface
    nextIface: nat,
    carried: seq<string>,         // the subscriptions on the current interface
    subs: seq<string>,            // every subscription ever asked for
    queue: seq<nat>,              // calls waiting
    flying: multiset<nat>,        // replies the bus still owes
    posted: multiset<nat>,        // failures posted to the event loop
    calls: seq<Call>
  )

  const INITIAL := Proxy(Incomplete, false, "", None, 0, [], [], [], multiset{}, multiset{}, [])

  function SendOne(p: Proxy, c: nat): Proxy
    requires c < |p.calls| && p.iface.Some?
  {
    p.(calls := p.calls[c := p.calls[c].(watching := true, via := p.iface.value, viaDestroyed := false)],
       flying := p.flying + multiset{c})
  }

  /** Emitting finished, to which the proxy reacts by taking the call off its queue. */
  function FinishOne(p: Proxy, c: nat): Proxy
    requires c < |p.calls|
  {
    p.(calls := p.calls[c := p.calls[c].(finished := p.calls[c].finished + 1)], queue := RemoveOne(p.queue, c))
  }

  predicate Below(cs: seq<nat>, n: nat) {
    forall i :: 0 <= i < |cs| ==> cs[i] < n
  }

  predicate InRange(p: Proxy, cs: seq<nat>) {
    Below(cs, |p.calls|)
  }

  function SendAll(p: Proxy, cs: seq<nat>): (r: Proxy)
    requires InRange(p, cs) && p.iface.Some?
    ensures |r.calls| == |p.calls| && r.iface == p.iface
  {
    if cs == [] then p else SendOne(SendAll(p, cs[..|cs| - 1]), cs[|cs| - 1])
  }

  function FinishAll(p: Proxy, cs: seq<nat>): (r: Proxy)
    requires InRange(p, cs)
    ensures |r.calls| == |p.calls|
    ensures forall c :: 0 <= c < |p.calls| ==> r.calls[c].watching == p.calls[c].watching
  {
    if cs == [] then p else FinishOne(FinishAll(p, cs[..|cs| - 1]), cs[|cs| - 1])
  }

  /** What the client's error slots do while calls fail: by the failing call, the
      calls its slot cancels. */
  type Callbacks = map<nat, seq<nat>>

  predicate Callable(p: Proxy, callbacks: Callbacks) {
    AllBelow(callbacks, |p.calls|)
  }

  predicate AllBelow(callbacks: Callbacks, n: nat) {
    forall c :: c in callbacks ==> Below(callbacks[c], n)
  }

  /** The calls that are not too late to cancel. */
  function Unsent(calls: seq<Call>, cs: seq<nat>): (r: seq<nat>)
    requires Below(cs, |calls|)
    ensures Below(r, |calls|)
  {
    if cs == [] then []
    else Unsent(calls, cs[..|cs| - 1]) + if calls[cs[|cs| - 1]].watching then [] else [cs[|cs| - 1]]
  }

  function CancelledBy(calls: seq<Call>, callbacks: Callbacks, c: nat): (r: seq<nat>)
    requires AllBelow(callbacks, |calls|)
    ensures Below(r, |calls|)
  {
    if c in callbacks then Unsent(calls, callbacks[c]) else []
  }

  /** The calls that emit finished while the given ones fail one by one: each after
      those that its own error slot cancels. */
  function Emitted(calls: seq<Call>, cs: seq<nat>, callbacks: Callbacks): (r: seq<nat>)
    requires Below(cs, |calls|) && AllBelow(callbacks, |calls|)
    ensures Below(r, |calls|)
  {
    if cs == [] then []
    else Emitted(calls, cs[..|cs| - 1], callbacks) + CancelledBy(calls, callbacks, cs[|cs| - 1]) + [cs[|cs| - 1]]
  }

  /** No error slot of a waiting call cancels a call that was not sent. */
  predicate Quiet(p: Proxy, callbacks: Callbacks)
    requires InRange(p, p.queue) && Callable(p, callbacks)
  {
    forall c :: c in p.queue ==> CancelledBy(p.calls, callbacks, c) == []
  }

  function SetStatus(p: Proxy, status: Status, callbacks: Callbacks): Proxy
    requires InRange(p, p.queue) && (status == Ready ==> p.iface.Some?) && Callable(p, callbacks)
  {
    var q := p.(status := status);
    match status
    case Incomplete => q
    case Ready => SendAll(q.(carried := p.carried + p.subs), p.queue).(queue := [])
    case Invalid => FinishAll(q, Emitted(p.calls, p.queue, callbacks)).(queue := [])
  }

  /** The interface is deleted; its calls take note. */
  function DropIface(p: Proxy): Proxy {
    if p.iface == None then p
    else
      p.(iface := None, carried := [],
         calls := seq(|p.calls|, i requires 0 <= i < |p.calls| =>
           if p.calls[i].via == p.iface.value && p.calls[i].watching then p.calls[i].(viaDestroyed := true)
           else p.calls[i]))
  }

  /** alive: whether the connection reports to be connected. */
  function Update(p: Proxy, alive: bool, callbacks: Callbacks): Proxy
    requires InRange(p, p.queue) && Callable(p, callbacks)
  {
    var q := DropIface(p);
    if !q.connected || q.path == "" then SetStatus(q, Incomplete, callbacks)
    else if !alive then SetStatus(q, Invalid, callbacks)
    else SetStatus(q.(iface := Some(q.nextIface), nextIface := q.nextIface + 1), Ready, callbacks)
  }

  datatype Event =
    | SetConnection(alive: bool, callbacks: Callbacks)
    | SetDisconnected
    | SetObjectPath(path: string, alive: bool, callbacks: Callbacks)
    | SetError(callbacks: Callbacks)
    | Queue
    | Subscribe(name: string)
    | Reply(call: nat, gone: bool)      // gone: an error saying the object is not there
    | Post(call: nat)                   // a posted failure arrives
    | Cancel(call: nat)

  predicate Enabled(p: Proxy, e: Event) {
    && (e.SetConnection? || e.SetObjectPath? || e.SetError? ==> Callable(p, e.callbacks))
    && (e.Reply? ==> e.call in p.flying)
    && (e.Post? ==> e.call in p.posted)
    && (e.Cancel? ==> e.call < |p.calls|)
  }

  function QueueStep(p: Proxy): Proxy
    requires p.status == Ready ==> p.iface.Some?
  {
    var c := |p.calls|;
    var q := p.(calls := p.calls + [Call(false, 0, false, 0)]);
    match p.status
    case Ready => SendOne(q, c)
    case Incomplete => q.(queue := q.queue + [c])
    case Invalid => q.(posted := q.posted + multiset{c})
  }

  /** Too late once the call has been sent, even if it waits to be sent again. */
  function CancelStep(p: Proxy, c: nat): Proxy
    requires c < |p.calls|
  {
    if p.calls[c].watching then p else FinishOne(p, c)
  }

  function ReplyStep(p: Proxy, c: nat, gone: bool): Proxy
    requires c < |p.calls|
  {
    var landed := p.(flying := p.flying - multiset{c});
    if p.calls[c].viaDestroyed && gone then landed.(queue := p.queue + [c]) else FinishOne(landed, c)
  }

  /** What the definitions of the steps need: calls are known, and Ready means
      there is an interface. */
  predicate Sane(p: Proxy) {
    && InRange(p, p.queue)
    && (forall c :: c in p.flying ==> c < |p.calls| && p.calls[c].watching)
    && (forall c :: c in p.posted ==> c < |p.calls|)
    && (p.status == Ready ==> p.iface.Some?)
    && (p.iface == None ==> p.carried == [])
  }

  function Step(p: Proxy, e: Event): Proxy
    requires Sane(p) && Enabled(p, e)
  {
    match e
    case SetConnection(alive, callbacks) => Update(p.(connected := true), alive, callbacks)
    case SetDisconnected => Update(p.(connected := false, path := ""), false, map[])
    case SetObjectPath(path, alive, callbacks) => Update(p.(path := path), alive, callbacks)
    case SetError(callbacks) => SetStatus(p, Invalid, callbacks)
    case Queue => QueueStep(p)
    case Subscribe(name) =>
      p.(subs := p.subs + [name], carried := if p.status == Ready then p.carried + [name] else p.carried)
    case Reply(c, gone) => ReplyStep(p, c, gone)
    case Post(c) => FinishOne(p.(posted := p.posted - multiset{c}), c)
    case Cancel(c) => CancelStep(p, c)
  }

  // ------------------------------------------------------- accounting calls

  /** In how many places a call waits for something to happen to it. */
  function Places(p: Proxy, c: nat): nat {
    multiset(p.queue)[c] + p.flying[c] + p.posted[c]
  }

  /** An unfinished call is in exactly one place, a finished one in none, and no
      call finishes twice. */
  ghost predicate Accounted(p: Proxy, c: nat) {
    c < |p.calls| ==>
      p.calls[c].finished <= 1 && Places(p, c) == if p.calls[c].finished == 0 then 1 else 0
  }

  /** Ready means that everything is there, and that the interface carries exactly
      the subscriptions asked for, in order. */
  predicate ReadyInv(p: Proxy) {
    p.status == Ready ==> p.connected && p.path != "" && p.iface.Some? && p.carried == p.subs
  }

  ghost predicate Inv(p: Proxy) {
    Sane(p) && ReadyInv(p) && forall c: nat :: Accounted(p, c)
  }

  lemma {:induction false} RemoveOneCounts(s: seq<nat>, x: nat)
    ensures multiset(RemoveOne(s, x)) == multiset(s) - multiset{x}
    ensures forall i :: 0 <= i < |RemoveOne(s, x)| ==> RemoveOne(s, x)[i] in s
  {
    if s != [] {
      assert s == [s[0]] + s[1..];
      if s[0] != x {
        RemoveOneCounts(s[1..], x);
      }
    }
  }

  /** Finishing a call takes it from the queue, if it waits there, and nowhere else. */
  lemma FinishOneEffect(p: Proxy, c: nat)
    requires c < |p.calls| && InRange(p, p.queue)
    ensures var q := FinishOne(p, c);
            && multiset(q.queue) == multiset(p.queue) - multiset{c}
            && InRange(q, q.queue) && |q.calls| == |p.calls|
            && q == p.(queue := q.queue, calls := q.calls)
            && (forall d :: 0 <= d < |p.calls| ==>
                  q.calls[d] == p.calls[d].(finished := p.calls[d].finished + if d == c then 1 else 0))
  {
    RemoveOneCounts(p.queue, c);
  }

  lemma {:induction false} FinishAllCalls(p: Proxy, cs: seq<nat>, d: nat)
    requires InRange(p, cs) && d < |p.calls|
    ensures FinishAll(p, cs).calls[d] == p.calls[d].(finished := p.calls[d].finished + multiset(cs)[d])
  {
    if cs != [] {
      var n := |cs| - 1;
      FinishAllCalls(p, cs[..n], d);
      assert cs == cs[..n] + [cs[n]];
    }
  }

  lemma {:induction false} FinishAllEffect(p: Proxy, cs: seq<nat>)
    requires InRange(p, cs) && InRange(p, p.queue)
    ensures var q := FinishAll(p, cs);
            && InRange(q, q.queue)
            && q == p.(queue := q.queue, calls := q.calls)
            && (forall d :: 0 <= d < |p.calls| ==>
                  q.calls[d] == p.calls[d].(finished := p.calls[d].finished + multiset(cs)[d]))
  {
    FinishAllFrame(p, cs);
    forall d | 0 <= d < |p.calls|
      ensures FinishAll(p, cs).calls[d] == p.calls[d].(finished := p.calls[d].finished + multiset(cs)[d])
    {
      FinishAllCalls(p, cs, d);
    }
  }

  lemma {:induction false} FinishAllFrame(p: Proxy, cs: seq<nat>)
    requires InRange(p, cs) && InRange(p, p.queue)
    ensures InRange(FinishAll(p, cs), FinishAll(p, cs).queue)
    ensures FinishAll(p, cs) == p.(queue := FinishAll(p, cs).queue, calls := FinishAll(p, cs).calls)
  {
    if cs != [] {
      var n := |cs| - 1;
      FinishAllFrame(p, cs[..n]);
      RemoveOneCounts(FinishAll(p, cs[..n]).queue, cs[n]);
    }
  }

  lemma {:induction false} SendAllEffect(p: Proxy, cs: seq<nat>)
    requires InRange(p, cs) && p.iface.Some?
    ensures var q := SendAll(p, cs);
            && q.flying == p.flying + multiset(cs)
            && q == p.(flying := q.flying, calls := q.calls)
            && (forall d :: 0 <= d < |p.calls| ==>
                  q.calls[d] == if d in multiset(cs)
                                then p.calls[d].(watching := true, via := p.iface.value, viaDestroyed := false)
                                else p.calls[d])
  {
    if cs != [] {
      var n := |cs| - 1;
      SendAllEffect(p, cs[..n]);
      assert cs == cs[..n] + [cs[n]];
    }
  }

  lemma {:induction false} QuietEmits(calls: seq<Call>, cs: seq<nat>, callbacks: Callbacks)
    requires Below(cs, |calls|) && AllBelow(callbacks, |calls|)
    requires forall c :: c in cs ==> CancelledBy(calls, callbacks, c) == []
    ensures Emitted(calls, cs, callbacks) == cs
  {
    if cs != [] {
      var n := |cs| - 1;
      assert cs == cs[..n] + [cs[n]];
      QuietEmits(calls, cs[..n], callbacks);
    }
  }

  /** A call cancelled by an error slot emits finished in addition to those that fail. */
  lemma {:induction false} CancelledEmits(calls: seq<Call>, cs: seq<nat>, callbacks: Callbacks, c: nat, d: nat)
    requires Below(cs, |calls|) && AllBelow(callbacks, |calls|)
    ensures var emitted := multiset(Emitted(calls, cs, callbacks));
            && emitted[d] >= multiset(cs)[d]
            && (c in cs && d in CancelledBy(calls, callbacks, c) ==> emitted[d] > multiset(cs)[d])
  {
    if cs != [] {
      var n := |cs| - 1;
      assert cs == cs[..n] + [cs[n]];
      CancelledEmits(calls, cs[..n], callbacks, c, d);
    }
  }

  /** Going ready sends all waiting calls, and none is lost on the way. */
  lemma ReadyAccounts(p: Proxy)
    requires Sane(p) && (forall c: nat :: Accounted(p, c)) && p.iface.Some?
    ensures var q := SetStatus(p, Ready, map[]);
            && Sane(q) && (forall c: nat :: Accounted(q, c))
            && q == p.(status := Ready, carried := p.carried + p.subs, queue := [], flying := q.flying, calls := q.calls)
  {
    var q := SetStatus(p, Ready, map[]);
    SendAllEffect(p.(status := Ready, carried := p.carried + p.subs), p.queue);
    forall c: nat ensures Accounted(q, c) { assert Accounted(p, c); }
  }

  /** Going invalid fails them all. */
  lemma InvalidAccounts(p: Proxy, callbacks: Callbacks)
    requires Sane(p.(status := Incomplete)) && forall c: nat :: Accounted(p, c)
    requires Callable(p, callbacks) && Quiet(p, callbacks)
    ensures var q := SetStatus(p, Invalid, callbacks);
            && Sane(q) && (forall c: nat :: Accounted(q, c))
            && q == p.(status := Invalid, queue := [], calls := q.calls)
  {
    var q := SetStatus(p, Invalid, callbacks);
    QuietEmits(p.calls, p.queue, callbacks);
    FinishAllEffect(p.(status := Invalid), p.queue);
    forall c: nat ensures Accounted(q, c) { FailedAccounts(p, q, c); }
  }

  lemma FailedAccounts(p: Proxy, q: Proxy, c: nat)
    requires Accounted(p, c) && |q.calls| == |p.calls|
    requires q.queue == [] && q.flying == p.flying && q.posted == p.posted
    requires c < |p.calls| ==> q.calls[c].finished == p.calls[c].finished + multiset(p.queue)[c]
    ensures Accounted(q, c)
  {
  }

  /** Failing the waiting calls keeps the account, exactly when no error slot cancels
      a call that was not sent: such a call finishes twice, whether its own turn to
      fail is over, is still to come, or is a posted one. */
  lemma FailureExactly(p: Proxy, callbacks: Callbacks)
    requires Inv(p) && Callable(p, callbacks)
    ensures Inv(SetStatus(p, Invalid, callbacks)) <==> Quiet(p, callbacks)
  {
    if Quiet(p, callbacks) {
      InvalidAccounts(p, callbacks);
    } else {
      var c :| c in p.queue && CancelledBy(p.calls, callbacks, c) != [];
      NotQuiet(p, callbacks, c, CancelledBy(p.calls, callbacks, c)[0]);
    }
  }

  lemma {:induction false} UnsentAre(calls: seq<Call>, cs: seq<nat>, d: nat)
    requires Below(cs, |calls|) && d in Unsent(calls, cs)
    ensures d < |calls| && !calls[d].watching
  {
    var n := |cs| - 1;
    if calls[cs[n]].watching || d != cs[n] {
      UnsentAre(calls, cs[..n], d);
    }
  }

  lemma NotQuiet(p: Proxy, callbacks: Callbacks, c: nat, d: nat)
    requires Inv(p) && Callable(p, callbacks) && c in p.queue && d in CancelledBy(p.calls, callbacks, c)
    ensures !Accounted(SetStatus(p, Invalid, callbacks), d)
  {
    var emitted: seq<nat> := Emitted(p.calls, p.queue, callbacks);
    UnsentAre(p.calls, callbacks[c], d);
    var times: multiset<nat> := multiset(emitted);
    CancelledEmits(p.calls, p.queue, callbacks, c, d);
    FinishAllEffect(p.(status := Invalid), emitted);
    assert Accounted(p, d);
    assert SetStatus(p, Invalid, callbacks).calls[d].finished == p.calls[d].finished + times[d];
  }

  lemma SameAccount(p: Proxy, q: Proxy)
    requires forall c: nat :: Accounted(p, c)
    requires q.queue == p.queue && q.flying == p.flying && q.posted == p.posted && |q.calls| == |p.calls|
    requires forall c :: 0 <= c < |p.calls| ==> q.calls[c].finished == p.calls[c].finished
    ensures forall c: nat :: Accounted(q, c)
  {
    forall c: nat ensures Accounted(q, c) { assert Accounted(p, c); }
  }

  /** Without its interface the proxy is as good as incomplete. */
  lemma DropIfaceAccounts(p: Proxy)
    requires Sane(p) && forall c: nat :: Accounted(p, c)
    ensures var q := DropIface(p).(status := Incomplete);
            Sane(q) && q.iface == None && q.carried == [] && forall c: nat :: Accounted(q, c)
  {
    SameAccount(p, DropIface(p).(status := Incomplete));
  }

  lemma ReconnectKeepsInv(p: Proxy)
    requires Sane(p) && p.status == Incomplete && p.iface == None && p.connected && p.path != ""
    requires forall c: nat :: Accounted(p, c)
    ensures Inv(SetStatus(p.(iface := Some(p.nextIface), nextIface := p.nextIface + 1), Ready, map[]))
  {
    var r := p.(iface := Some(p.nextIface), nextIface := p.nextIface + 1);
    SameAccount(p, r);
    ReadyAccounts(r);
    assert r.carried + r.subs == r.subs;
  }

  lemma UpdateKeepsInv(p: Proxy, alive: bool, callbacks: Callbacks)
    requires Sane(p) && (forall c: nat :: Accounted(p, c)) && Callable(p, callbacks) && Quiet(p, callbacks)
    ensures Inv(Update(p, alive, callbacks))
  {
    DropIfaceAccounts(p);
    var q := DropIface(p).(status := Incomplete);
    if !q.connected || q.path == "" {
      assert Update(p, alive, callbacks) == q;
    } else if !alive {
      StillQuiet(p, callbacks);
      InvalidAccounts(q, callbacks);
      assert Update(p, alive, callbacks) == SetStatus(q, Invalid, callbacks);
    } else {
      ReconnectKeepsInv(q);
      assert Update(p, alive, callbacks)
          == SetStatus(q.(iface := Some(q.nextIface), nextIface := q.nextIface + 1), Ready, map[]);
    }
  }

  /** Which calls were sent. */
  ghost predicate SameSent(a: seq<Call>, b: seq<Call>) {
    |a| == |b| && forall c :: 0 <= c < |a| ==> a[c].watching == b[c].watching
  }

  lemma {:induction false} SameUnsent(a: seq<Call>, b: seq<Call>, cs: seq<nat>)
    requires Below(cs, |a|) && SameSent(a, b)
    ensures Unsent(a, cs) == Unsent(b, cs)
  {
    if cs != [] {
      SameUnsent(a, b, cs[..|cs| - 1]);
    }
  }

  lemma SameCancelled(a: seq<Call>, b: seq<Call>, callbacks: Callbacks, c: nat)
    requires AllBelow(callbacks, |a|) && SameSent(a, b)
    ensures CancelledBy(a, callbacks, c) == CancelledBy(b, callbacks, c)
  {
    if c in callbacks {
      SameUnsent(a, b, callbacks[c]);
    }
  }

  /** Deleting the interface does not change which calls were sent. */
  lemma StillQuiet(p: Proxy, callbacks: Callbacks)
    requires InRange(p, p.queue) && Callable(p, callbacks) && Quiet(p, callbacks)
    ensures Quiet(DropIface(p), callbacks)
  {
    var calls := DropIface(p).calls;
    forall c | c in p.queue ensures CancelledBy(calls, callbacks, c) == [] {
      assert CancelledBy(p.calls, callbacks, c) == [];
      SameCancelled(p.calls, calls, callbacks, c);
    }
  }

  lemma QueueKeepsInv(p: Proxy)
    requires Inv(p)
    ensures Inv(QueueStep(p))
  {
    var q := QueueStep(p);
    var n := |p.calls|;
    assert n !in p.queue && n !in p.flying && n !in p.posted;
    forall c: nat ensures Accounted(q, c) { assert Accounted(p, c); }
  }

  lemma RequeueKeepsInv(p: Proxy, c: nat)
    requires Inv(p) && c in p.flying
    ensures Inv(p.(flying := p.flying - multiset{c}, queue := p.queue + [c]))
  {
    var q := p.(flying := p.flying - multiset{c}, queue := p.queue + [c]);
    assert multiset(q.queue) == multiset(p.queue) + multiset{c};
    forall d: nat ensures Accounted(q, d) { assert Accounted(p, d); }
  }

  lemma LandKeepsInv(p: Proxy, c: nat)
    requires Inv(p) && c in p.flying
    ensures Inv(FinishOne(p.(flying := p.flying - multiset{c}), c))
  {
    var landed := p.(flying := p.flying - multiset{c});
    FinishOneEffect(landed, c);
    assert Accounted(p, c);
    forall d: nat ensures Accounted(FinishOne(landed, c), d) { assert Accounted(p, d); }
  }

  lemma ReplyKeepsInv(p: Proxy, c: nat, gone: bool)
    requires Inv(p) && c in p.flying
    ensures Inv(ReplyStep(p, c, gone))
  {
    if p.calls[c].viaDestroyed && gone {
      RequeueKeepsInv(p, c);
    } else {
      LandKeepsInv(p, c);
    }
  }

  lemma PostKeepsInv(p: Proxy, c: nat)
    requires Inv(p) && c in p.posted
    ensures Inv(FinishOne(p.(posted := p.posted - multiset{c}), c))
  {
    var landed := p.(posted := p.posted - multiset{c});
    FinishOneEffect(landed, c);
    assert Accounted(p, c);
    forall d: nat ensures Accounted(FinishOne(landed, c), d) { assert Accounted(p, d); }
  }

  /** The call was sent (and cancelling it does nothing), or it has neither
      finished nor a failure on its way. */
  predicate MayCancel(p: Proxy, c: nat)
    requires c < |p.calls|
  {
    p.calls[c].watching || (p.calls[c].finished == 0 && c !in p.posted)
  }

  /** Cancelling keeps the account, exactly when the call may be cancelled: a call
      made while the proxy was invalid finishes a second time when its posted
      failure comes, and so does one cancelled twice. */
  lemma CancelExactly(p: Proxy, c: nat)
    requires Inv(p) && c < |p.calls|
    ensures Inv(CancelStep(p, c)) <==> MayCancel(p, c)
  {
    var q := CancelStep(p, c);
    assert Accounted(p, c);
    if !p.calls[c].watching {
      FinishOneEffect(p, c);
      if MayCancel(p, c) {
        forall d: nat ensures Accounted(q, d) { assert Accounted(p, d); }
      } else {
        assert !Accounted(q, c);
      }
    }
  }

  /** The client cancels no call that may not be cancelled, neither on its own nor
      in an error slot. */
  predicate Permitted(p: Proxy, e: Event)
    requires Sane(p) && Enabled(p, e)
  {
    && (e.Cancel? ==> MayCancel(p, e.call))
    && (e.SetConnection? || e.SetObjectPath? || e.SetError? ==> Quiet(p, e.callbacks))
  }

  lemma StepKeepsInv(p: Proxy, e: Event)
    requires Inv(p) && Enabled(p, e) && Permitted(p, e)
    ensures Inv(Step(p, e))
  {
    match e
    case SetConnection(alive, callbacks) =>
      var q := p.(connected := true);
      SameAccount(p, q);
      UpdateKeepsInv(q, alive, callbacks);
    case SetDisconnected =>
      var q := p.(connected := false, path := "");
      SameAccount(p, q);
      UpdateKeepsInv(q, false, map[]);
    case SetObjectPath(path, alive, callbacks) =>
      var q := p.(path := path);
      SameAccount(p, q);
      UpdateKeepsInv(q, alive, callbacks);
    case SetError(callbacks) => FailureExactly(p, callbacks);
    case Queue => QueueKeepsInv(p);
    case Subscribe(name) =>
      var q := Step(p, e);
      SameAccount(p, q);
    case Reply(c, gone) => ReplyKeepsInv(p, c, gone);
    case Post(c) => PostKeepsInv(p, c);
    case Cancel(c) => CancelExactly(p, c);
  }

  ghost predicate Behaviour(ps: seq<Proxy>, es: seq<Event>) {
    && |ps| == |es| + 1 && ps[0] == INITIAL
    && forall i :: 0 <= i < |es| ==>
         Sane(ps[i]) && Enabled(ps[i], es[i]) && Permitted(ps[i], es[i]) && ps[i + 1] == Step(ps[i], es[i])
  }

  /** Over every run of connections, disconnections, path changes, errors, replies,
      requeues and permitted cancels: no call is lost and none finishes twice, and
      whenever the proxy is ready its interface carries every subscription. */
  lemma {:induction false} RunsKeepInv(ps: seq<Proxy>, es: seq<Event>, i: nat)
    requires Behaviour(ps, es) && i <= |es|
    ensures Inv(ps[i])
  {
    if i == 0 {
      forall c: nat ensures Accounted(INITIAL, c) {}
    } else {
      RunsKeepInv(ps, es, i - 1);
      StepKeepsInv(ps[i - 1], es[i - 1]);
    }
  }

  // ------------------------------------------- what one event does, exactly

  /** A reply finishes its call, unless the object went away with the interface it was
      sent over: then the call waits again. No other call is touched. */
  lemma ReplyExactly(p: Proxy, c: nat, gone: bool)
    requires Inv(p) && c in p.flying
    ensures var q := ReplyStep(p, c, gone);
            && (q.calls[c].finished == 1 <==> !(p.calls[c].viaDestroyed && gone))
            && q.queue == (if p.calls[c].viaDestroyed && gone then p.queue + [c] else p.queue)
            && q.calls == p.calls[c := p.calls[c].(finished := q.calls[c].finished)]
            && q == p.(flying := p.flying - multiset{c}, queue := q.queue, calls := q.calls)
  {
    assert Accounted(p, c);
    RemoveAbsent(p.queue, c);
  }

  lemma {:induction false} RemoveAbsent(s: seq<nat>, x: nat)
    requires x !in multiset(s)
    ensures RemoveOne(s, x) == s
  {
    if s != [] {
      assert s == [s[0]] + s[1..];
      RemoveAbsent(s[1..], x);
    }
  }

  /** A posted failure finishes its call. */
  lemma PostExactly(p: Proxy, c: nat)
    requires Inv(p) && c in p.posted
    ensures var q := FinishOne(p.(posted := p.posted - multiset{c}), c);
            && q == Step(p, Post(c))
            && q.calls == p.calls[c := p.calls[c].(finished := 1)]
            && q == p.(posted := p.posted - multiset{c}, calls := q.calls)
  {
    assert Accounted(p, c);
    RemoveAbsent(p.queue, c);
  }

  /** Cancelling a call that was sent does nothing. Any other one finishes once more and
      waits no longer. */
  lemma CancelEffect(p: Proxy, c: nat)
    requires Inv(p) && c < |p.calls|
    ensures var q := CancelStep(p, c);
            if p.calls[c].watching then q == p
            else
              && q.calls == p.calls[c := p.calls[c].(finished := p.calls[c].finished + 1)]
              && multiset(q.queue) == multiset(p.queue) - multiset{c}
              && q == p.(queue := q.queue, calls := q.calls)
  {
    RemoveOneCounts(p.queue, c);
  }

  /** A new call is sent over the current interface of a ready proxy, waits at an
      incomplete one, and is failed by a posted event at an invalid one. */
  lemma QueueExactly(p: Proxy)
    requires Inv(p)
    ensures var q, c := QueueStep(p), |p.calls|;
            && |q.calls| == c + 1 && q.calls[..c] == p.calls && q.calls[c].finished == 0
            && q.calls[c].watching == (p.status == Ready)
            && (p.status == Ready ==> q.calls[c].via == p.iface.value && !q.calls[c].viaDestroyed)
            && q.queue == (if p.status == Incomplete then p.queue + [c] else p.queue)
            && q.flying == (if p.status == Ready then p.flying + multiset{c} else p.flying)
            && q.posted == (if p.status == Invalid then p.posted + multiset{c} else p.posted)
            && q == p.(calls := q.calls, queue := q.queue, flying := q.flying, posted := q.posted)
  {
  }

  /** The status an update ends in. */
  function Outcome(p: Proxy, alive: bool): Status {
    if !p.connected || p.path == "" then Incomplete else if alive then Ready else Invalid
  }

  /** A call once its interface may be gone. */
  function Bereft(p: Proxy, c: Call): Call {
    if c.watching && p.iface == Some(c.via) then c.(viaDestroyed := true) else c
  }

  /** What becomes of a call in an update. */
  function Updated(p: Proxy, status: Status, c: nat): Call
    requires c < |p.calls|
  {
    var call := Bereft(p, p.calls[c]);
    if status == Ready && c in multiset(p.queue) then
      call.(watching := true, via := p.nextIface, viaDestroyed := false)
    else if status == Invalid then call.(finished := call.finished + multiset(p.queue)[c])
    else call
  }

  ghost predicate Updates(p: Proxy, status: Status, q: Proxy) {
    && q == p.(status := status, queue := q.queue, flying := q.flying, calls := q.calls,
               iface := if status == Ready then Some(p.nextIface) else None,
               nextIface := if status == Ready then p.nextIface + 1 else p.nextIface,
               carried := if status == Ready then p.subs else [])
    && q.queue == (if status == Incomplete then p.queue else [])
    && q.flying == (if status == Ready then p.flying + multiset(p.queue) else p.flying)
    && |q.calls| == |p.calls|
    && forall c :: 0 <= c < |p.calls| ==> q.calls[c] == Updated(p, status, c)
  }

  lemma DropIfaceForm(p: Proxy)
    requires p.iface == None ==> p.carried == []
    ensures var q := DropIface(p);
            && q == p.(iface := None, carried := [], calls := q.calls) && |q.calls| == |p.calls|
            && forall c :: 0 <= c < |p.calls| ==> q.calls[c] == Bereft(p, p.calls[c])
  {
  }

  /** Rebuilding the interface: the waiting calls go on waiting at an incomplete proxy,
      are all sent over the new interface of a ready one, which carries all
      subscriptions, and are all failed by an invalid one. The calls sent over the
      old one take note. */
  lemma UpdateExactly(p: Proxy, alive: bool, callbacks: Callbacks)
    requires InRange(p, p.queue) && Callable(p, callbacks) && Quiet(p, callbacks) && (p.iface == None ==> p.carried == [])
    ensures Updates(p, Outcome(p, alive), Update(p, alive, callbacks))
  {
    DropIfaceForm(p);
    StillQuiet(p, callbacks);
    var q := DropIface(p);
    match Outcome(p, alive)
    case Incomplete =>
    case Invalid => FailingFinishesAll(q, callbacks);
    case Ready => UpdateSends(p, q);
  }

  lemma UpdateSends(p: Proxy, q: Proxy)
    requires InRange(p, p.queue) && q == p.(iface := None, carried := [], calls := q.calls) && |q.calls| == |p.calls|
    requires forall c :: 0 <= c < |p.calls| ==> q.calls[c] == Bereft(p, p.calls[c])
    ensures Updates(p, Ready, SetStatus(q.(iface := Some(q.nextIface), nextIface := q.nextIface + 1), Ready, map[]))
  {
    var r := q.(iface := Some(q.nextIface), nextIface := q.nextIface + 1);
    assert r.carried + r.subs == r.subs;
    SendAllEffect(r.(status := Ready, carried := r.subs), r.queue);
  }

  lemma FailingFinishesAll(p: Proxy, callbacks: Callbacks)
    requires InRange(p, p.queue) && Callable(p, callbacks) && Quiet(p, callbacks)
    ensures var q := SetStatus(p, Invalid, callbacks);
            && q == p.(status := Invalid, queue := [], calls := q.calls) && |q.calls| == |p.calls|
            && (forall c :: 0 <= c < |p.calls| ==>
                  q.calls[c] == p.calls[c].(finished := p.calls[c].finished + multiset(p.queue)[c]))
  {
    QuietEmits(p.calls, p.queue, callbacks);
    FinishAllEffect(p.(status := Invalid), p.queue);
  }

  // ------------------------------------- where the proxy stands, from its history

  /** The subscriptions ever asked for, in order. */
  function Subscribed(es: seq<Event>): seq<string> {
    if es == [] then []
    else Subscribed(es[..|es| - 1]) + if es[|es| - 1].Subscribe? then [es[|es| - 1].name] else []
  }

  predicate Connected(es: seq<Event>) {
    es != [] &&
    match es[|es| - 1]
    case SetConnection(_, _) => true
    case SetDisconnected => false
    case _ => Connected(es[..|es| - 1])
  }

  function PathAfter(es: seq<Event>): string {
    if es == [] then ""
    else
      match es[|es| - 1]
      case SetObjectPath(path, _, _) => path
      case SetDisconnected => ""
      case _ => PathAfter(es[..|es| - 1])
  }

  function StatusAfter(es: seq<Event>): Status {
    if es == [] then Incomplete
    else
      match es[|es| - 1]
      case SetConnection(alive, _) => Standing(es, alive)
      case SetObjectPath(_, alive, _) => Standing(es, alive)
      case SetDisconnected => Incomplete
      case SetError(_) => Invalid
      case _ => StatusAfter(es[..|es| - 1])
  }

  function Standing(es: seq<Event>, alive: bool): Status {
    if !Connected(es) || PathAfter(es) == "" then Incomplete else if alive then Ready else Invalid
  }

  lemma HistoryGrows(es: seq<Event>, e: Event)
    ensures Connected(es + [e]) == (e.SetConnection? || (Connected(es) && !e.SetDisconnected?))
    ensures PathAfter(es + [e])
         == if e.SetObjectPath? then e.path else if e.SetDisconnected? then "" else PathAfter(es)
    ensures Subscribed(es + [e]) == if e.Subscribe? then Subscribed(es) + [e.name] else Subscribed(es)
  {
    assert (es + [e])[..|es|] == es;
  }

  lemma StatusGrows(es: seq<Event>, e: Event)
    ensures StatusAfter(es + [e])
         == if e.SetConnection? || e.SetObjectPath? then Standing(es + [e], e.alive)
            else if e.SetDisconnected? then Incomplete
            else if e.SetError? then Invalid
            else StatusAfter(es)
  {
    assert (es + [e])[..|es|] == es;
  }

  ghost predicate Tracked(p: Proxy, es: seq<Event>) {
    && p.connected == Connected(es) && p.path == PathAfter(es)
    && p.status == StatusAfter(es) && p.subs == Subscribed(es)
  }

  /** The connection, the path, the status and the subscriptions are at every point what
      the run so far says, and a ready proxy's interface carries just the
      subscriptions ever asked for, in order, however many reconnects there were. */
  lemma {:induction false} RunsTrack(ps: seq<Proxy>, es: seq<Event>, i: nat)
    requires Behaviour(ps, es) && i <= |es|
    ensures Tracked(ps[i], es[..i]) && (ps[i].status == Ready ==> ps[i].carried == Subscribed(es[..i]))
  {
    RunsKeepInv(ps, es, i);
    if i > 0 {
      RunsKeepInv(ps, es, i - 1);
      RunsTrack(ps, es, i - 1);
      assert es[..i] == es[..i - 1] + [es[i - 1]];
      TrackedStep(ps[i - 1], es[..i - 1], es[i - 1]);
    }
  }

  lemma TrackedStep(p: Proxy, es: seq<Event>, e: Event)
    requires Inv(p) && Enabled(p, e) && Permitted(p, e) && Tracked(p, es)
    ensures Tracked(Step(p, e), es + [e])
  {
    HistoryGrows(es, e);
    StatusGrows(es, e);
    match e
    case SetConnection(alive, callbacks) => UpdateExactly(p.(connected := true), alive, callbacks);
    case SetObjectPath(path, alive, callbacks) => UpdateExactly(p.(path := path), alive, callbacks);
    case SetDisconnected => UpdateExactly(p.(connected := false, path := ""), false, map[]);
    case SetError(callbacks) => FailingFinishesAll(p, callbacks);
    case Reply(c, gone) => ReplyExactly(p, c, gone);
    case _ =>
  }

  /** A sent call's interface counts as destroyed exactly if it is no longer the current
      one. */
  ghost predicate ViaInv(p: Proxy) {
    && (p.iface.Some? ==> p.iface.value < p.nextIface)
    && (forall c :: 0 <= c < |p.calls| && p.calls[c].watching ==>
          p.calls[c].via < p.nextIface && (p.calls[c].viaDestroyed <==> p.iface != Some(p.calls[c].via)))
  }

  lemma {:induction false} RunsKeepVia(ps: seq<Proxy>, es: seq<Event>, i: nat)
    requires Behaviour(ps, es) && i <= |es|
    ensures ViaInv(ps[i])
  {
    if i > 0 {
      RunsKeepInv(ps, es, i - 1);
      RunsKeepVia(ps, es, i - 1);
      StepKeepsVia(ps[i - 1], es[i - 1]);
    }
  }

  lemma StepKeepsVia(p: Proxy, e: Event)
    requires Inv(p) && ViaInv(p) && Enabled(p, e) && Permitted(p, e)
    ensures ViaInv(Step(p, e))
  {
    match e
    case SetConnection(alive, callbacks) => UpdateKeepsVia(p.(connected := true), alive, callbacks);
    case SetObjectPath(path, alive, callbacks) => UpdateKeepsVia(p.(path := path), alive, callbacks);
    case SetDisconnected => UpdateKeepsVia(p.(connected := false, path := ""), false, map[]);
    case SetError(callbacks) => FailingFinishesAll(p, callbacks);
    case Queue => QueueKeepsVia(p);
    case Subscribe(name) => SameVia(p, Step(p, e));
    case Reply(c, gone) => ReplyKeepsVia(p, c, gone);
    case Post(c) => PostKeepsVia(p, c);
    case Cancel(c) => CancelKeepsVia(p, c);
  }

  lemma ReplyKeepsVia(p: Proxy, c: nat, gone: bool)
    requires Inv(p) && ViaInv(p) && c in p.flying
    ensures ViaInv(ReplyStep(p, c, gone))
  {
    ReplyExactly(p, c, gone);
    SameVia(p, ReplyStep(p, c, gone));
  }

  lemma PostKeepsVia(p: Proxy, c: nat)
    requires Inv(p) && ViaInv(p) && c in p.posted
    ensures ViaInv(Step(p, Post(c)))
  {
    PostExactly(p, c);
    SameVia(p, Step(p, Post(c)));
  }

  lemma CancelKeepsVia(p: Proxy, c: nat)
    requires Inv(p) && ViaInv(p) && c < |p.calls|
    ensures ViaInv(CancelStep(p, c))
  {
    CancelEffect(p, c);
    SameVia(p, CancelStep(p, c));
  }

  lemma SameVia(p: Proxy, q: Proxy)
    requires ViaInv(p) && q.iface == p.iface && q.nextIface == p.nextIface && |q.calls| == |p.calls|
    requires forall c :: 0 <= c < |p.calls| ==> q.calls[c] == p.calls[c].(finished := q.calls[c].finished)
    ensures ViaInv(q)
  {
  }

  lemma QueueKeepsVia(p: Proxy)
    requires Inv(p) && ViaInv(p)
    ensures ViaInv(QueueStep(p))
  {
    QueueExactly(p);
    var q := QueueStep(p);
    assert forall c :: 0 <= c < |p.calls| ==> q.calls[c] == q.calls[..|p.calls|][c];
  }

  lemma UpdateKeepsVia(p: Proxy, alive: bool, callbacks: Callbacks)
    requires InRange(p, p.queue) && Callable(p, callbacks) && Quiet(p, callbacks) && ViaInv(p)
    requires p.iface == None ==> p.carried == []
    ensures ViaInv(Update(p, alive, callbacks))
  {
    UpdateExactly(p, alive, callbacks);
    UpdatesKeepVia(p, Outcome(p, alive), Update(p, alive, callbacks));
  }

  lemma UpdatesKeepVia(p: Proxy, status: Status, q: Proxy)
    requires ViaInv(p) && Updates(p, status, q)
    ensures ViaInv(q)
  {
  }

  // ----------------------------------------------------- runs that go wrong

  const UNSENT := Call(false, 0, false, 0)
  const FAILED := INITIAL.(status := Invalid)
  const MADE := FAILED.(calls := [UNSENT], posted := multiset{0})

  lemma InitialInv()
    ensures Inv(INITIAL)
  {
    forall c: nat ensures Accounted(INITIAL, c) {}
  }

  lemma FailedInv()
    ensures Inv(FAILED) && Step(INITIAL, SetError(map[])) == FAILED
  {
    InitialInv();
    FailureExactly(INITIAL, map[]);
  }

  lemma MadeInv()
    ensures Inv(MADE) && QueueStep(FAILED) == MADE
  {
    FailedInv();
    QueueKeepsInv(FAILED);
  }

  /** The proxy has failed; a call made then is cancelled, and its posted failure
      makes it finish a second time. */
  lemma CancelledWhileInvalid()
    ensures Inv(MADE) && MADE == QueueStep(FAILED) && FAILED == Step(INITIAL, SetError(map[]))
    ensures !MayCancel(MADE, 0) && Step(Step(MADE, Cancel(0)), Post(0)).calls[0].finished == 2
  {
    FailedInv();
    MadeInv();
    var cancelled := MADE.(calls := [UNSENT.(finished := 1)]);
    assert Step(MADE, Cancel(0)) == cancelled;
  }

  lemma QueuedWhileIncomplete(p: Proxy)
    requires Inv(p) && p.status == Incomplete
    ensures var q := QueueStep(p);
            Inv(q) && q == p.(queue := p.queue + [|p.calls|], calls := p.calls + [UNSENT])
  {
    QueueKeepsInv(p);
  }

  lemma TwoQueued(p: Proxy)
    requires Inv(p) && p.status == Incomplete && p.queue == [] && p.calls == []
    ensures var q := QueueStep(QueueStep(p));
            Inv(q) && q == p.(queue := [0, 1], calls := [UNSENT, UNSENT])
  {
    QueuedWhileIncomplete(p);
    QueuedWhileIncomplete(QueueStep(p));
  }

  /** Two calls wait; the connection fails, and the first one's error slot cancels
      the second, which then finishes twice within one loop. */
  lemma CancelledWhileFailing()
    ensures var waiting := QueueStep(QueueStep(INITIAL));
            && Inv(waiting) && waiting.queue == [0, 1] && Callable(waiting, map[0 := [1]])
            && !Quiet(waiting, map[0 := [1]])
            && SetStatus(waiting, Invalid, map[0 := [1]]).calls[1].finished >= 2
  {
    InitialInv();
    TwoQueued(INITIAL);
    SecondFinishesTwice(QueueStep(QueueStep(INITIAL)), map[0 := [1]], 0, 1);
  }

  lemma SecondFinishesTwice(p: Proxy, callbacks: Callbacks, a: nat, b: nat)
    requires p.queue == [a, b] && a < |p.calls| && b < |p.calls| && !p.calls[b].watching
    requires Callable(p, callbacks) && a in callbacks && callbacks[a] == [b]
    ensures !Quiet(p, callbacks) && SetStatus(p, Invalid, callbacks).calls[b].finished >= 2
  {
    SlotOfOne(p.calls, callbacks, a, b);
    assert p.queue[0] == a && p.queue[1] == b;
    CancelledEmits(p.calls, p.queue, callbacks, a, b);
    FinishAllCalls(p.(status := Invalid), Emitted(p.calls, p.queue, callbacks), b);
  }

  lemma SlotOfOne(calls: seq<Call>, callbacks: Callbacks, a: nat, b: nat)
    requires AllBelow(callbacks, |calls|) && a in callbacks && callbacks[a] == [b] && b < |calls| && !calls[b].watching
    ensures CancelledBy(calls, callbacks, a) == [b]
  {
    UnsentSnoc(calls, callbacks[a], 0);
    assert callbacks[a][..1] == callbacks[a];
  }

  // ------------------------------------------------------------ the object

  lemma FinishAllSnoc(p: Proxy, cs: seq<nat>, c: nat)
    requires InRange(p, cs) && c < |p.calls|
    ensures FinishAll(p, cs + [c]) == FinishOne(FinishAll(p, cs), c)
  {
    assert (cs + [c])[..|cs|] == cs;
  }

  lemma SendAllSnoc(p: Proxy, cs: seq<nat>, c: nat)
    requires InRange(p, cs) && c < |p.calls| && p.iface.Some?
    ensures SendAll(p, cs + [c]) == SendOne(SendAll(p, cs), c)
  {
    assert (cs + [c])[..|cs|] == cs;
  }

  lemma UnsentNext(calls: seq<Call>, cs: seq<nat>, i: nat, done: seq<nat>)
    requires Below(cs, |calls|) && i < |cs|
    ensures done + Unsent(calls, cs[..i + 1])
         == done + Unsent(calls, cs[..i]) + if calls[cs[i]].watching then [] else [cs[i]]
  {
    UnsentSnoc(calls, cs, i);
  }

  lemma UnsentSnoc(calls: seq<Call>, cs: seq<nat>, i: nat)
    requires Below(cs, |calls|) && i < |cs|
    ensures Unsent(calls, cs[..i + 1]) == Unsent(calls, cs[..i]) + if calls[cs[i]].watching then [] else [cs[i]]
  {
    assert cs[..i + 1][..i] == cs[..i];
  }

  lemma EmittedNext(calls: seq<Call>, cs: seq<nat>, i: nat, callbacks: Callbacks)
    requires Below(cs, |calls|) && i < |cs| && AllBelow(callbacks, |calls|)
    ensures Emitted(calls, cs[..i + 1], callbacks)
         == Emitted(calls, cs[..i], callbacks) + CancelledBy(calls, callbacks, cs[i]) + [cs[i]]
  {
    assert cs[..i + 1][..i] == cs[..i];
  }

  /** The proxy object. Its pending calls are kept by number in one list. */
  class AsyncDBusProxy {
    var status: Status
    var hasConnection: bool
    var path: string
    var iface: Option<nat>
    var nextIface: nat
    var carried: seq<string>
    var connectionsQueue: seq<string>
    var operationsQueue: seq<nat>
    ghost var flying: multiset<nat>
    ghost var posted: multiset<nat>
    var calls: seq<Call>

    ghost function View(): Proxy
      reads this
    {
      Proxy(status, hasConnection, path, iface, nextIface, carried, connectionsQueue, operationsQueue,
            flying, posted, calls)
    }

    ghost predicate Valid()
      reads this
    {
      Inv(View())
    }

    constructor ()
      ensures Valid() && View() == INITIAL
    {
      status, hasConnection, path, iface, nextIface := Incomplete, false, "", None, 0;
      carried, connectionsQueue, operationsQueue, calls := [], [], [], [];
      flying, posted := multiset{}, multiset{};
    }

    method DoCall(c: nat)
      requires c < |calls| && iface.Some?
      modifies `calls, `flying
      ensures View() == SendOne(old(View()), c)
    {
      calls := calls[c := calls[c].(watching := true, via := iface.value, viaDestroyed := false)];
      flying := flying + multiset{c};
    }

    /** finished is emitted, and the proxy's own slot takes the call off the queue. */
    method Finish(c: nat)
      requires c < |calls|
      modifies `calls, `operationsQueue
      ensures View() == FinishOne(old(View()), c)
    {
      calls := calls[c := calls[c].(finished := calls[c].finished + 1)];
      operationsQueue := RemoveOne(operationsQueue, c);
    }

    /** The loop runs over a copy of the queue. */
    method SendQueue()
      requires InRange(View(), operationsQueue) && iface.Some?
      modifies `calls, `flying
      ensures View() == SendAll(old(View()), operationsQueue)
    {
      var copy := operationsQueue;
      ghost var p := View();
      for i := 0 to |copy|
        invariant View() == SendAll(p, copy[..i])
      {
        SendAllSnoc(p, copy[..i], copy[i]);
        assert copy[..i + 1] == copy[..i] + [copy[i]];
        DoCall(copy[i]);
      }
      assert copy[..|copy|] == copy;
    }

    /** PendingCall::cancel, called by an error slot after others emitted done. */
    method CancelInSlot(c: nat, ghost p: Proxy, ghost done: seq<nat>)
      requires InRange(p, done) && c < |p.calls| && View() == FinishAll(p, done)
      modifies `calls, `operationsQueue
      ensures View() == FinishAll(p, done + if p.calls[c].watching then [] else [c])
    {
      assert done + [] == done;
      if !calls[c].watching {
        FinishAllSnoc(p, done, c);
        Finish(c);
      }
    }

    /** The error slot of a failing call, which cancels others. */
    method EmitError(cancelled: seq<nat>, ghost p: Proxy, ghost done: seq<nat>)
      requires InRange(p, done) && InRange(p, cancelled) && View() == FinishAll(p, done)
      modifies `calls, `operationsQueue
      ensures View() == FinishAll(p, done + Unsent(p.calls, cancelled))
    {
      ghost var now := done;
      assert done + [] == done;
      for i := 0 to |cancelled|
        invariant InRange(p, now) && now == done + Unsent(p.calls, cancelled[..i])
        invariant View() == FinishAll(p, now)
      {
        CancelInSlot(cancelled[i], p, now);
        UnsentNext(p.calls, cancelled, i, done);
        now := now + if p.calls[cancelled[i]].watching then [] else [cancelled[i]];
      }
      assert cancelled[..|cancelled|] == cancelled;
    }

    /** One turn of the failing loop, after those that emitted done. */
    method FailOne(c: nat, callbacks: Callbacks, ghost p: Proxy, ghost done: seq<nat>)
      requires InRange(p, done) && Callable(p, callbacks) && c < |p.calls|
      requires View() == FinishAll(p, done)
      modifies `calls, `operationsQueue
      ensures InRange(p, done + CancelledBy(p.calls, callbacks, c) + [c])
      ensures View() == FinishAll(p, done + CancelledBy(p.calls, callbacks, c) + [c])
    {
      ghost var slot := CancelledBy(p.calls, callbacks, c);
      assert done + [] == done;
      if c in callbacks {
        EmitError(callbacks[c], p, done);
      }
      FinishAllSnoc(p, done + slot, c);
      Finish(c);
    }

    /** So does this one, although every failure takes its call off the queue. */
    method FailQueue(callbacks: Callbacks)
      requires InRange(View(), operationsQueue) && Callable(View(), callbacks)
      modifies `calls, `operationsQueue
      ensures View() == FinishAll(old(View()), Emitted(old(calls), old(operationsQueue), callbacks))
    {
      var copy := operationsQueue;
      ghost var p := View();
      ghost var done: seq<nat> := [];
      assert InRange(p, copy) && Callable(p, callbacks);
      for i := 0 to |copy|
        invariant InRange(p, done) && done == Emitted(p.calls, copy[..i], callbacks)
        invariant View() == FinishAll(p, done)
      {
        FailOne(copy[i], callbacks, p, done);
        EmittedNext(p.calls, copy, i, callbacks);
        done := done + CancelledBy(p.calls, callbacks, copy[i]) + [copy[i]];
      }
      assert copy[..|copy|] == copy;
    }

    method ChangeStatus(newStatus: Status, callbacks: Callbacks)
      requires InRange(View(), operationsQueue) && (newStatus == Ready ==> iface.Some?) && Callable(View(), callbacks)
      modifies this
      ensures View() == SetStatus(old(View()), newStatus, callbacks)
    {
      status := newStatus;
      assert View() == old(View()).(status := newStatus);
      if status == Ready {
        carried := carried + connectionsQueue;
        SendQueue();
        operationsQueue := [];
      } else if status == Invalid {
        FailQueue(callbacks);
        operationsQueue := [];
      }
    }

    method UpdateInterface(alive: bool, callbacks: Callbacks)
      requires InRange(View(), operationsQueue) && Callable(View(), callbacks)
      modifies this
      ensures View() == Update(old(View()), alive, callbacks)
    {
      if iface.Some? {
        var gone, before := iface.value, calls;
        calls := seq(|before|, i requires 0 <= i < |before| =>
          if before[i].via == gone && before[i].watching then before[i].(viaDestroyed := true) else before[i]);
        iface := None;
        carried := [];
      }
      assert View() == DropIface(old(View()));
      if !hasConnection || path == "" {
        ChangeStatus(Incomplete, callbacks);
        return;
      }
      if !alive {
        ChangeStatus(Invalid, callbacks);
        return;
      }
      iface := Some(nextIface);
      nextIface := nextIface + 1;
      ChangeStatus(Ready, callbacks);
    }

    method OnConnection(alive: bool, callbacks: Callbacks)
      requires Valid() && Callable(View(), callbacks) && Quiet(View(), callbacks)
      modifies this
      ensures Valid() && View() == Step(old(View()), SetConnection(alive, callbacks))
    {
      StepKeepsInv(View(), SetConnection(alive, callbacks));
      hasConnection := true;
      UpdateInterface(alive, callbacks);
    }

    method OnDisconnected()
      requires Valid()
      modifies this
      ensures Valid() && View() == Step(old(View()), SetDisconnected)
    {
      StepKeepsInv(View(), SetDisconnected);
      hasConnection := false;
      path := "";
      UpdateInterface(false, map[]);
    }

    method ChangeObjectPath(objectPath: string, alive: bool, callbacks: Callbacks)
      requires Valid() && Callable(View(), callbacks) && Quiet(View(), callbacks)
      modifies this
      ensures Valid() && View() == Step(old(View()), SetObjectPath(objectPath, alive, callbacks))
    {
      StepKeepsInv(View(), SetObjectPath(objectPath, alive, callbacks));
      path := objectPath;
      UpdateInterface(alive, callbacks);
    }

    method Fail(callbacks: Callbacks)
      requires Valid() && Callable(View(), callbacks)
      modifies this
      ensures View() == Step(old(View()), SetError(callbacks))
      ensures Valid() <==> old(Quiet(View(), callbacks))
    {
      FailureExactly(View(), callbacks);
      ChangeStatus(Invalid, callbacks);
    }

    method QueueCall() returns (c: nat)
      requires Valid()
      modifies this
      ensures Valid() && c == old(|calls|) && View() == Step(old(View()), Queue)
    {
      QueueKeepsInv(View());
      c := |calls|;
      calls := calls + [Call(false, 0, false, 0)];
      if status == Ready {
        DoCall(c);
      } else if status == Incomplete {
        operationsQueue := operationsQueue + [c];
      } else {
        posted := posted + multiset{c};
      }
    }

    method SubscribeTo(name: string)
      requires Valid()
      modifies this
      ensures Valid() && View() == Step(old(View()), Subscribe(name))
    {
      StepKeepsInv(View(), Subscribe(name));
      connectionsQueue := connectionsQueue + [name];
      if status == Ready {
        carried := carried + [name];
      }
    }

    method OnReply(c: nat, gone: bool)
      requires Valid() && c in flying
      modifies this
      ensures Valid() && View() == Step(old(View()), Reply(c, gone))
    {
      ReplyKeepsInv(View(), c, gone);
      flying := flying - multiset{c};
      if calls[c].viaDestroyed && gone {
        operationsQueue := operationsQueue + [c];
        return;
      }
      Finish(c);
    }

    method OnPostedFailure(c: nat)
      requires Valid() && c in posted
      modifies this
      ensures Valid() && View() == Step(old(View()), Post(c))
    {
      PostKeepsInv(View(), c);
      posted := posted - multiset{c};
      Finish(c);
    }

    method CancelCall(c: nat) returns (ok: bool)
      requires Valid() && c < |calls|
      modifies this
      ensures ok == !old(calls[c].watching)
      ensures View() == Step(old(View()), Cancel(c))
      ensures Valid() <==> old(MayCancel(View(), c))
    {
      CancelExactly(View(), c);
      if calls[c].watching { return false; }
      Finish(c);
      return true;
    }
  }
}
