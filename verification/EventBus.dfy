/**
 The in-memory event bus as interleaved steps of its goroutines.

 A step is what happens under one lock, or one channel or wait-group operation. `Panics` says which
 steps would stop the program: a send on a closed channel, a second close, a negative wait group.
 */
module EventBus {
  /** How far the one-time close of a subscriber has come. */
  datatype Once = NotRun | Running(thread: nat) | Done

  datatype Sub = Sub(done: bool, chClosed: bool, senders: int, buffered: nat, once: Once)

  /** Where a goroutine stands. */
  datatype Pc =
    | Publishing(todo: seq<nat>)
    | Sending(sub: nat, todo: seq<nat>)
    | Leaving(sub: nat, todo: seq<nat>, canceled: bool)
    | Closing(todo: seq<nat>)
    | Waiting(sub: nat, todo: seq<nat>)

  datatype Bus = Bus(closed: bool, names: map<string, nat>, subs: map<nat, Sub>, threads: map<nat, Pc>, capacity: nat)

  datatype Action =
    | Publish(thread: nat, order: seq<nat>)
    | AcquireSender(thread: nat)
    | Send(thread: nat)
    | SeeDone(thread: nat)
    | Cancel(thread: nat)
    | SenderDone(thread: nat)
    | Subscribe(thread: nat, name: string, id: nat)
    | RemoveSubscriber(thread: nat, name: string, sub: nat)
    | CloseBus(thread: nat, order: seq<nat>)
    | EnterClose(thread: nat)
    | SkipClose(thread: nat)
    | FinishClose(thread: nat)
    | Finish(thread: nat)
    | Receive(sub: nat)

  const NEW_SUB := Sub(false, false, 0, 0, NotRun)

  predicate At(s: Bus, t: nat, sub: nat) {
    t in s.threads && (s.threads[t].Sending? || s.threads[t].Leaving?) && s.threads[t].sub == sub
  }

  predicate Registered(s: Bus, sub: nat) {
    exists name :: name in s.names && s.names[name] == sub
  }

  /** `order` lists the subscribers that are registered now. */
  predicate Lists(s: Bus, order: seq<nat>) {
    && (forall i :: 0 <= i < |order| ==> Registered(s, order[i]))
    && (forall name :: name in s.names ==> s.names[name] in order)
  }

  predicate AtHead(s: Bus, t: nat) {
    t in s.threads && (s.threads[t].Publishing? || s.threads[t].Closing?) && s.threads[t].todo != [] && s.threads[t].todo[0] in s.subs
  }

  predicate Enabled(s: Bus, a: Action) {
    match a
    case Publish(t, order) => t !in s.threads && !s.closed && Lists(s, order)
    case AcquireSender(t) => AtHead(s, t) && s.threads[t].Publishing?
    case Send(t) => t in s.threads && s.threads[t].Sending? && s.threads[t].sub in s.subs && s.subs[s.threads[t].sub].buffered < s.capacity
    case SeeDone(t) => t in s.threads && s.threads[t].Sending? && s.threads[t].sub in s.subs && s.subs[s.threads[t].sub].done
    case Cancel(t) => t in s.threads && s.threads[t].Sending?
    case SenderDone(t) => t in s.threads && s.threads[t].Leaving? && s.threads[t].sub in s.subs
    case Subscribe(t, name, id) => t !in s.threads && id !in s.subs
    case RemoveSubscriber(t, name, sub) => t !in s.threads && sub in s.subs
    case CloseBus(t, order) => t !in s.threads && !s.closed && Lists(s, order)
    case EnterClose(t) => AtHead(s, t) && s.threads[t].Closing? && s.subs[s.threads[t].todo[0]].once.NotRun?
    case SkipClose(t) => AtHead(s, t) && s.threads[t].Closing? && s.subs[s.threads[t].todo[0]].once.Done?
    case FinishClose(t) => t in s.threads && s.threads[t].Waiting? && s.threads[t].sub in s.subs && s.subs[s.threads[t].sub].senders == 0
    case Finish(t) => t in s.threads && (s.threads[t].Publishing? || s.threads[t].Closing?) && s.threads[t].todo == []
    case Receive(sub) => sub in s.subs && s.subs[sub].buffered > 0
  }

  /** The step would panic. */
  predicate Panics(s: Bus, a: Action)
    requires Enabled(s, a)
  {
    match a
    case Send(t) => s.subs[s.threads[t].sub].chClosed
    case EnterClose(t) => s.subs[s.threads[t].todo[0]].done
    case FinishClose(t) => s.subs[s.threads[t].sub].chClosed
    case SenderDone(t) => s.subs[s.threads[t].sub].senders <= 0
    case _ => false
  }

  function Step(s: Bus, a: Action): Bus
    requires Enabled(s, a)
  {
    match a
    case Publish(t, order) => s.(threads := s.threads[t := Publishing(order)])
    case AcquireSender(t) =>
      var k, rest := s.threads[t].todo[0], s.threads[t].todo[1..];
      if s.subs[k].done then s.(threads := s.threads[t := Publishing(rest)])
      else s.(subs := s.subs[k := s.subs[k].(senders := s.subs[k].senders + 1)], threads := s.threads[t := Sending(k, rest)])
    case Send(t) =>
      var k := s.threads[t].sub;
      s.(subs := s.subs[k := s.subs[k].(buffered := s.subs[k].buffered + 1)], threads := s.threads[t := Leaving(k, s.threads[t].todo, false)])
    case SeeDone(t) => s.(threads := s.threads[t := Leaving(s.threads[t].sub, s.threads[t].todo, false)])
    case Cancel(t) => s.(threads := s.threads[t := Leaving(s.threads[t].sub, s.threads[t].todo, true)])
    case SenderDone(t) =>
      var k := s.threads[t].sub;
      var left := s.(subs := s.subs[k := s.subs[k].(senders := s.subs[k].senders - 1)]);
      if s.threads[t].canceled then left.(threads := s.threads - {t}) else left.(threads := s.threads[t := Publishing(s.threads[t].todo)])
    case Subscribe(t, name, id) =>
      var made := s.(subs := s.subs[id := NEW_SUB]);
      if s.closed then made.(threads := s.threads[t := Closing([id])])
      else made.(names := s.names[name := id], threads := s.threads[t := Closing(if name in s.names then [s.names[name]] else [])])
    case RemoveSubscriber(t, name, sub) =>
      s.(names := if name in s.names && s.names[name] == sub then s.names - {name} else s.names, threads := s.threads[t := Closing([sub])])
    case CloseBus(t, order) => s.(closed := true, names := map[], threads := s.threads[t := Closing(order)])
    case EnterClose(t) =>
      var k := s.threads[t].todo[0];
      s.(subs := s.subs[k := s.subs[k].(done := true, once := Running(t))], threads := s.threads[t := Waiting(k, s.threads[t].todo[1..])])
    case SkipClose(t) => s.(threads := s.threads[t := Closing(s.threads[t].todo[1..])])
    case FinishClose(t) =>
      var k := s.threads[t].sub;
      s.(subs := s.subs[k := s.subs[k].(chClosed := true, once := Done)], threads := s.threads[t := Closing(s.threads[t].todo)])
    case Finish(t) => s.(threads := s.threads - {t})
    case Receive(sub) => s.(subs := s.subs[sub := s.subs[sub].(buffered := s.subs[sub].buffered - 1)])
  }

  // ----- the invariant -----

  /** The goroutines that the wait group of a subscriber counts. */
  function Counted(s: Bus, sub: nat): set<nat> {
    set t | t in s.threads && At(s, t, sub)
  }

  /** The wait group counts them exactly, and the flags follow the one-time close. */
  ghost predicate SubOk(s: Bus, k: nat)
    requires k in s.subs
  {
    var sub := s.subs[k];
    && sub.senders == |Counted(s, k)|
    && (sub.done <==> !sub.once.NotRun?)
    && (sub.chClosed <==> sub.once.Done?)
    && (sub.chClosed ==> sub.senders == 0)
    && (sub.once.Running? ==> sub.once.thread in s.threads && s.threads[sub.once.thread].Waiting? && s.threads[sub.once.thread].sub == k)
  }

  ghost predicate ThreadOk(s: Bus, t: nat)
    requires t in s.threads
  {
    match s.threads[t]
    case Publishing(todo) => Known(s, todo)
    case Sending(sub, todo) => sub in s.subs && Known(s, todo)
    case Leaving(sub, todo, _) => sub in s.subs && Known(s, todo)
    case Closing(todo) => Known(s, todo)
    case Waiting(sub, todo) => sub in s.subs && Known(s, todo) && s.subs[sub].once == Running(t)
  }

  ghost predicate Known(s: Bus, todo: seq<nat>) {
    forall i :: 0 <= i < |todo| ==> todo[i] in s.subs
  }

  ghost predicate Inv(s: Bus) {
    && (forall name :: name in s.names ==> s.names[name] in s.subs)
    && (forall k :: k in s.subs ==> SubOk(s, k))
    && (forall t :: t in s.threads ==> ThreadOk(s, t))
  }

  predicate Init(s: Bus) {
    !s.closed && s.names == map[] && s.subs == map[] && s.threads == map[] && s.capacity > 0
  }

  /** A step that moves one goroutine without entering or leaving a wait group. */
  lemma CountedSame(s: Bus, u: Bus, k: nat, t: nat)
    requires forall x :: x != t ==> (x in s.threads <==> x in u.threads) && (x in s.threads ==> s.threads[x] == u.threads[x])
    requires At(s, t, k) == At(u, t, k)
    ensures Counted(u, k) == Counted(s, k)
  {
    forall x ensures x in Counted(u, k) <==> x in Counted(s, k) {}
  }

  lemma CountedEnter(s: Bus, u: Bus, k: nat, t: nat)
    requires forall x :: x != t ==> (x in s.threads <==> x in u.threads) && (x in s.threads ==> s.threads[x] == u.threads[x])
    requires !At(s, t, k) && At(u, t, k)
    ensures |Counted(u, k)| == |Counted(s, k)| + 1
  {
    forall x ensures x in Counted(u, k) <==> x in Counted(s, k) || x == t {
      assert x != t ==> At(u, x, k) == At(s, x, k);
    }
    assert Counted(u, k) == Counted(s, k) + {t};
  }

  /** A step of goroutine `t` that touches no subscriber but `k`. */
  ghost predicate Moves(s: Bus, u: Bus, t: nat, k: nat) {
    && (forall x :: x != t ==> (x in s.threads <==> x in u.threads) && (x in s.threads ==> s.threads[x] == u.threads[x]))
    && s.subs.Keys <= u.subs.Keys
    && (forall j :: j in u.subs && j != k ==> j in s.subs && u.subs[j] == s.subs[j] && At(u, t, j) == At(s, t, j))
  }

  lemma UntouchedOk(s: Bus, u: Bus, t: nat, k: nat, j: nat)
    requires Inv(s) && Moves(s, u, t, k) && j in s.subs && j != k && s.subs[j].once != Running(t)
    ensures SubOk(u, j)
  {
    assert SubOk(s, j);
    CountedSame(s, u, j, t);
  }

  lemma OtherOk(s: Bus, u: Bus, t: nat, k: nat, x: nat)
    requires Inv(s) && Moves(s, u, t, k) && x != t && x in u.threads
    requires k in s.subs && s.subs[k].once == Running(x) ==> u.subs[k].once == Running(x)
    ensures ThreadOk(u, x)
  {
    assert ThreadOk(s, x);
  }

  /** What is left to check of such a step: the names, the subscriber it touches, and its goroutine. */
  lemma MoveKeepsInv(s: Bus, u: Bus, t: nat, k: nat)
    requires Inv(s) && Moves(s, u, t, k)
    requires t in s.threads && s.threads[t].Waiting? ==> s.threads[t].sub == k
    requires forall name :: name in u.names ==> u.names[name] in u.subs
    requires k in u.subs ==> SubOk(u, k)
    requires t in u.threads ==> ThreadOk(u, t)
    requires forall x :: x != t && k in s.subs && s.subs[k].once == Running(x) ==> u.subs[k].once == Running(x)
    ensures Inv(u)
  {
    hide SubOk, ThreadOk;
    forall j | j in u.subs ensures SubOk(u, j) {
      if j != k {
        assert s.subs[j].once != Running(t) by { RunnersWait(s, j, t); }
        UntouchedOk(s, u, t, k, j);
      }
    }
    forall x | x in u.threads ensures ThreadOk(u, x) {
      if x != t {
        OtherOk(s, u, t, k, x);
      }
    }
  }

  lemma RunnersWait(s: Bus, j: nat, t: nat)
    requires Inv(s) && j in s.subs
    ensures s.subs[j].once == Running(t) ==> t in s.threads && s.threads[t].Waiting? && s.threads[t].sub == j
  {
    assert SubOk(s, j);
  }

  // ----- steps -----

  lemma PublishStep(s: Bus, t: nat, order: seq<nat>)
    requires Inv(s) && Enabled(s, Publish(t, order))
    ensures Inv(Step(s, Publish(t, order)))
  {
    hide SubOk;
    var u := Step(s, Publish(t, order));
    forall i | 0 <= i < |order| ensures order[i] in s.subs {
      assert Registered(s, order[i]);
    }
    if 0 in s.subs {
      RunnersWait(s, 0, t);
      TouchedOk(s, u, t, 0);
    }
    MoveKeepsInv(s, u, t, 0);
  }

  /** A subscriber whose flags and count did not change, seen by a goroutine that did not enter or leave. */
  lemma TouchedOk(s: Bus, u: Bus, t: nat, k: nat)
    requires Inv(s) && Moves(s, u, t, k) && k in s.subs && At(s, t, k) == At(u, t, k)
    requires s.subs[k].once != Running(t) && u.subs[k] == s.subs[k].(buffered := u.subs[k].buffered)
    ensures SubOk(u, k)
  {
    assert SubOk(s, k);
    CountedSame(s, u, k, t);
  }

  lemma AcquireStep(s: Bus, t: nat)
    requires Inv(s) && Enabled(s, AcquireSender(t))
    ensures Inv(Step(s, AcquireSender(t)))
  {
    var u, k := Step(s, AcquireSender(t)), s.threads[t].todo[0];
    assert ThreadOk(s, t) && SubOk(s, k);
    if s.subs[k].done {
      TouchedOk(s, u, t, k);
    } else {
      CountedEnter(s, u, k, t);
    }
    MoveKeepsInv(s, u, t, k);
  }

  /** The three ways out of the select; a counted sender never finds its channel closed. */
  lemma SelectStep(s: Bus, a: Action)
    requires Inv(s) && Enabled(s, a) && (a.Send? || a.SeeDone? || a.Cancel?)
    ensures Inv(Step(s, a)) && !Panics(s, a)
  {
    hide SubOk, Lists;
    var u, t := Step(s, a), a.thread;
    var k := s.threads[t].sub;
    assert ThreadOk(s, t);
    RunnersWait(s, k, t);
    TouchedOk(s, u, t, k);
    MoveKeepsInv(s, u, t, k);
    CountedIsOpen(s, t, k);
  }

  lemma CountedIsOpen(s: Bus, t: nat, k: nat)
    requires Inv(s) && k in s.subs && At(s, t, k)
    ensures s.subs[k].senders > 0 && !s.subs[k].chClosed
  {
    assert SubOk(s, k) && t in Counted(s, k);
  }

  lemma DoneStep(s: Bus, t: nat)
    requires Inv(s) && Enabled(s, SenderDone(t))
    ensures Inv(Step(s, SenderDone(t))) && !Panics(s, SenderDone(t))
  {
    hide Lists;
    var u, k := Step(s, SenderDone(t)), s.threads[t].sub;
    assert ThreadOk(s, t) && SubOk(s, k);
    CountedIsOpen(s, t, k);
    CountedEnter(u, s, k, t);
    assert SubOk(u, k);
    MoveKeepsInv(s, u, t, k);
  }

  lemma SubscribeStep(s: Bus, t: nat, name: string, id: nat)
    requires Inv(s) && Enabled(s, Subscribe(t, name, id))
    ensures Inv(Step(s, Subscribe(t, name, id)))
  {
    hide Lists;
    var u := Step(s, Subscribe(t, name, id));
    assert Counted(u, id) == {} by {
      forall x | x in u.threads ensures !At(u, x, id) {
        if x != t { assert ThreadOk(s, x); }
      }
    }
    MoveKeepsInv(s, u, t, id);
  }

  lemma RemoveStep(s: Bus, t: nat, name: string, k: nat)
    requires Inv(s) && Enabled(s, RemoveSubscriber(t, name, k))
    ensures Inv(Step(s, RemoveSubscriber(t, name, k)))
  {
    hide SubOk, Lists;
    var u := Step(s, RemoveSubscriber(t, name, k));
    RunnersWait(s, k, t);
    TouchedOk(s, u, t, k);
    MoveKeepsInv(s, u, t, k);
  }

  lemma CloseBusStep(s: Bus, t: nat, order: seq<nat>)
    requires Inv(s) && Enabled(s, CloseBus(t, order))
    ensures Inv(Step(s, CloseBus(t, order)))
  {
    hide SubOk;
    var u := Step(s, CloseBus(t, order));
    forall i | 0 <= i < |order| ensures order[i] in s.subs {
      assert Registered(s, order[i]);
    }
    if 0 in s.subs {
      RunnersWait(s, 0, t);
      TouchedOk(s, u, t, 0);
    }
    MoveKeepsInv(s, u, t, 0);
  }

  /** The close enters once per subscriber, so `done` is closed once. */
  lemma EnterStep(s: Bus, t: nat)
    requires Inv(s) && Enabled(s, EnterClose(t))
    ensures Inv(Step(s, EnterClose(t))) && !Panics(s, EnterClose(t))
  {
    hide Lists;
    var u, k := Step(s, EnterClose(t)), s.threads[t].todo[0];
    assert ThreadOk(s, t) && SubOk(s, k);
    CountedSame(s, u, k, t);
    MoveKeepsInv(s, u, t, k);
  }

  lemma SkipStep(s: Bus, t: nat)
    requires Inv(s) && Enabled(s, SkipClose(t))
    ensures Inv(Step(s, SkipClose(t)))
  {
    hide SubOk, Lists;
    var u, k := Step(s, SkipClose(t)), s.threads[t].todo[0];
    assert ThreadOk(s, t);
    TouchedOk(s, u, t, k);
    MoveKeepsInv(s, u, t, k);
  }

  /** The channel closes with nobody counted, and for the first time. */
  lemma FinishCloseStep(s: Bus, t: nat)
    requires Inv(s) && Enabled(s, FinishClose(t))
    ensures Inv(Step(s, FinishClose(t))) && !Panics(s, FinishClose(t))
  {
    hide Lists;
    var u, k := Step(s, FinishClose(t)), s.threads[t].sub;
    assert ThreadOk(s, t) && SubOk(s, k);
    CountedSame(s, u, k, t);
    MoveKeepsInv(s, u, t, k);
  }

  lemma FinishStep(s: Bus, t: nat)
    requires Inv(s) && Enabled(s, Finish(t))
    ensures Inv(Step(s, Finish(t)))
  {
    hide SubOk, Lists;
    var u := Step(s, Finish(t));
    if 0 in s.subs {
      RunnersWait(s, 0, t);
      TouchedOk(s, u, t, 0);
    }
    MoveKeepsInv(s, u, t, 0);
  }

  lemma ReceiveStep(s: Bus, k: nat)
    requires Inv(s) && Enabled(s, Receive(k))
    ensures Inv(Step(s, Receive(k)))
  {
    hide Lists;
    var u := Step(s, Receive(k));
    assert forall j :: Counted(u, j) == Counted(s, j) by {
      forall j ensures Counted(u, j) == Counted(s, j) { CountedSame(s, u, j, 0); }
    }
    forall j | j in u.subs ensures SubOk(u, j) { assert SubOk(s, j); }
    forall x | x in u.threads ensures ThreadOk(u, x) { assert ThreadOk(s, x); }
  }

  /** No step of a sound bus panics, and every step leaves it sound. */
  lemma StepIsSafe(s: Bus, a: Action)
    requires Inv(s) && Enabled(s, a)
    ensures Inv(Step(s, a)) && !Panics(s, a)
  {
    hide Inv, Step;
    match a
    case Publish(t, order) => PublishStep(s, t, order);
    case AcquireSender(t) => AcquireStep(s, t);
    case Send(t) => SelectStep(s, a);
    case SeeDone(t) => SelectStep(s, a);
    case Cancel(t) => SelectStep(s, a);
    case SenderDone(t) => DoneStep(s, t);
    case Subscribe(t, name, id) => SubscribeStep(s, t, name, id);
    case RemoveSubscriber(t, name, sub) => RemoveStep(s, t, name, sub);
    case CloseBus(t, order) => CloseBusStep(s, t, order);
    case EnterClose(t) => EnterStep(s, t);
    case SkipClose(t) => SkipStep(s, t);
    case FinishClose(t) => FinishCloseStep(s, t);
    case Finish(t) => FinishStep(s, t);
    case Receive(sub) => ReceiveStep(s, sub);
  }

  // ----- whole runs -----

  ghost predicate IsRun(run: seq<Bus>, acts: seq<Action>) {
    && |run| == |acts| + 1
    && forall i :: 0 <= i < |acts| ==> Enabled(run[i], acts[i]) && run[i + 1] == Step(run[i], acts[i])
  }

  /** In no interleaving does the bus panic. */
  lemma {:induction false} RunsNeverPanic(run: seq<Bus>, acts: seq<Action>, n: nat)
    requires IsRun(run, acts) && Init(run[0]) && n < |run|
    ensures Inv(run[n])
    ensures n < |acts| ==> Enabled(run[n], acts[n]) && !Panics(run[n], acts[n])
  {
    hide Step, Enabled;
    if n > 0 {
      RunsNeverPanic(run, acts, n - 1);
      assert run[n - 1 + 1] == Step(run[n - 1], acts[n - 1]);
      assert Inv(run[n]) by { StepIsSafe(run[n - 1], acts[n - 1]); }
    }
    if n < |acts| {
      StepIsSafe(run[n], acts[n]);
    }
  }

  /** A goroutine in the select of a publish has an open channel, and it is counted. */
  lemma SendersFindOpenChannels(run: seq<Bus>, acts: seq<Action>, n: nat, t: nat)
    requires IsRun(run, acts) && Init(run[0]) && n < |run|
    requires t in run[n].threads && run[n].threads[t].Sending?
    ensures var k := run[n].threads[t].sub;
            k in run[n].subs && !run[n].subs[k].chClosed && run[n].subs[k].senders == |Counted(run[n], k)| > 0
  {
    hide Step, Enabled;
    RunsNeverPanic(run, acts, n);
    var k := run[n].threads[t].sub;
    assert ThreadOk(run[n], t) && SubOk(run[n], k);
    CountedIsOpen(run[n], t, k);
  }

  /** A channel is closed by the step that ends its close, with nobody counted, and stays closed. */
  lemma ChannelsCloseEmpty(run: seq<Bus>, acts: seq<Action>, n: nat, k: nat)
    requires IsRun(run, acts) && Init(run[0]) && n < |acts| && k in run[n].subs
    ensures k in run[n + 1].subs
    ensures run[n].subs[k].chClosed ==> run[n + 1].subs[k].chClosed
    ensures !run[n].subs[k].chClosed && run[n + 1].subs[k].chClosed ==>
              acts[n].FinishClose? && Counted(run[n], k) == {} && run[n].subs[k].done
  {
    RunsNeverPanic(run, acts, n);
    assert SubOk(run[n], k);
    assert run[n + 1] == Step(run[n], acts[n]);
  }

  // ----- completion -----

  function InSelect(s: Bus, k: nat): set<nat> {
    set t | t in s.threads && s.threads[t].Sending? && s.threads[t].sub == k
  }

  /** Steps that the counted senders of a subscriber still have to make. */
  function Work(s: Bus, k: nat): nat { |Counted(s, k)| + |InSelect(s, k)| }

  /** Once `done` is closed every counted sender can step, and a step of its own brings it closer to the end. */
  lemma CountedCanStep(s: Bus, t: nat, k: nat) returns (a: Action)
    requires Inv(s) && k in s.subs && s.subs[k].done && At(s, t, k)
    ensures a == (if s.threads[t].Sending? then SeeDone(t) else SenderDone(t))
    ensures Enabled(s, a) && Work(Step(s, a), k) < Work(s, k)
  {
    hide Inv, Lists;
    a := if s.threads[t].Sending? then SeeDone(t) else SenderDone(t);
    var u := Step(s, a);
    if s.threads[t].Sending? {
      CountedSame(s, u, k, t);
      assert InSelect(u, k) == InSelect(s, k) - {t} && t in InSelect(s, k);
    } else {
      CountedEnter(u, s, k, t);
      assert InSelect(u, k) == InSelect(s, k);
    }
  }

  /** No sender is counted anew once `done` is closed, whatever else runs. */
  lemma NobodyEnters(s: Bus, a: Action, k: nat)
    requires Inv(s) && Enabled(s, a) && k in s.subs && s.subs[k].done
    ensures k in Step(s, a).subs && Step(s, a).subs[k].done
    ensures Counted(Step(s, a), k) <= Counted(s, k) && InSelect(Step(s, a), k) <= InSelect(s, k)
  {
    hide Inv, Lists;
  }

  /** `u` came from `s` by work on subscriber `k` for goroutine `t`: the counted senders moved, nobody else. */
  ghost predicate Worked(s: Bus, u: Bus, t: nat, k: nat) {
    && (forall x :: x in s.threads && x != t && !At(s, x, k) ==> x in u.threads && u.threads[x] == s.threads[x])
    && (forall j :: j in s.subs ==> j in u.subs && (j != k ==> u.subs[j] == s.subs[j]))
  }

  lemma SenderStepIsWork(s: Bus, a: Action, t: nat, k: nat, x: nat)
    requires Inv(s) && Enabled(s, a) && At(s, x, k) && (a == SeeDone(x) || a == SenderDone(x)) && x != t
    ensures Worked(s, Step(s, a), t, k)
    ensures forall y :: At(Step(s, a), y, k) ==> At(s, y, k)
    ensures t in s.threads ==> t in Step(s, a).threads && Step(s, a).threads[t] == s.threads[t]
  {
    hide Inv, Lists;
  }

  lemma FinishIsWork(s: Bus, t: nat, k: nat)
    requires Enabled(s, FinishClose(t)) && s.threads[t].sub == k
    ensures Worked(s, Step(s, FinishClose(t)), t, k)
    ensures Step(s, FinishClose(t)).threads[t] == Closing(s.threads[t].todo) && Step(s, FinishClose(t)).subs[k].chClosed
  {}

  lemma WorkJoins(s: Bus, m: Bus, u: Bus, t: nat, k: nat)
    requires Worked(s, m, t, k) && Worked(m, u, t, k) && forall y :: At(m, y, k) ==> At(s, y, k)
    ensures Worked(s, u, t, k)
  {
    forall x | x in s.threads && x != t && !At(s, x, k)
      ensures x in u.threads && u.threads[x] == s.threads[x]
    {
      assert !At(m, x, k);
    }
  }

  /** So a close that has begun completes: the counted senders leave one by one, then the channel closes. */
  lemma {:induction false} CloseCompletes(s: Bus, t: nat) returns (run: seq<Bus>, acts: seq<Action>)
    requires Inv(s) && t in s.threads && s.threads[t].Waiting?
    ensures IsRun(run, acts) && run[0] == s && Inv(run[|acts|])
    ensures var k, u := s.threads[t].sub, run[|acts|];
            && Worked(s, u, t, k) && k in u.subs && u.subs[k].chClosed
            && t in u.threads && u.threads[t] == Closing(s.threads[t].todo)
    ensures |acts| > 0 && acts[|acts| - 1] == FinishClose(t)
    ensures forall i :: 0 <= i < |acts| - 1 ==> acts[i].SeeDone? || acts[i].SenderDone?
    decreases Work(s, s.threads[t].sub)
  {
    hide Work, Worked, Inv, IsRun, Step, Enabled, At, Counted;
    var k := s.threads[t].sub;
    WaitingFacts(s, t);
    if Counted(s, k) == {} {
      run, acts := FinishedRun(s, t);
    } else {
      var x :| x in Counted(s, k);
      CountedAt(s, x, k);
      var a := CountedCanStep(s, x, k);
      var u := Step(s, a);
      StepIsSafe(s, a);
      SenderStepIsWork(s, a, t, k, x);
      var run', acts' := CloseCompletes(u, t);
      LengthOfRun(run', acts');
      run, acts := [s] + run', [a] + acts';
      Prepended(s, a, run', acts');
      WorkJoins(s, u, run'[|acts'|], t, k);
    }
  }

  lemma CountedAt(s: Bus, x: nat, k: nat)
    requires x in Counted(s, k)
    ensures At(s, x, k) && x in s.threads && !s.threads[x].Waiting?
  {}

  lemma WaitingFacts(s: Bus, t: nat)
    requires Inv(s) && t in s.threads && s.threads[t].Waiting?
    ensures s.threads[t].sub in s.subs && s.subs[s.threads[t].sub].done
    ensures Counted(s, s.threads[t].sub) == {} ==> Enabled(s, FinishClose(t))
  {
    assert ThreadOk(s, t) && SubOk(s, s.threads[t].sub);
  }

  lemma FinishedRun(s: Bus, t: nat) returns (run: seq<Bus>, acts: seq<Action>)
    requires Inv(s) && Enabled(s, FinishClose(t))
    ensures IsRun(run, acts) && run[0] == s && Inv(run[|acts|]) && acts == [FinishClose(t)]
    ensures var k, u := s.threads[t].sub, run[|acts|];
            && Worked(s, u, t, k) && k in u.subs && u.subs[k].chClosed
            && t in u.threads && u.threads[t] == Closing(s.threads[t].todo)
  {
    hide Inv, Lists;
    run, acts := [s, Step(s, FinishClose(t))], [FinishClose(t)];
    FinishIsWork(s, t, s.threads[t].sub);
    StepIsSafe(s, FinishClose(t));
  }

  lemma Prepended(s: Bus, a: Action, run: seq<Bus>, acts: seq<Action>)
    requires Enabled(s, a) && IsRun(run, acts) && run[0] == Step(s, a)
    ensures IsRun([s] + run, [a] + acts)
  {
    hide Enabled, Step;
    var all, did := [s] + run, [a] + acts;
    forall i | 0 <= i < |did| ensures Enabled(all[i], did[i]) && all[i + 1] == Step(all[i], did[i]) {
      if i > 0 {
        assert all[i] == run[i - 1] && all[i + 1] == run[i - 1 + 1] && did[i] == acts[i - 1];
      }
    }
  }

  lemma Joined(run: seq<Bus>, acts: seq<Action>, run': seq<Bus>, acts': seq<Action>)
    requires IsRun(run, acts) && IsRun(run', acts') && run[|acts|] == run'[0]
    ensures IsRun(run + run'[1..], acts + acts') && (run + run'[1..])[0] == run[0] && (run + run'[1..])[|acts + acts'|] == run'[|acts'|]
  {
    hide Enabled, Step;
    var all, did := run + run'[1..], acts + acts';
    forall i | 0 <= i < |did| ensures Enabled(all[i], did[i]) && all[i + 1] == Step(all[i], did[i]) {
      if i < |acts| {
        assert all[i] == run[i] && all[i + 1] == run[i + 1] && did[i] == acts[i];
      } else {
        var j := i - |acts|;
        assert all[i] == run'[j] && all[i + 1] == run'[j + 1] && did[i] == acts'[j];
      }
    }
  }

  /** Closed channels stay closed. */
  ghost predicate StillClosed(s: Bus, u: Bus) {
    forall k :: k in s.subs && s.subs[k].chClosed ==> k in u.subs && u.subs[k].chClosed
  }

  /** What is left of the close list once its head is closed. */
  ghost predicate HeadClosed(s: Bus, u: Bus, t: nat, k: nat) {
    && t in s.threads && s.threads[t].Closing? && s.threads[t].todo != [] && s.threads[t].todo[0] == k
    && t in u.threads && u.threads[t] == Closing(s.threads[t].todo[1..])
    && k in u.subs && u.subs[k].chClosed && StillClosed(s, u)
  }

  lemma HeadClosedHere(s: Bus, t: nat, k: nat) returns (run: seq<Bus>, acts: seq<Action>)
    requires Inv(s) && Enabled(s, EnterClose(t)) && s.threads[t].todo[0] == k
    ensures IsRun(run, acts) && run[0] == s && Inv(run[|acts|]) && HeadClosed(s, run[|acts|], t, k)
  {
    hide Lists, Inv, IsRun, Worked, StillClosed;
    var u := Step(s, EnterClose(t));
    StepIsSafe(s, EnterClose(t));
    var run', acts' := CloseCompletes(u, t);
    LengthOfRun(run', acts');
    run, acts := [s] + run', [EnterClose(t)] + acts';
    Prepended(s, EnterClose(t), run', acts');
    EnteredStaysClosed(s, u, run'[|acts'|], t, k);
  }

  lemma HeadClosedBefore(s: Bus, t: nat, k: nat) returns (run: seq<Bus>, acts: seq<Action>)
    requires Inv(s) && Enabled(s, SkipClose(t)) && s.threads[t].todo[0] == k
    ensures IsRun(run, acts) && run[0] == s && Inv(run[|acts|]) && HeadClosed(s, run[|acts|], t, k)
  {
    hide Lists;
    assert SubOk(s, k);
    run, acts := [s, Step(s, SkipClose(t))], [SkipClose(t)];
    StepIsSafe(s, SkipClose(t));
  }

  lemma HeadClosedElsewhere(s: Bus, t: nat, k: nat, x: nat) returns (run: seq<Bus>, acts: seq<Action>)
    requires Inv(s) && AtHead(s, t) && s.threads[t].Closing? && s.threads[t].todo[0] == k
    requires x in s.threads && s.threads[x].Waiting? && s.threads[x].sub == k
    ensures IsRun(run, acts) && run[0] == s && Inv(run[|acts|]) && HeadClosed(s, run[|acts|], t, k)
  {
    hide Lists, IsRun, Worked, StillClosed;
    var run1, acts1 := CloseCompletes(s, x);
    LengthOfRun(run1, acts1);
    var u := run1[|acts1|];
    WorkLeavesAlone(s, u, x, k, t);
    assert SubOk(u, k);
    hide Inv;
    var run2, acts2 := HeadClosedBefore(u, t, k);
    LengthOfRun(run2, acts2);
    Joined(run1, acts1, run2, acts2);
    run, acts := run1 + run2[1..], acts1 + acts2;
    ClosedJoins(s, u, run2[|acts2|]);
  }

  lemma ClosedJoins(s: Bus, u: Bus, w: Bus)
    requires StillClosed(s, u) && StillClosed(u, w)
    ensures StillClosed(s, w)
  {}

  /** The head of a close list can be disposed of: closed by this goroutine, or by the one that is at it. */
  lemma HeadCloses(s: Bus, t: nat) returns (run: seq<Bus>, acts: seq<Action>)
    requires Inv(s) && t in s.threads && s.threads[t].Closing? && s.threads[t].todo != []
    ensures IsRun(run, acts) && run[0] == s && Inv(run[|acts|]) && HeadClosed(s, run[|acts|], t, s.threads[t].todo[0])
  {
    hide Lists, IsRun, HeadClosed;
    var k := s.threads[t].todo[0];
    assert ThreadOk(s, t) && SubOk(s, k);
    if s.subs[k].once.NotRun? {
      run, acts := HeadClosedHere(s, t, k);
    } else if s.subs[k].once.Done? {
      run, acts := HeadClosedBefore(s, t, k);
    } else {
      run, acts := HeadClosedElsewhere(s, t, k, s.subs[k].once.thread);
    }
  }

  lemma EnteredStaysClosed(s: Bus, u: Bus, w: Bus, t: nat, k: nat)
    requires Enabled(s, EnterClose(t)) && u == Step(s, EnterClose(t)) && s.threads[t].todo[0] == k
    requires Worked(u, w, t, k) && k in w.subs && w.subs[k].chClosed
    ensures StillClosed(s, w)
  {}

  lemma WorkLeavesAlone(s: Bus, u: Bus, x: nat, k: nat, t: nat)
    requires Worked(s, u, x, k) && t in s.threads && s.threads[t].Closing? && x in s.threads && s.threads[x].Waiting? && k in u.subs && u.subs[k].chClosed
    ensures t in u.threads && u.threads[t] == s.threads[t] && StillClosed(s, u)
  {}

  /**
   A close of many subscribers finishes too, from every sound state, whatever part of them other
   goroutines are closing: there is a run at whose end the goroutine has nothing left to close, and
   every channel on its list is closed.
   */
  lemma {:induction false} ClosesAll(s: Bus, t: nat) returns (run: seq<Bus>, acts: seq<Action>)
    requires Inv(s) && t in s.threads && s.threads[t].Closing?
    ensures IsRun(run, acts) && run[0] == s && Inv(run[|acts|])
    ensures t in run[|acts|].threads && run[|acts|].threads[t] == Closing([])
    ensures forall i :: 0 <= i < |s.threads[t].todo| ==>
              s.threads[t].todo[i] in run[|acts|].subs && run[|acts|].subs[s.threads[t].todo[i]].chClosed
    ensures StillClosed(s, run[|acts|])
    decreases |s.threads[t].todo|
  {
    hide Inv, IsRun, Step, Enabled;
    var todo := s.threads[t].todo;
    if todo == [] {
      run, acts := [s], [];
      assert IsRun([s], []) by { NoSteps(s); }
    } else {
      var run1, acts1 := HeadCloses(s, t);
      LengthOfRun(run1, acts1);
      var u := run1[|acts1|];
      var run2, acts2 := ClosesAll(u, t);
      LengthOfRun(run2, acts2);
      Joined(run1, acts1, run2, acts2);
      run, acts := run1 + run2[1..], acts1 + acts2;
      assert todo == [todo[0]] + todo[1..];
    }
  }

  lemma NoSteps(s: Bus)
    ensures IsRun([s], [])
  {}

  lemma LengthOfRun(run: seq<Bus>, acts: seq<Action>)
    requires IsRun(run, acts)
    ensures |run| == |acts| + 1
  {}
}
