/** The event pipeline as atomic steps: queues with an auto-reset event each, drained by pools of workers that push
    into the next queue or into the buffer of the single pipe writer. */
module Pipeline {
  import opened Wrappers
  import Frames

  /** An event, the size of its serialized form, and whether a topic worker makes an empty document of it, as it does of
      a kind it does not know. */
  datatype Event = Event(id: nat, size: nat, blank: bool)

  /** The two reasons to drop an event: an empty document, and a frame that is too large. */
  predicate Droppable(e: Event) { e.blank || e.size > Frames.LIMIT }

  datatype Lock = Free | Publisher | Held(worker: nat)

  /** Where a worker is: waiting for the event; in its drain loop before the queue; with an event in hand; holding
      the lock of the next queue before SetEvent; or before notify_one. */
  datatype Place = Waiting | Draining | Holding(event: Event) | Signalling | Notifying
  datatype Worker = Worker(stage: nat, place: Place)

  /** The pipe writer: in its wait; about to look at the buffer; or writing a frame. */
  datatype Writer = Asleep | Ready | Writing(event: Event)

  /** A queue with its auto-reset event and its mutex. */
  datatype Stage = Stage(queue: seq<Event>, signaled: bool, lock: Lock)

  /** For each stage, where its workers push to: a later stage, or the pipe if there is no stage of that number. */
  datatype Config = Config(next: seq<nat>) {
    predicate Valid() { forall s :: 0 <= s < |next| ==> s < next[s] }
    predicate ToPipe(s: nat) { s < |next| <= next[s] }
    predicate ToStage(s: nat) { s < |next| && next[s] < |next| }
  }

  datatype State = State(stages: seq<Stage>, workers: seq<Worker>, pipeLock: Lock, buffer: seq<Event>, writer: Writer,
                         output: seq<Event>, published: multiset<Event>, dropped: multiset<Event>, sent: seq<Event>)

  datatype Step =
    | Publish(stage: nat, event: Event)
    | SignalPublished(stage: nat)
    | Wake(worker: nat)
    | Pop(worker: nat)
    | Rest(worker: nat)
    | Drop(worker: nat)
    | Push(worker: nat)
    | Signal(worker: nat)
    | Write(worker: nat)
    | Notify(worker: nat)
    | Take
    | Flush
    | Spurious

  predicate At(c: Config, s: State, w: nat) {
    w < |s.workers| && |s.stages| == |c.next| && s.workers[w].stage < |c.next|
  }

  function Move(s: State, w: nat, p: Place): State
    requires w < |s.workers|
  {
    s.(workers := s.workers[w := s.workers[w].(place := p)])
  }

  function SetStage(s: State, i: nat, g: Stage): State
    requires i < |s.stages|
  {
    s.(stages := s.stages[i := g])
  }

  // ----- the steps; None where a step cannot be taken -----

  function Apply(c: Config, s: State, st: Step): Option<State> {
    match st
    case Publish(i, ev) =>
      if i < |s.stages| && s.stages[i].lock == Free then
        Some(SetStage(s, i, s.stages[i].(queue := s.stages[i].queue + [ev], lock := Publisher))
             .(published := s.published + multiset{ev}))
      else None
    case SignalPublished(i) =>
      if i < |s.stages| && s.stages[i].lock == Publisher then
        Some(SetStage(s, i, s.stages[i].(signaled := true, lock := Free)))
      else None
    case Take => ApplyTake(s)
    case Flush =>
      if s.writer.Writing? then Some(s.(writer := Ready, output := s.output + [s.writer.event])) else None
    case Spurious => if s.writer == Asleep then Some(s.(writer := Ready)) else None
    case _ => if At(c, s, st.worker) then ApplyWorker(c, s, st.worker, st) else None
  }

  /** The predicate of the wait and the pop behind it, under the writer's mutex. */
  function ApplyTake(s: State): Option<State> {
    if s.writer != Ready then None
    else if |s.buffer| == 0 then Some(s.(writer := Asleep))
    else Some(s.(writer := Writing(s.buffer[0]), buffer := s.buffer[1..]))
  }

  function ApplyWorker(c: Config, s: State, w: nat, st: Step): Option<State>
    requires At(c, s, w)
  {
    var i := s.workers[w].stage;
    var g, p := s.stages[i], s.workers[w].place;
    match st
    case Wake(_) =>
      if p == Waiting && g.signaled then Some(SetStage(Move(s, w, Draining), i, g.(signaled := false))) else None
    case Pop(_) =>
      if p == Draining && g.lock == Free && |g.queue| > 0 then
        Some(SetStage(Move(s, w, Holding(g.queue[0])), i, g.(queue := g.queue[1..])))
      else None
    case Rest(_) =>
      if p == Draining && g.lock == Free && |g.queue| == 0 then Some(Move(s, w, Waiting)) else None
    case Drop(_) =>
      if p.Holding? && (if c.ToStage(i) then p.event.blank else p.event.size > Frames.LIMIT) then
        Some(Move(s, w, Draining).(dropped := s.dropped + multiset{p.event}))
      else None
    case Push(_) =>
      if p.Holding? && c.ToStage(i) && !p.event.blank && s.stages[c.next[i]].lock == Free then
        var t := c.next[i];
        Some(SetStage(Move(s, w, Signalling), t, s.stages[t].(queue := s.stages[t].queue + [p.event], lock := Held(w))))
      else None
    case Signal(_) =>
      if p == Signalling && c.ToStage(i) then
        var t := c.next[i];
        Some(SetStage(Move(s, w, Draining), t, s.stages[t].(signaled := true, lock := Free)))
      else None
    case Write(_) =>
      if p.Holding? && c.ToPipe(i) && p.event.size <= Frames.LIMIT && s.pipeLock == Free then
        Some(Move(s, w, Notifying).(buffer := s.buffer + [p.event], sent := s.sent + [p.event], pipeLock := Held(w)))
      else None
    case Notify(_) =>
      if p == Notifying then
        Some(Move(s, w, Draining).(writer := if s.writer == Asleep then Ready else s.writer, pipeLock := Free))
      else None
    case _ => None
  }

  // ----- conservation -----

  function One(b: bool): nat { if b then 1 else 0 }

  /** How often event e is in a queue. */
  function CountIn(q: seq<Event>, e: Event): nat {
    if |q| == 0 then 0 else CountIn(q[..|q| - 1], e) + One(q[|q| - 1] == e)
  }

  function InHand(w: Worker, e: Event): nat { One(w.place == Holding(e)) }

  function InHands(ws: seq<Worker>, e: Event): nat {
    if |ws| == 0 then 0 else InHands(ws[..|ws| - 1], e) + InHand(ws[|ws| - 1], e)
  }

  function InQueues(gs: seq<Stage>, e: Event): nat {
    if |gs| == 0 then 0 else InQueues(gs[..|gs| - 1], e) + CountIn(gs[|gs| - 1].queue, e)
  }

  function WriterHand(w: Writer): seq<Event> {
    if w.Writing? then [w.event] else []
  }

  /** Where a published event can be: in a queue, a worker's hand, the pipe buffer, the writer's hand, the output,
      or among the dropped ones; as often as it was published. */
  predicate Conserved(s: State, e: Event) {
    s.published[e] == InQueues(s.stages, e) + InHands(s.workers, e) + CountIn(s.buffer, e) + One(s.writer == Writing(e))
                      + CountIn(s.output, e) + s.dropped[e]
  }

  lemma {:induction false} HandsUpdate(ws: seq<Worker>, i: nat, w: Worker, e: Event)
    requires i < |ws|
    ensures InHands(ws[i := w], e) + InHand(ws[i], e) == InHands(ws, e) + InHand(w, e)
  {
    hide InHand;
    var m := |ws| - 1;
    if i == m {
      assert ws[i := w][..m] == ws[..m];
    } else {
      HandsUpdate(ws[..m], i, w, e);
      assert ws[i := w][..m] == ws[..m][i := w];
    }
  }

  lemma {:induction false} QueuesUpdate(gs: seq<Stage>, i: nat, g: Stage, e: Event)
    requires i < |gs|
    ensures InQueues(gs[i := g], e) + CountIn(gs[i].queue, e) == InQueues(gs, e) + CountIn(g.queue, e)
  {
    hide CountIn;
    var m := |gs| - 1;
    if i == m {
      assert gs[i := g][..m] == gs[..m];
    } else {
      QueuesUpdate(gs[..m], i, g, e);
      assert gs[i := g][..m] == gs[..m][i := g];
    }
  }

  lemma {:induction false} FrontOut(q: seq<Event>, e: Event)
    requires |q| > 0
    ensures CountIn(q, e) == One(q[0] == e) + CountIn(q[1..], e)
  {
    if |q| > 1 {
      FrontOut(q[..|q| - 1], e);
      assert q[..|q| - 1][1..] == q[1..][..|q| - 2];
    }
  }

  lemma BackIn(q: seq<Event>, x: Event, e: Event)
    ensures CountIn(q + [x], e) == CountIn(q, e) + One(x == e)
  {
    assert (q + [x])[..|q|] == q;
  }

  lemma WorkerConserves(c: Config, s: State, w: nat, st: Step, e: Event)
    requires Conserved(s, e) && At(c, s, w) && ApplyWorker(c, s, w, st).Some?
    ensures Conserved(ApplyWorker(c, s, w, st).value, e)
  {
    hide InHands, InQueues, CountIn;
    var s' := ApplyWorker(c, s, w, st).value;
    var i, p := s.workers[w].stage, s.workers[w].place;
    HandsUpdate(s.workers, w, s'.workers[w], e);
    match st
    case Wake(_) => QueuesUpdate(s.stages, i, s'.stages[i], e);
    case Pop(_) =>
      QueuesUpdate(s.stages, i, s'.stages[i], e);
      FrontOut(s.stages[i].queue, e);
    case Push(_) =>
      QueuesUpdate(s.stages, c.next[i], s'.stages[c.next[i]], e);
      BackIn(s.stages[c.next[i]].queue, p.event, e);
    case Signal(_) => QueuesUpdate(s.stages, c.next[i], s'.stages[c.next[i]], e);
    case Write(_) => BackIn(s.buffer, p.event, e);
    case _ =>
  }

  lemma StepConserves(c: Config, s: State, st: Step, e: Event)
    requires Conserved(s, e) && Apply(c, s, st).Some?
    ensures Conserved(Apply(c, s, st).value, e)
  {
    hide InHands, InQueues, CountIn, ApplyWorker;
    var s' := Apply(c, s, st).value;
    match st
    case Publish(i, ev) =>
      QueuesUpdate(s.stages, i, s'.stages[i], e);
      BackIn(s.stages[i].queue, ev, e);
    case SignalPublished(i) => QueuesUpdate(s.stages, i, s'.stages[i], e);
    case Take => if |s.buffer| > 0 { FrontOut(s.buffer, e); }
    case Flush => BackIn(s.output, s.writer.event, e);
    case Spurious =>
    case _ => WorkerConserves(c, s, st.worker, st, e);
  }

  /** The pipe is first in, first out. */
  predicate InOrder(s: State) {
    s.sent == s.output + WriterHand(s.writer) + s.buffer
  }

  lemma StepKeepsOrder(c: Config, s: State, st: Step)
    requires InOrder(s) && Apply(c, s, st).Some?
    ensures InOrder(Apply(c, s, st).value)
    ensures s.output <= Apply(c, s, st).value.output && s.sent <= Apply(c, s, st).value.sent
  {}

  // ----- the queues, each with one worker -----

  /** What a step puts into queue t. */
  function PutBy(c: Config, s: State, st: Step, t: nat): seq<Event> {
    match st
    case Publish(i, ev) => if i == t then [ev] else []
    case Push(w) =>
      if At(c, s, w) && s.workers[w].place.Holding? && c.next[s.workers[w].stage] == t then [s.workers[w].place.event]
      else []
    case _ => []
  }

  /** What a worker of stage t passes on in a step: to the next queue, to the pipe, or away. */
  function HandedBy(c: Config, s: State, st: Step, t: nat): seq<Event> {
    if st.Push? || st.Write? || st.Drop? then
      if At(c, s, st.worker) && s.workers[st.worker].place.Holding? && s.workers[st.worker].stage == t then
        [s.workers[st.worker].place.event]
      else []
    else []
  }

  predicate OnlyWorker(s: State, t: nat, w: nat) {
    w < |s.workers| && s.workers[w].stage == t
    && forall v :: 0 <= v < |s.workers| && v != w ==> s.workers[v].stage != t
  }

  function Hand(w: Worker): seq<Event> { if w.place.Holding? then [w.place.event] else [] }

  /** What has been put in has been passed on, is in the worker's hand, or waits in the queue: in that order. */
  predicate FirstInFirstOut(s: State, t: nat, w: nat, put: seq<Event>, handed: seq<Event>)
    requires t < |s.stages| && w < |s.workers|
  {
    put == handed + Hand(s.workers[w]) + s.stages[t].queue
  }

  lemma StepKeepsQueue(c: Config, s: State, st: Step, t: nat, w: nat, put: seq<Event>, handed: seq<Event>)
    requires c.Valid() && |s.stages| == |c.next| && t < |s.stages| && OnlyWorker(s, t, w) && Apply(c, s, st).Some?
    requires FirstInFirstOut(s, t, w, put, handed)
    ensures var s' := Apply(c, s, st).value;
            && |s'.stages| == |c.next| && OnlyWorker(s', t, w)
            && FirstInFirstOut(s', t, w, put + PutBy(c, s, st, t), handed + HandedBy(c, s, st, t))
  {
    hide Apply, OnlyWorker, FirstInFirstOut, PutBy, HandedBy;
    StepKeepsWorkers(c, s, st, t, w);
    if st.Push? { PushKeepsQueue(c, s, st, t, w, put, handed); } else { OtherKeepsQueue(c, s, st, t, w, put, handed); }
  }

  lemma PushKeepsQueue(c: Config, s: State, st: Step, t: nat, w: nat, put: seq<Event>, handed: seq<Event>)
    requires c.Valid() && |s.stages| == |c.next| && t < |s.stages| && OnlyWorker(s, t, w) && Apply(c, s, st).Some?
    requires FirstInFirstOut(s, t, w, put, handed) && st.Push?
    requires var s' := Apply(c, s, st).value; |s'.stages| == |c.next| && OnlyWorker(s', t, w)
    ensures FirstInFirstOut(Apply(c, s, st).value, t, w, put + PutBy(c, s, st, t), handed + HandedBy(c, s, st, t))
  {
    var s' := Apply(c, s, st).value;
    var p, h := put + PutBy(c, s, st, t), handed + HandedBy(c, s, st, t);
    assert p == h + Hand(s'.workers[w]) + s'.stages[t].queue;
  }

  lemma OtherKeepsQueue(c: Config, s: State, st: Step, t: nat, w: nat, put: seq<Event>, handed: seq<Event>)
    requires c.Valid() && |s.stages| == |c.next| && t < |s.stages| && OnlyWorker(s, t, w) && Apply(c, s, st).Some?
    requires FirstInFirstOut(s, t, w, put, handed) && !st.Push?
    requires var s' := Apply(c, s, st).value; |s'.stages| == |c.next| && OnlyWorker(s', t, w)
    ensures FirstInFirstOut(Apply(c, s, st).value, t, w, put + PutBy(c, s, st, t), handed + HandedBy(c, s, st, t))
  {
    var s' := Apply(c, s, st).value;
    var p, h := put + PutBy(c, s, st, t), handed + HandedBy(c, s, st, t);
    assert p == h + Hand(s'.workers[w]) + s'.stages[t].queue;
  }

  lemma StepKeepsWorkers(c: Config, s: State, st: Step, t: nat, w: nat)
    requires c.Valid() && |s.stages| == |c.next| && OnlyWorker(s, t, w) && Apply(c, s, st).Some?
    ensures var s' := Apply(c, s, st).value; |s'.stages| == |c.next| && OnlyWorker(s', t, w)
  {}

  // ----- what is dropped -----

  /** Only events with an empty document or too large a frame have been dropped. */
  predicate DropsOK(s: State) {
    forall e :: e in s.dropped ==> Droppable(e)
  }

  lemma StepDrops(c: Config, s: State, st: Step)
    requires DropsOK(s) && Apply(c, s, st).Some?
    ensures DropsOK(Apply(c, s, st).value)
  {}

  /** The event is not in a queue that leads to another queue, nor in the hand of a worker there, nor dropped. */
  ghost predicate OffTopic(c: Config, s: State, e: Event) {
    && |s.stages| == |c.next| && e !in s.dropped
    && (forall t {:trigger s.stages[t]} :: 0 <= t < |s.stages| && c.ToStage(t) ==> e !in s.stages[t].queue)
    && (forall w {:trigger s.workers[w]} :: 0 <= w < |s.workers| && c.ToStage(s.workers[w].stage) ==>
          s.workers[w].place != Holding(e))
  }

  lemma WorkerOffTopic(c: Config, s: State, w0: nat, st: Step, e: Event)
    requires c.Valid() && OffTopic(c, s, e) && e.size <= Frames.LIMIT && At(c, s, w0) && ApplyWorker(c, s, w0, st).Some?
    ensures OffTopic(c, ApplyWorker(c, s, w0, st).value, e)
  {
    var s' := ApplyWorker(c, s, w0, st).value;
    var i := s.workers[w0].stage;
    forall t | 0 <= t < |s'.stages| && c.ToStage(t) ensures e !in s'.stages[t].queue {
      assert e !in s.stages[t].queue;
      if s'.stages[t].queue != s.stages[t].queue && st.Pop? {
        assert s'.stages[t].queue == s.stages[t].queue[1..];
      }
    }
    forall w | 0 <= w < |s'.workers| && c.ToStage(s'.workers[w].stage) ensures s'.workers[w].place != Holding(e) {
      assert s.workers[w].place != Holding(e);
      if w == w0 && st.Pop? { assert s.stages[i].queue[0] in s.stages[i].queue; }
    }
  }

  lemma StepOffTopic(c: Config, s: State, st: Step, e: Event)
    requires c.Valid() && OffTopic(c, s, e) && e.size <= Frames.LIMIT && Apply(c, s, st).Some?
    requires st.Publish? && st.event == e ==> c.ToPipe(st.stage)
    ensures OffTopic(c, Apply(c, s, st).value, e)
  {
    hide ApplyWorker;
    match st
    case Publish(_, _) =>
    case SignalPublished(_) =>
    case Take =>
    case Flush =>
    case Spurious =>
    case _ => WorkerOffTopic(c, s, st.worker, st, e);
  }

  // ----- locks and wakeups -----

  predicate StageLockOK(c: Config, s: State, t: nat)
    requires t < |s.stages|
  {
    var l := s.stages[t].lock;
    l.Held? ==> At(c, s, l.worker) && s.workers[l.worker].place == Signalling
                && c.ToStage(s.workers[l.worker].stage) && c.next[s.workers[l.worker].stage] == t
  }

  predicate WorkerOK(c: Config, s: State, w: nat)
    requires w < |s.workers|
  {
    && At(c, s, w)
    && match s.workers[w].place
       case Signalling => c.ToStage(s.workers[w].stage) && s.stages[c.next[s.workers[w].stage]].lock == Held(w)
       case Notifying => s.pipeLock == Held(w)
       case _ => true
  }

  predicate PipeLockOK(c: Config, s: State) {
    match s.pipeLock
    case Free => true
    case Publisher => false
    case Held(w) => w < |s.workers| && s.workers[w].place == Notifying
  }

  /** A lock is held exactly by the worker that is between its push and its signal. */
  predicate LocksOK(c: Config, s: State) {
    && c.Valid() && |s.stages| == |c.next| && PipeLockOK(c, s)
    && (forall t {:trigger StageLockOK(c, s, t)} :: 0 <= t < |s.stages| ==> StageLockOK(c, s, t))
    && (forall w {:trigger WorkerOK(c, s, w)} :: 0 <= w < |s.workers| ==> WorkerOK(c, s, w))
  }

  /** Worker w of stage t is inside its drain loop. */
  predicate Active(s: State, w: nat, t: nat) {
    w < |s.workers| && s.workers[w].stage == t && s.workers[w].place != Waiting
  }

  /** Somebody will look at queue t: its event is set, a worker is in its drain loop, or whoever pushed last is about
      to set the event. */
  ghost predicate Attended(s: State, t: nat)
    requires t < |s.stages|
  {
    s.stages[t].signaled || s.stages[t].lock != Free || exists w {:trigger Active(s, w, t)} :: Active(s, w, t)
  }

  ghost predicate QueueAttended(s: State, t: nat)
    requires t < |s.stages|
  {
    |s.stages[t].queue| > 0 ==> Attended(s, t)
  }

  /** No wakeup is lost. */
  ghost predicate NoLostWakeup(s: State) {
    && (forall t {:trigger QueueAttended(s, t)} :: 0 <= t < |s.stages| ==> QueueAttended(s, t))
    && (|s.buffer| > 0 ==> s.writer != Asleep || s.pipeLock != Free)
  }

  lemma WorkerKeepsLocks(c: Config, s: State, w0: nat, st: Step)
    requires LocksOK(c, s) && At(c, s, w0) && ApplyWorker(c, s, w0, st).Some?
    ensures LocksOK(c, ApplyWorker(c, s, w0, st).value)
  {
    var s' := ApplyWorker(c, s, w0, st).value;
    assert WorkerOK(c, s, w0);
    forall t | 0 <= t < |s'.stages| ensures StageLockOK(c, s', t) {
      assert StageLockOK(c, s, t);
    }
    forall w | 0 <= w < |s'.workers| ensures WorkerOK(c, s', w) {
      assert WorkerOK(c, s, w);
    }
  }

  lemma StepKeepsLocks(c: Config, s: State, st: Step)
    requires LocksOK(c, s) && Apply(c, s, st).Some?
    ensures LocksOK(c, Apply(c, s, st).value)
  {
    hide ApplyWorker;
    var s' := Apply(c, s, st).value;
    match st
    case Publish(_, _) => OthersKeepLocks(c, s, s');
    case SignalPublished(_) => OthersKeepLocks(c, s, s');
    case Take => OthersKeepLocks(c, s, s');
    case Flush => OthersKeepLocks(c, s, s');
    case Spurious => OthersKeepLocks(c, s, s');
    case _ => WorkerKeepsLocks(c, s, st.worker, st);
  }

  /** Steps of the publishers and of the writer leave the workers and the locks they hold alone. */
  lemma OthersKeepLocks(c: Config, s: State, s': State)
    requires LocksOK(c, s) && s'.workers == s.workers && s'.pipeLock == s.pipeLock && |s'.stages| == |s.stages|
    requires forall t {:trigger s'.stages[t]} :: 0 <= t < |s.stages| ==>
               s'.stages[t].lock == s.stages[t].lock || (!s.stages[t].lock.Held? && !s'.stages[t].lock.Held?)
    ensures LocksOK(c, s')
  {
    forall t | 0 <= t < |s'.stages| ensures StageLockOK(c, s', t) {
      assert StageLockOK(c, s, t);
    }
    forall w | 0 <= w < |s'.workers| ensures WorkerOK(c, s', w) {
      assert WorkerOK(c, s, w);
    }
  }

  /** The workers still inside their drain loops keep attending the queues. */
  lemma StillAttended(c: Config, s: State, w0: nat, st: Step, t: nat)
    requires LocksOK(c, s) && At(c, s, w0) && ApplyWorker(c, s, w0, st).Some? && t < |s.stages| && QueueAttended(s, t)
    ensures QueueAttended(ApplyWorker(c, s, w0, st).value, t)
  {
    var s' := ApplyWorker(c, s, w0, st).value;
    var i := s.workers[w0].stage;
    if |s'.stages[t].queue| > 0 && !s'.stages[t].signaled && s'.stages[t].lock == Free {
      if i == t && s'.workers[w0].place != Waiting {
        assert Active(s', w0, t);
      } else {
        var w :| Active(s, w, t);
        assert Active(s', w, t);
      }
    }
  }

  lemma StepLosesNoWakeup(c: Config, s: State, st: Step)
    requires LocksOK(c, s) && NoLostWakeup(s) && Apply(c, s, st).Some?
    ensures NoLostWakeup(Apply(c, s, st).value)
  {
    var s' := Apply(c, s, st).value;
    forall t | 0 <= t < |s'.stages| ensures QueueAttended(s', t) {
      assert QueueAttended(s, t);
      match st
      case Publish(_, _) => OthersAttend(s, s', t);
      case SignalPublished(_) => OthersAttend(s, s', t);
      case Take => OthersAttend(s, s', t);
      case Flush => OthersAttend(s, s', t);
      case Spurious => OthersAttend(s, s', t);
      case _ => StillAttended(c, s, st.worker, st, t);
    }
  }

  lemma OthersAttend(s: State, s': State, t: nat)
    requires s'.workers == s.workers && t < |s.stages| == |s'.stages| && QueueAttended(s, t)
    requires s'.stages[t] == s.stages[t] || s'.stages[t].signaled || s'.stages[t].lock != Free
    ensures QueueAttended(s', t)
  {
    if s'.stages[t] == s.stages[t] && |s.stages[t].queue| > 0 && !s.stages[t].signaled && s.stages[t].lock == Free {
      var w :| Active(s, w, t);
      assert Active(s', w, t);
    }
  }

  // ----- every run -----

  ghost predicate Invariant(c: Config, s: State) {
    LocksOK(c, s) && NoLostWakeup(s) && InOrder(s) && DropsOK(s)
        && forall e {:trigger Conserved(s, e)} :: Conserved(s, e)
  }

  /** Empty queues, and the pools of workers waiting; pool[w] is the stage of worker w. */
  function Start(c: Config, pool: seq<nat>): State {
    State(seq(|c.next|, _ => Stage([], false, Free)),
          seq(|pool|, w requires 0 <= w < |pool| => Worker(pool[w], Waiting)),
          Free, [], Ready, [], multiset{}, multiset{}, [])
  }

  function Run(c: Config, s: State, steps: seq<Step>): Option<State> {
    if |steps| == 0 then Some(s)
    else
      match Run(c, s, steps[..|steps| - 1])
      case None => None
      case Some(s') => Apply(c, s', steps[|steps| - 1])
  }

  /** What a run puts into queue t, and what its workers pass on. */
  function PutIn(c: Config, s: State, steps: seq<Step>, t: nat): seq<Event> {
    if |steps| == 0 then []
    else
      var front := steps[..|steps| - 1];
      match Run(c, s, front)
      case None => []
      case Some(s') => PutIn(c, s, front, t) + PutBy(c, s', steps[|steps| - 1], t)
  }

  function HandedOn(c: Config, s: State, steps: seq<Step>, t: nat): seq<Event> {
    if |steps| == 0 then []
    else
      var front := steps[..|steps| - 1];
      match Run(c, s, front)
      case None => []
      case Some(s') => HandedOn(c, s, front, t) + HandedBy(c, s', steps[|steps| - 1], t)
  }

  /** A queue with one worker hands its events on in the order in which they were put in. */
  lemma {:induction false} QueueKeepsOrder(c: Config, pool: seq<nat>, steps: seq<Step>, t: nat, w: nat)
    requires c.Valid() && t < |c.next| && OnlyWorker(Start(c, pool), t, w) && Run(c, Start(c, pool), steps).Some?
    ensures var s := Run(c, Start(c, pool), steps).value;
            && |s.stages| == |c.next| && OnlyWorker(s, t, w)
            && FirstInFirstOut(s, t, w, PutIn(c, Start(c, pool), steps, t), HandedOn(c, Start(c, pool), steps, t))
  {
    var s0 := Start(c, pool);
    if |steps| == 0 {
      assert s0.stages[t].queue == [] && Hand(s0.workers[w]) == [];
    } else {
      hide Apply, PutBy, HandedBy, OnlyWorker, FirstInFirstOut;
      var front := steps[..|steps| - 1];
      QueueKeepsOrder(c, pool, front, t, w);
      StepKeepsQueue(c, Run(c, s0, front).value, steps[|steps| - 1], t, w, PutIn(c, s0, front, t),
                     HandedOn(c, s0, front, t));
    }
  }

  lemma EmptyCounts(gs: seq<Stage>, ws: seq<Worker>, e: Event)
    ensures (forall t :: 0 <= t < |gs| ==> gs[t].queue == []) ==> InQueues(gs, e) == 0
    ensures (forall w :: 0 <= w < |ws| ==> !ws[w].place.Holding?) ==> InHands(ws, e) == 0
  {
    if |gs| > 0 { EmptyCounts(gs[..|gs| - 1], ws, e); }
    if |ws| > 0 { EmptyCounts(gs, ws[..|ws| - 1], e); }
  }

  lemma StartInvariant(c: Config, pool: seq<nat>)
    requires c.Valid() && forall w :: 0 <= w < |pool| ==> pool[w] < |c.next|
    ensures Invariant(c, Start(c, pool))
  {
    var s := Start(c, pool);
    forall e ensures Conserved(s, e) { EmptyCounts(s.stages, s.workers, e); }
    forall t | 0 <= t < |s.stages| ensures StageLockOK(c, s, t) && QueueAttended(s, t) {}
    forall w | 0 <= w < |s.workers| ensures WorkerOK(c, s, w) {}
  }

  lemma StepInvariant(c: Config, s: State, st: Step)
    requires Invariant(c, s) && Apply(c, s, st).Some?
    ensures Invariant(c, Apply(c, s, st).value)
  {
    hide Apply, Conserved, LocksOK, NoLostWakeup, InOrder, DropsOK;
    var s' := Apply(c, s, st).value;
    StepKeepsLocks(c, s, st);
    StepLosesNoWakeup(c, s, st);
    StepKeepsOrder(c, s, st);
    StepDrops(c, s, st);
    forall e ensures Conserved(s', e) { StepConserves(c, s, st, e); }
  }

  /** In every interleaving: no event is lost or duplicated, the pipe keeps its order, and no wakeup is lost. */
  lemma {:induction false} RunInvariant(c: Config, s: State, steps: seq<Step>)
    requires Invariant(c, s) && Run(c, s, steps).Some?
    ensures Invariant(c, Run(c, s, steps).value)
  {
    hide Invariant, Apply;
    if |steps| > 0 {
      RunInvariant(c, s, steps[..|steps| - 1]);
      StepInvariant(c, Run(c, s, steps[..|steps| - 1]).value, steps[|steps| - 1]);
    }
  }

  /** An event that is only ever put into queues that lead to the pipe, and whose frame is not too large, is never
      dropped. */
  lemma {:induction false} NeverDropped(c: Config, pool: seq<nat>, steps: seq<Step>, e: Event)
    requires c.Valid() && e.size <= Frames.LIMIT && Run(c, Start(c, pool), steps).Some?
    requires forall i :: 0 <= i < |steps| && steps[i].Publish? && steps[i].event == e ==> c.ToPipe(steps[i].stage)
    ensures OffTopic(c, Run(c, Start(c, pool), steps).value, e)
  {
    hide Apply;
    if |steps| > 0 {
      var front := steps[..|steps| - 1];
      NeverDropped(c, pool, front, e);
      StepOffTopic(c, Run(c, Start(c, pool), front).value, steps[|steps| - 1], e);
    }
  }

  // ----- everything published is delivered -----

  /** A step of the pipeline itself, other than a spurious wakeup. */
  predicate Internal(st: Step) { !st.Publish? && !st.Spurious? }

  predicate Staffs(s: State, w: nat, t: nat) { w < |s.workers| && s.workers[w].stage == t }

  ghost predicate HasStaff(s: State, t: nat) { exists w {:trigger Staffs(s, w, t)} :: Staffs(s, w, t) }

  /** Every queue has a worker. */
  ghost predicate Staffed(s: State) {
    forall t {:trigger HasStaff(s, t)} :: 0 <= t < |s.stages| ==> HasStaff(s, t)
  }

  /** All that was published has been written to the pipe, except for droppable events. */
  ghost predicate Delivered(s: State) {
    && (forall e {:trigger s.published[e]} :: s.published[e] == CountIn(s.output, e) + s.dropped[e])
    && DropsOK(s)
  }

  lemma DeliveredWhole(s: State, e: Event)
    requires Delivered(s) && !Droppable(e)
    ensures CountIn(s.output, e) == s.published[e]
  {
    assert e !in s.dropped;
  }

  predicate Busy(s: State, w: nat) { w < |s.workers| && s.workers[w].place != Waiting }

  lemma LockedMoves(c: Config, s: State, t: nat) returns (st: Step)
    requires LocksOK(c, s) && t < |s.stages| && s.stages[t].lock != Free
    ensures Internal(st) && Apply(c, s, st).Some?
  {
    assert StageLockOK(c, s, t);
    st := if s.stages[t].lock == Publisher then SignalPublished(t) else Signal(s.stages[t].lock.worker);
  }

  lemma BusyMoves(c: Config, s: State, w: nat) returns (st: Step)
    requires LocksOK(c, s) && Busy(s, w) && s.pipeLock == Free
    requires forall t {:trigger s.stages[t]} :: 0 <= t < |s.stages| ==> s.stages[t].lock == Free
    ensures Internal(st) && Apply(c, s, st).Some?
  {
    assert WorkerOK(c, s, w);
    var i, p := s.workers[w].stage, s.workers[w].place;
    st := if p == Draining then (if |s.stages[i].queue| > 0 then Pop(w) else Rest(w))
          else if c.ToStage(i) then (if p.event.blank then Drop(w) else Push(w))
          else if p.event.size > Frames.LIMIT then Drop(w)
          else Write(w);
  }

  lemma QuietIsDelivered(c: Config, s: State)
    requires Invariant(c, s) && s.pipeLock == Free && s.writer == Asleep
    requires forall t {:trigger s.stages[t]} :: 0 <= t < |s.stages| ==>
              s.stages[t].lock == Free && !s.stages[t].signaled
    requires forall w :: 0 <= w < |s.workers| ==> !Busy(s, w)
    ensures Delivered(s)
  {
    forall t | 0 <= t < |s.stages| ensures s.stages[t].queue == [] {
      assert QueueAttended(s, t);
      if |s.stages[t].queue| > 0 {
        var w :| Active(s, w, t);
        assert Busy(s, w);
      }
    }
    forall e ensures s.published[e] == CountIn(s.output, e) + s.dropped[e] {
      assert Conserved(s, e);
      forall w | 0 <= w < |s.workers| ensures !s.workers[w].place.Holding? { assert !Busy(s, w); }
      EmptyCounts(s.stages, s.workers, e);
    }
  }

  /** As long as something is under way, some step can be taken: the pipeline never gets stuck. */
  lemma NeverStuck(c: Config, s: State) returns (st: Step)
    requires Invariant(c, s) && Staffed(s) && !Delivered(s)
    ensures Internal(st) && Apply(c, s, st).Some?
  {
    hide Apply, Conserved;
    if t :| 0 <= t < |s.stages| && s.stages[t].lock != Free {
      st := LockedMoves(c, s, t);
    } else if s.pipeLock != Free {
      st := NotifyMoves(c, s);
    } else if s.writer != Asleep {
      st := WriterMoves(c, s);
    } else if w :| 0 <= w < |s.workers| && Busy(s, w) {
      st := BusyMoves(c, s, w);
    } else if t :| 0 <= t < |s.stages| && s.stages[t].signaled {
      st := WakeMoves(c, s, t);
    } else {
      QuietIsDelivered(c, s);
    }
  }

  lemma NotifyMoves(c: Config, s: State) returns (st: Step)
    requires LocksOK(c, s) && s.pipeLock != Free
    ensures Internal(st) && Apply(c, s, st).Some?
  {
    assert WorkerOK(c, s, s.pipeLock.worker);
    st := Notify(s.pipeLock.worker);
  }

  lemma WriterMoves(c: Config, s: State) returns (st: Step)
    requires s.writer != Asleep
    ensures Internal(st) && Apply(c, s, st).Some?
  {
    st := if s.writer.Writing? then Flush else Take;
  }

  lemma WakeMoves(c: Config, s: State, t: nat) returns (st: Step)
    requires LocksOK(c, s) && Staffed(s) && t < |s.stages| && s.stages[t].signaled
    requires forall w :: 0 <= w < |s.workers| ==> !Busy(s, w)
    ensures Internal(st) && Apply(c, s, st).Some?
  {
    assert HasStaff(s, t);
    var w :| Staffs(s, w, t);
    assert WorkerOK(c, s, w) && !Busy(s, w);
    st := Wake(w);
  }

  // ----- and in a bounded number of steps -----

  /** How many steps an event in queue i is good for. */
  function Weight(c: Config, i: nat): (v: nat)
    requires c.Valid()
    ensures v >= 6
    decreases if i < |c.next| then |c.next| - i else 0
  {
    if i < |c.next| && c.next[i] < |c.next| then Weight(c, c.next[i]) + 5 else 6
  }

  function Times(n: nat, v: nat): nat { if n == 0 then 0 else Times(n - 1, v) + v }

  function StageWork(c: Config, i: nat, g: Stage): nat
    requires c.Valid()
  {
    Times(|g.queue|, Weight(c, i)) + (if g.signaled then 2 else 0) + (if g.lock == Publisher then 3 else 0)
  }

  function WorkerWork(c: Config, w: Worker): nat
    requires c.Valid()
  {
    match w.place
    case Waiting => 0
    case Draining => 1
    case Holding(_) => Weight(c, w.stage)
    case Signalling => 4
    case Notifying => 3
  }

  function StagesWork(c: Config, gs: seq<Stage>): nat
    requires c.Valid()
  {
    if |gs| == 0 then 0 else StagesWork(c, gs[..|gs| - 1]) + StageWork(c, |gs| - 1, gs[|gs| - 1])
  }

  function WorkersWork(c: Config, ws: seq<Worker>): nat
    requires c.Valid()
  {
    if |ws| == 0 then 0 else WorkersWork(c, ws[..|ws| - 1]) + WorkerWork(c, ws[|ws| - 1])
  }

  /** An upper bound on the number of steps before everything comes to rest. */
  function Work(c: Config, s: State): nat
    requires c.Valid()
  {
    StagesWork(c, s.stages) + WorkersWork(c, s.workers) + 2 * |s.buffer|
    + (match s.writer case Asleep => 0 case Ready => 1 case Writing(_) => 2)
  }

  lemma {:induction false} StagesUpdate(c: Config, gs: seq<Stage>, i: nat, g: Stage)
    requires c.Valid() && i < |gs|
    ensures StagesWork(c, gs[i := g]) + StageWork(c, i, gs[i]) == StagesWork(c, gs) + StageWork(c, i, g)
  {
    hide StageWork;
    var m := |gs| - 1;
    if i == m {
      assert gs[i := g][..m] == gs[..m];
    } else {
      StagesUpdate(c, gs[..m], i, g);
      assert gs[i := g][..m] == gs[..m][i := g];
    }
  }

  lemma {:induction false} WorkersUpdate(c: Config, ws: seq<Worker>, i: nat, w: Worker)
    requires c.Valid() && i < |ws|
    ensures WorkersWork(c, ws[i := w]) + WorkerWork(c, ws[i]) == WorkersWork(c, ws) + WorkerWork(c, w)
  {
    hide WorkerWork;
    var m := |ws| - 1;
    if i == m {
      assert ws[i := w][..m] == ws[..m];
    } else {
      WorkersUpdate(c, ws[..m], i, w);
      assert ws[i := w][..m] == ws[..m][i := w];
    }
  }

  lemma WorkerWorks(c: Config, s: State, w: nat, st: Step)
    requires LocksOK(c, s) && At(c, s, w) && ApplyWorker(c, s, w, st).Some?
    ensures Work(c, ApplyWorker(c, s, w, st).value) < Work(c, s)
  {
    hide StagesWork, WorkersWork;
    var s' := ApplyWorker(c, s, w, st).value;
    var i := s.workers[w].stage;
    WorkersUpdate(c, s.workers, w, s'.workers[w]);
    match st
    case Wake(_) => StagesUpdate(c, s.stages, i, s'.stages[i]);
    case Pop(_) => StagesUpdate(c, s.stages, i, s'.stages[i]);
    case Push(_) => StagesUpdate(c, s.stages, c.next[i], s'.stages[c.next[i]]);
    case Signal(_) => StagesUpdate(c, s.stages, c.next[i], s'.stages[c.next[i]]);
    case _ =>
  }

  lemma StepWorks(c: Config, s: State, st: Step)
    requires LocksOK(c, s) && Internal(st) && Apply(c, s, st).Some?
    ensures Work(c, Apply(c, s, st).value) < Work(c, s) && Apply(c, s, st).value.published == s.published
  {
    hide StagesWork, WorkersWork;
    if st.SignalPublished? {
      StagesUpdate(c, s.stages, st.stage, Apply(c, s, st).value.stages[st.stage]);
    } else if !st.Take? && !st.Flush? {
      WorkerWorks(c, s, st.worker, st);
    }
  }

  predicate AllInternal(steps: seq<Step>) {
    forall i :: 0 <= i < |steps| ==> Internal(steps[i])
  }

  lemma {:induction false} RunWorks(c: Config, s: State, steps: seq<Step>)
    requires Invariant(c, s) && AllInternal(steps) && Run(c, s, steps).Some?
    ensures var s' := Run(c, s, steps).value;
            |steps| + Work(c, s') <= Work(c, s) && s'.published == s.published && (Staffed(s) ==> Staffed(s'))
  {
    hide Apply, Work, LocksOK, NoLostWakeup, InOrder, Conserved, Staffed, DropsOK;
    if |steps| > 0 {
      var front := steps[..|steps| - 1];
      RunWorks(c, s, front);
      RunInvariant(c, s, front);
      StepWorks(c, Run(c, s, front).value, steps[|steps| - 1]);
      if Staffed(s) { StaysStaffed(c, Run(c, s, front).value, steps[|steps| - 1]); }
    }
  }

  lemma StaysStaffed(c: Config, s: State, st: Step)
    requires Staffed(s) && Apply(c, s, st).Some?
    ensures Staffed(Apply(c, s, st).value)
  {
    var s' := Apply(c, s, st).value;
    assert |s'.workers| == |s.workers| && |s'.stages| == |s.stages|;
    assert forall w :: 0 <= w < |s.workers| ==> s'.workers[w].stage == s.workers[w].stage;
    forall t | 0 <= t < |s'.stages| ensures HasStaff(s', t) {
      assert HasStaff(s, t);
      var w :| Staffs(s, w, t);
      assert Staffs(s', w, t);
    }
  }

  /** However the workers and the writer are scheduled, as long as nothing new is published and no wakeup is spurious,
      after at most Work steps nothing moves any more; and then everything published has come out of the pipe, except
      for events with an empty document or too large a frame. */
  lemma EverythingIsDelivered(c: Config, s: State, steps: seq<Step>)
    requires Invariant(c, s) && Staffed(s) && AllInternal(steps) && Run(c, s, steps).Some?
    ensures |steps| <= Work(c, s)
    ensures var s' := Run(c, s, steps).value;
            (forall st :: Internal(st) ==> Apply(c, s', st).None?) ==>
              && s'.published == s.published && Delivered(s')
              && (forall e {:trigger s'.published[e]} :: !Droppable(e) ==> CountIn(s'.output, e) == s.published[e])
  {
    hide Apply, Work, LocksOK, NoLostWakeup, InOrder, Conserved, Staffed, Delivered, DropsOK, CountIn, Droppable;
    RunWorks(c, s, steps);
    RunInvariant(c, s, steps);
    var s' := Run(c, s, steps).value;
    if !Delivered(s') {
      var st := NeverStuck(c, s');
    } else {
      forall e | !Droppable(e) ensures CountIn(s'.output, e) == s'.published[e] { DeliveredWhole(s', e); }
    }
  }
}
